/**
 * Step two of hiring the office, client/src/pages/ContratacaoDocumentos.tsx:
 * the list of documents to attach, the handler that attaches or removes a
 * file, the check that every mandatory document has one, the attachment
 * counts in the summary card, and the record saved on continuing.
 */
module ContratacaoDocumentos {
  import opened Wrappers
  import opened Contratacao

  /** The part of a browser `File` the page uses. */
  datatype Arquivo = Arquivo(name: string)

  datatype Documento = Documento(tipo: string, arquivo: Option<Arquivo>, obrigatorio: bool)

  /** The documents the page starts with: none attached, the first four mandatory. */
  function DocumentosIniciais(): seq<Documento>
  {
    [ Documento("Procuração Assinada", None, true),
      Documento("Contrato de Prestação de Serviços Assinado", None, true),
      Documento("RG/CPF/CNH", None, true),
      Documento("Contrato de compra e venda do imóvel", None, true),
      Documento("Boletos e comprovantes de pagamentos", None, false),
      Documento("Extrato de evolução das parcelas", None, false),
      Documento("Outros documentos", None, false) ]
  }

  /** `documentos.filter(p)`: the documents that satisfy p, in order. */
  function Filtrar(documentos: seq<Documento>, p: Documento -> bool): (r: seq<Documento>)
    ensures |r| <= |documentos|
    ensures forall d :: d in r ==> d in documentos && p(d)
  {
    if documentos == [] then []
    else
      var resto := Filtrar(documentos[1..], p);
      if p(documentos[0]) then [documentos[0]] + resto else resto
  }

  predicate EhObrigatorio(d: Documento) { d.obrigatorio }

  /** `d.arquivo` is truthy: a file is attached. */
  predicate Anexado(d: Documento) { d.arquivo.Some? }

  predicate ObrigatorioAnexado(d: Documento) { d.obrigatorio && d.arquivo.Some? }

  /** `validarDocumentos`: every mandatory document has a file. */
  predicate ValidarDocumentos(documentos: seq<Documento>) {
    forall d :: d in Filtrar(documentos, EhObrigatorio) ==> d.arquivo.Some?
  }

  /** `filter` looks at the element in front, then at the rest. */
  lemma FiltrarFrom(documentos: seq<Documento>, k: nat, p: Documento -> bool)
    requires k < |documentos|
    ensures Filtrar(documentos[k..], p) == (if p(documentos[k]) then [documentos[k]] else []) + Filtrar(documentos[k + 1..], p)
  {
    assert documentos[k..][1..] == documentos[k + 1..];
  }

  /** The list starts with seven documents, none attached, the first four of them mandatory. */
  lemma InitialShape()
    ensures |DocumentosIniciais()| == 7
    ensures forall i :: 0 <= i < 7 ==> DocumentosIniciais()[i].arquivo == None
    ensures forall i :: 0 <= i < 7 ==> (DocumentosIniciais()[i].obrigatorio <==> i < 4)
  {
  }

  /** Of the seven initial documents exactly four are mandatory, so the initial list fails validation. */
  lemma InitialDocuments()
    ensures |Filtrar(DocumentosIniciais(), EhObrigatorio)| == 4
    ensures !ValidarDocumentos(DocumentosIniciais())
  {
    InitialShape();
    FourOfSevenMandatory(DocumentosIniciais());
  }

  lemma FourOfSevenMandatory(docs: seq<Documento>)
    requires |docs| == 7
    requires forall i :: 0 <= i < 7 ==> docs[i].arquivo == None
    requires forall i :: 0 <= i < 7 ==> (docs[i].obrigatorio <==> i < 4)
    ensures |Filtrar(docs, EhObrigatorio)| == 4
    ensures !ValidarDocumentos(docs)
  {
    FiltrarFrom(docs, 6, EhObrigatorio);
    FiltrarFrom(docs, 5, EhObrigatorio);
    FiltrarFrom(docs, 4, EhObrigatorio);
    FiltrarFrom(docs, 3, EhObrigatorio);
    FiltrarFrom(docs, 2, EhObrigatorio);
    FiltrarFrom(docs, 1, EhObrigatorio);
    FiltrarFrom(docs, 0, EhObrigatorio);
    assert docs[0..] == docs;
    assert docs[0] in Filtrar(docs, EhObrigatorio);
  }

  /** The list passes when its first document is not a missing mandatory one and the rest passes. */
  lemma ValidStep(documentos: seq<Documento>)
    requires documentos != []
    ensures ValidarDocumentos(documentos) <==>
      (documentos[0].obrigatorio ==> documentos[0].arquivo.Some?) && ValidarDocumentos(documentos[1..])
  {
    var resto := Filtrar(documentos[1..], EhObrigatorio);
    if documentos[0].obrigatorio {
      assert Filtrar(documentos, EhObrigatorio) == [documentos[0]] + resto;
      assert documentos[0] in Filtrar(documentos, EhObrigatorio);
    }
  }

  /** The list passes exactly when every document marked mandatory has a file; optional ones do not matter. */
  lemma {:induction false} ValidIffMandatoryAttached(documentos: seq<Documento>)
    ensures ValidarDocumentos(documentos) <==>
      forall i :: 0 <= i < |documentos| && documentos[i].obrigatorio ==> documentos[i].arquivo.Some?
  {
    if documentos != [] {
      var resto := documentos[1..];
      ValidIffMandatoryAttached(resto);
      ValidStep(documentos);
      if forall i :: 0 <= i < |documentos| && documentos[i].obrigatorio ==> documentos[i].arquivo.Some? {
        forall j | 0 <= j < |resto| && resto[j].obrigatorio
          ensures resto[j].arquivo.Some?
        {
          assert resto[j] == documentos[j + 1];
        }
      }
    }
  }

  /** Mandatory attached documents are at most the mandatory ones, and all of them exactly when the list passes. */
  lemma {:induction false} MandatoryCounts(documentos: seq<Documento>)
    ensures |Filtrar(documentos, ObrigatorioAnexado)| <= |Filtrar(documentos, EhObrigatorio)|
    ensures |Filtrar(documentos, ObrigatorioAnexado)| == |Filtrar(documentos, EhObrigatorio)|
      <==> ValidarDocumentos(documentos)
  {
    if documentos != [] {
      MandatoryCounts(documentos[1..]);
      ValidStep(documentos);
    }
  }

  /** The summary card's attached count never exceeds the number of documents. */
  lemma AttachedCount(documentos: seq<Documento>)
    ensures |Filtrar(documentos, Anexado)| <= |documentos|
    ensures |Filtrar(documentos, ObrigatorioAnexado)| <= |Filtrar(documentos, Anexado)|
  {
    AttachedCountStep(documentos);
  }

  lemma {:induction false} AttachedCountStep(documentos: seq<Documento>)
    ensures |Filtrar(documentos, ObrigatorioAnexado)| <= |Filtrar(documentos, Anexado)|
  {
    if documentos != [] {
      AttachedCountStep(documentos[1..]);
    }
  }

  /** One entry of the saved record. */
  datatype ResumoDocumento = ResumoDocumento(tipo: string, nomeArquivo: Option<string>, obrigatorio: bool)

  /** `d.arquivo?.name || null`: the file's name, or null without a file or with an empty name. */
  function NomeArquivo(d: Documento): (r: Option<string>)
    ensures r.Some? <==> d.arquivo.Some? && d.arquivo.value.name != ""
    ensures r.Some? ==> r.value == d.arquivo.value.name
  {
    if d.arquivo.Some? && d.arquivo.value.name != "" then Some(d.arquivo.value.name) else None
  }

  /** `documentos.map(...)` in `handleContinuar`. */
  function Resumo(documentos: seq<Documento>): (r: seq<ResumoDocumento>)
    ensures |r| == |documentos|
    ensures forall i :: 0 <= i < |r| ==> r[i] == ResumoDocumento(documentos[i].tipo, NomeArquivo(documentos[i]),
      documentos[i].obrigatorio)
  {
    seq(|documentos|, i requires 0 <= i < |documentos| =>
      ResumoDocumento(documentos[i].tipo, NomeArquivo(documentos[i]), documentos[i].obrigatorio))
  }

  /** What `handleContinuar` saves under "contratacaoDados". */
  datatype DadosCompletos = DadosCompletos(clienteData: Option<ClienteData>, documentos: seq<ResumoDocumento>)

  /** The page's state. */
  class Pagina {
    var clienteData: Option<ClienteData>
    var documentos: seq<Documento>
    /** What `localStorage` holds under "contratacaoDados", if it was written. */
    var salvo: Option<DadosCompletos>
    /** The alerts shown, oldest first. */
    var alertas: seq<string>
    /** The routes navigated to, oldest first. */
    var navegacao: seq<string>

    /** The initial state, with the client data the effect reads from storage, if any. */
    constructor (armazenado: Option<ClienteData>)
      ensures clienteData == armazenado && documentos == DocumentosIniciais()
      ensures salvo == None && alertas == [] && navegacao == []
    {
      clienteData := armazenado;
      documentos := DocumentosIniciais();
      salvo := None;
      alertas := [];
      navegacao := [];
    }

    /** `handleArquivoChange`: attach (or, with None, remove) the file of one document, touching nothing else. */
    method HandleArquivoChange(index: nat, file: Option<Arquivo>)
      requires index < |documentos|
      modifies this
      ensures |documentos| == |old(documentos)|
      ensures documentos[index] == old(documentos)[index].(arquivo := file)
      ensures forall i :: 0 <= i < |documentos| && i != index ==> documentos[i] == old(documentos)[i]
      ensures clienteData == old(clienteData) && salvo == old(salvo)
      ensures alertas == old(alertas) && navegacao == old(navegacao)
    {
      var novosDocumentos := documentos;
      novosDocumentos := novosDocumentos[index := novosDocumentos[index].(arquivo := file)];
      documentos := novosDocumentos;
    }

    /** `handleContinuar`: without every mandatory file, alert and stay; otherwise save the summary and move on. */
    method HandleContinuar()
      modifies this
      ensures !ValidarDocumentos(documentos) ==>
        && alertas == old(alertas) + ["Por favor, anexe todos os documentos obrigatórios"]
        && salvo == old(salvo) && navegacao == old(navegacao)
      ensures ValidarDocumentos(documentos) ==>
        && salvo == Some(DadosCompletos(clienteData, Resumo(documentos)))
        && navegacao == old(navegacao) + ["/sucesso"] && alertas == old(alertas)
      ensures documentos == old(documentos) && clienteData == old(clienteData)
    {
      if !ValidarDocumentos(documentos) {
        alertas := alertas + ["Por favor, anexe todos os documentos obrigatórios"];
        return;
      }
      var dadosCompletos := DadosCompletos(clienteData, Resumo(documentos));
      salvo := Some(dadosCompletos);
      navegacao := navegacao + ["/sucesso"];
    }
  }
}
