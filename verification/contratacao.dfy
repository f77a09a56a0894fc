/**
 * Step one of hiring the office, client/src/pages/Contratacao.tsx: the client's
 * personal data, the per-field edit handler, the check that every required
 * field holds something besides white space, and the move to the documents step.
 */
module Contratacao {
  import opened Wrappers
  import opened Text

  /** The fields of `ClienteData`. */
  datatype Campo =
    | NomeCompleto | Nacionalidade | Profissao | EstadoCivil | Rg | Cpf | Endereco
    | Numero | Complemento | Bairro | Municipio | Estado | Telefone | Email

  /** The fields `validarFormulario` demands; the other five are optional. */
  predicate Obrigatorio(campo: Campo) {
    !(campo.Nacionalidade? || campo.Profissao? || campo.EstadoCivil? || campo.Numero? || campo.Complemento?)
  }

  /** The message shown when a required field is blank. */
  function MensagemObrigatorio(campo: Campo): string
  {
    match campo
    case NomeCompleto => "Nome completo é obrigatório"
    case Rg => "RG é obrigatório"
    case Cpf => "CPF é obrigatório"
    case Endereco => "Endereço é obrigatório"
    case Bairro => "Bairro é obrigatório"
    case Municipio => "Município é obrigatório"
    case Estado => "Estado é obrigatório"
    case Telefone => "Telefone é obrigatório"
    case Email => "E-mail é obrigatório"
    case _ => ""
  }

  /** Every field, in the order `ClienteData` declares them. */
  function AllCampos(): set<Campo>
  {
    {NomeCompleto, Nacionalidade, Profissao, EstadoCivil, Rg, Cpf, Endereco, Numero, Complemento, Bairro,
      Municipio, Estado, Telefone, Email}
  }

  lemma AllCamposComplete()
    ensures forall campo: Campo :: campo in AllCampos()
  {
    forall campo: Campo
      ensures campo in AllCampos()
    {
      match campo
      case NomeCompleto =>
      case Nacionalidade =>
      case Profissao =>
      case EstadoCivil =>
      case Rg =>
      case Cpf =>
      case Endereco =>
      case Numero =>
      case Complemento =>
      case Bairro =>
      case Municipio =>
      case Estado =>
      case Telefone =>
      case Email =>
    }
  }

  /** The client's data, one text per field. */
  type ClienteData = map<Campo, string>

  /** Every field has a value, as in the initial state where each one is "". */
  predicate Completo(dados: ClienteData) {
    forall campo: Campo :: campo in dados
  }

  /** The form as it starts. */
  function DadosIniciais(): (dados: ClienteData)
    ensures Completo(dados)
    ensures forall campo :: dados[campo] == ""
  {
    AllCamposComplete();
    map campo: Campo | campo in AllCampos() :: ""
  }

  /** One line of `validarFormulario`: add the field's message when it is blank once trimmed. */
  function Verificar(erros: map<Campo, string>, dados: ClienteData, campo: Campo): map<Campo, string>
    requires Completo(dados)
  {
    if IsBlank(dados[campo]) then erros[campo := MensagemObrigatorio(campo)] else erros
  }

  /** One check touches only its own field's entry. */
  lemma VerificarEntry(erros: map<Campo, string>, dados: ClienteData, campo: Campo, k: Campo)
    requires Completo(dados)
    ensures k != campo ==> (k in Verificar(erros, dados, campo) <==> k in erros)
    ensures k != campo && k in erros ==> Verificar(erros, dados, campo)[k] == erros[k]
    ensures k == campo ==> (k in Verificar(erros, dados, campo) <==> k in erros || IsBlank(dados[campo]))
    ensures k == campo && IsBlank(dados[campo]) ==> Verificar(erros, dados, campo)[k] == MensagemObrigatorio(campo)
  {
  }

  /** The required fields, in the order `validarFormulario` checks them. */
  const Requeridos: seq<Campo> := [NomeCompleto, Rg, Cpf, Endereco, Bairro, Municipio, Estado, Telefone, Email]

  /** A field is required exactly when `validarFormulario` checks it. */
  lemma RequiredMeansChecked(campo: Campo)
    ensures Obrigatorio(campo) <==> campo in Requeridos
  {
    if Obrigatorio(campo) {
      match campo
      case NomeCompleto => assert Requeridos[0] == campo;
      case Rg => assert Requeridos[1] == campo;
      case Cpf => assert Requeridos[2] == campo;
      case Endereco => assert Requeridos[3] == campo;
      case Bairro => assert Requeridos[4] == campo;
      case Municipio => assert Requeridos[5] == campo;
      case Estado => assert Requeridos[6] == campo;
      case Telefone => assert Requeridos[7] == campo;
      case Email => assert Requeridos[8] == campo;
      case _ =>
    }
  }

  /** The errors after checking the given fields in order, starting from none. */
  function ErrosDe(dados: ClienteData, campos: seq<Campo>): map<Campo, string>
    requires Completo(dados)
  {
    if campos == [] then map[] else Verificar(ErrosDe(dados, campos[..|campos| - 1]), dados, campos[|campos| - 1])
  }

  /** The errors `validarFormulario` collects: every check, in order. */
  function ErrosDoFormulario(dados: ClienteData): map<Campo, string>
    requires Completo(dados)
  {
    ErrosDe(dados, Requeridos)
  }

  /** After checking some fields, exactly the blank ones among them carry their message. */
  lemma {:induction false} ErrosDeEntries(dados: ClienteData, campos: seq<Campo>, campo: Campo)
    requires Completo(dados)
    ensures campo in ErrosDe(dados, campos) <==> campo in campos && IsBlank(dados[campo])
    ensures campo in ErrosDe(dados, campos) ==> ErrosDe(dados, campos)[campo] == MensagemObrigatorio(campo)
  {
    if campos != [] {
      var n := |campos| - 1;
      ErrosDeEntries(dados, campos[..n], campo);
      VerificarEntry(ErrosDe(dados, campos[..n]), dados, campos[n], campo);
      assert campos == campos[..n] + [campos[n]];
    }
  }

  /**
   * A field carries an error exactly when it is required and blank, the error
   * is that field's own non-empty message, and an optional field never errs.
   */
  lemma ErrorsAreBlankRequiredFields(dados: ClienteData, campo: Campo)
    requires Completo(dados)
    ensures campo in ErrosDoFormulario(dados) <==> Obrigatorio(campo) && IsBlank(dados[campo])
    ensures campo in ErrosDoFormulario(dados) ==> ErrosDoFormulario(dados)[campo] == MensagemObrigatorio(campo) != ""
    ensures !Obrigatorio(campo) ==> campo !in ErrosDoFormulario(dados)
  {
    ErrosDeEntries(dados, Requeridos, campo);
    RequiredMeansChecked(campo);
  }

  /** The form passes exactly when no required field is blank, that is, all white space. */
  lemma ValidIffRequiredFieldsFilled(dados: ClienteData)
    requires Completo(dados)
    ensures |ErrosDoFormulario(dados)| == 0 <==>
      forall campo :: Obrigatorio(campo) ==> exists i :: 0 <= i < |dados[campo]| && !IsJsWhitespace(dados[campo][i])
  {
    var erros := ErrosDoFormulario(dados);
    if |erros| == 0 {
      forall campo | Obrigatorio(campo)
        ensures exists i :: 0 <= i < |dados[campo]| && !IsJsWhitespace(dados[campo][i])
      {
        assert campo !in erros.Keys;
        ErrorsAreBlankRequiredFields(dados, campo);
        BlankIffAllWhitespace(dados[campo]);
      }
    } else {
      assert erros.Keys != {};
      var campo :| campo in erros.Keys;
      ErrorsAreBlankRequiredFields(dados, campo);
      BlankIffAllWhitespace(dados[campo]);
    }
  }

  /** The page's state. */
  class Formulario {
    var clienteData: ClienteData
    var erros: map<Campo, string>
    /** What `localStorage` holds under "clienteData", if it was written. */
    var armazenado: Option<ClienteData>
    /** The routes navigated to, oldest first. */
    var navegacao: seq<string>

    predicate Valid()
      reads this
    {
      Completo(clienteData)
    }

    constructor ()
      ensures Valid()
      ensures clienteData == DadosIniciais() && erros == map[] && armazenado == None && navegacao == []
    {
      clienteData := DadosIniciais();
      erros := map[];
      armazenado := None;
      navegacao := [];
    }

    /**
     * `handleClienteChange`: set the edited field, and clear its error only
     * when one is showing; every other field and error stays as it was.
     */
    method HandleClienteChange(name: Campo, value: string)
      requires Valid()
      modifies this
      ensures Valid()
      ensures clienteData[name] == value
      ensures forall campo :: campo != name ==> clienteData[campo] == old(clienteData)[campo]
      ensures name in old(erros) && old(erros)[name] != "" ==> erros == old(erros)[name := ""]
      ensures !(name in old(erros) && old(erros)[name] != "") ==> erros == old(erros)
      ensures armazenado == old(armazenado) && navegacao == old(navegacao)
    {
      clienteData := clienteData[name := value];
      if name in erros && erros[name] != "" {
        erros := erros[name := ""];
      }
    }

    /** One line of `validarFormulario`: a blank required field gets its message. */
    method ExigirCampo(novosErros: map<Campo, string>, campo: Campo, ghost verificados: seq<Campo>)
      returns (r: map<Campo, string>)
      requires Valid() && novosErros == ErrosDe(clienteData, verificados)
      ensures r == ErrosDe(clienteData, verificados + [campo])
    {
      assert (verificados + [campo])[..|verificados|] == verificados;
      r := novosErros;
      if IsBlank(clienteData[campo]) {
        r := r[campo := MensagemObrigatorio(campo)];
      }
    }

    /**
     * `validarFormulario`: build the errors afresh, one required field after
     * another, replace the old errors with them, and pass when there are none.
     */
    method ValidarFormulario() returns (ok: bool)
      requires Valid()
      modifies this
      ensures Valid()
      ensures erros == ErrosDoFormulario(clienteData)
      ensures ok <==> |erros| == 0
      ensures clienteData == old(clienteData) && armazenado == old(armazenado) && navegacao == old(navegacao)
    {
      var novosErros: map<Campo, string> := map[];
      ghost var verificados: seq<Campo> := [];
      novosErros := ExigirCampo(novosErros, NomeCompleto, verificados);
      verificados := verificados + [NomeCompleto];
      novosErros := ExigirCampo(novosErros, Rg, verificados);
      verificados := verificados + [Rg];
      novosErros := ExigirCampo(novosErros, Cpf, verificados);
      verificados := verificados + [Cpf];
      novosErros := ExigirCampo(novosErros, Endereco, verificados);
      verificados := verificados + [Endereco];
      novosErros := ExigirCampo(novosErros, Bairro, verificados);
      verificados := verificados + [Bairro];
      novosErros := ExigirCampo(novosErros, Municipio, verificados);
      verificados := verificados + [Municipio];
      novosErros := ExigirCampo(novosErros, Estado, verificados);
      verificados := verificados + [Estado];
      novosErros := ExigirCampo(novosErros, Telefone, verificados);
      verificados := verificados + [Telefone];
      novosErros := ExigirCampo(novosErros, Email, verificados);
      verificados := verificados + [Email];
      assert verificados == Requeridos;
      erros := novosErros;
      ok := |novosErros| == 0;
    }

    /** `handleProxima`: save the data and go to the documents step, only when the form passes. */
    method HandleProxima()
      requires Valid()
      modifies this
      ensures Valid()
      ensures erros == ErrosDoFormulario(clienteData) && clienteData == old(clienteData)
      ensures |erros| == 0 ==> armazenado == Some(clienteData) && navegacao == old(navegacao) + ["/contratacao-documentos"]
      ensures |erros| != 0 ==> armazenado == old(armazenado) && navegacao == old(navegacao)
    {
      var ok := ValidarFormulario();
      if ok {
        armazenado := Some(clienteData);
        navegacao := navegacao + ["/contratacao-documentos"];
      }
    }
  }
}
