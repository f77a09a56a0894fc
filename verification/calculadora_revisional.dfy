/**
 * The submit handler of client/src/components/CalculadoraRevisional.tsx: the
 * five checks run in order on the parsed form (the first one that fails shows
 * its message and stops), the conversion of the rate from percent to decimal,
 * the choice of correction index, and the one parameter record sent to both
 * the Price and the MQJS calculation.
 */
module CalculadoraRevisional {
  import opened Wrappers
  import opened Text
  import opened Schedule
  import opened Correction
  import TabelaComparativa

  /** What `parseFloat` / `parseInt` return: a number, or NaN when the text does not start with one. */
  datatype Numero<T> = NaN | Num(value: T)

  /** `isNaN(x)`. */
  predicate IsNaN<T>(x: Numero<T>) {
    x.NaN?
  }

  /** `x <= c`: false when x is NaN, as every comparison with NaN is. */
  predicate AtMost(x: Numero<real>, c: real) {
    x.Num? && x.value <= c
  }

  /** `x < c`: false when x is NaN. */
  predicate Below(x: Numero<real>, c: real) {
    x.Num? && x.value < c
  }

  /** `n <= c` on the result of `parseInt`: false when n is NaN. */
  predicate IntAtMost(n: Numero<int>, c: int) {
    n.Num? && n.value <= c
  }

  /** `a - b`: NaN when either operand is. */
  function Minus(a: Numero<real>, b: Numero<real>): (r: Numero<real>)
    ensures r.Num? <==> a.Num? && b.Num?
    ensures r.Num? ==> r.value + b.value == a.value
  {
    if a.Num? && b.Num? then Num(a.value - b.value) else NaN
  }

  /** `tipoTaxa`. */
  datatype TipoTaxa = Mensal | Anual

  /** A choice of the `indiceCorrecao` select: one of the two indices, or "nenhum". */
  datatype OpcaoIndice = Indice(indice: IndexType) | Nenhum

  /**
   * The form after the parsing at the top of `onSubmit`; the date fields stay
   * text, and so does the optional paid count, which the handler never parses.
   */
  datatype Formulario = Formulario(
    valorImovel: Numero<real>,
    entrada: Numero<real>,
    taxaJuros: Numero<real>,
    tipoTaxa: TipoTaxa,
    quantidadeParcelas: Numero<int>,
    vencimentoParcela: string,
    dataContrato: string,
    indiceCorrecao: Option<OpcaoIndice>,
    quantidadeParcelasPagas: Option<string>)

  /** The record sent to both calculations. */
  datatype Parametros = Parametros(
    valorImovel: real,
    entrada: real,
    taxaJuros: real,
    ehTaxaAnual: bool,
    quantidadeParcelas: Numero<int>,
    dataContrato: string,
    dataPrimeiraParcela: string,
    indiceCorrecao: Option<IndexType>)

  /** The five checks, in the order they run. */
  datatype Erro = ValorImovelInvalido | EntradaInvalida | TaxaInvalida | QuantidadeInvalida | FinanciadoInvalido

  /** The position of a check in the chain. */
  function Ordem(e: Erro): nat
  {
    match e
    case ValorImovelInvalido => 0
    case EntradaInvalida => 1
    case TaxaInvalida => 2
    case QuantidadeInvalida => 3
    case FinanciadoInvalido => 4
  }

  /** The message each check shows. */
  function Mensagem(e: Erro): string
  {
    match e
    case ValorImovelInvalido => "Valor do imóvel deve ser maior que zero"
    case EntradaInvalida => "Entrada deve ser maior ou igual a zero"
    case TaxaInvalida => "Taxa de juros deve ser maior que zero"
    case QuantidadeInvalida => "Quantidade de parcelas deve ser maior que zero"
    case FinanciadoInvalido => "Valor financiado deve ser maior que zero"
  }

  /** The condition under which a check rejects the form, as the handler writes it. */
  predicate Dispara(f: Formulario, e: Erro)
  {
    match e
    case ValorImovelInvalido => IsNaN(f.valorImovel) || AtMost(f.valorImovel, 0.0)
    case EntradaInvalida => IsNaN(f.entrada) || Below(f.entrada, 0.0)
    case TaxaInvalida => IsNaN(f.taxaJuros) || AtMost(f.taxaJuros, 0.0)
    case QuantidadeInvalida => IntAtMost(f.quantidadeParcelas, 0)
    case FinanciadoInvalido => AtMost(Minus(f.valorImovel, f.entrada), 0.0)
  }

  /** "nenhum" and an absent choice both mean no correction. */
  function IndiceEscolhido(opcao: Option<OpcaoIndice>): (r: Option<IndexType>)
    ensures r.None? <==> opcao == None || opcao == Some(Nenhum)
    ensures r.Some? ==> opcao == Some(Indice(r.value))
  {
    match opcao
    case Some(Indice(i)) => Some(i)
    case _ => None
  }

  /** The parameter record built once every check has passed. */
  function ParametrosDe(f: Formulario): Parametros
    requires f.valorImovel.Num? && f.entrada.Num? && f.taxaJuros.Num?
  {
    Parametros(f.valorImovel.value, f.entrada.value, f.taxaJuros.value / 100.0, f.tipoTaxa == Anual,
      f.quantidadeParcelas, f.dataContrato, f.vencimentoParcela, IndiceEscolhido(f.indiceCorrecao))
  }

  /** The validation chain and parameter derivation of `onSubmit`. */
  function Validar(f: Formulario): (r: Result<Parametros, Erro>)
    ensures r.Success? ==> f.valorImovel == Num(r.value.valorImovel) && f.entrada == Num(r.value.entrada)
    ensures r.Success? ==> f.taxaJuros.Num? && r.value.taxaJuros * 100.0 == f.taxaJuros.value
    ensures r.Success? ==> r.value.valorImovel - r.value.entrada > 0.0
    ensures r.Success? ==> (r.value.ehTaxaAnual <==> f.tipoTaxa == Anual)
    ensures r.Success? ==> r.value.quantidadeParcelas == f.quantidadeParcelas
    ensures r.Success? ==> r.value.indiceCorrecao == IndiceEscolhido(f.indiceCorrecao)
    ensures r.Success? ==> r.value.dataPrimeiraParcela == f.vencimentoParcela && r.value.dataContrato == f.dataContrato
  {
    if Dispara(f, ValorImovelInvalido) then Failure(ValorImovelInvalido)
    else if Dispara(f, EntradaInvalida) then Failure(EntradaInvalida)
    else if Dispara(f, TaxaInvalida) then Failure(TaxaInvalida)
    else if Dispara(f, QuantidadeInvalida) then Failure(QuantidadeInvalida)
    else if Dispara(f, FinanciadoInvalido) then Failure(FinanciadoInvalido)
    else Success(ParametrosDe(f))
  }

  /** The form is accepted exactly when no check fires. */
  lemma AcceptedIffNoCheckFires(f: Formulario)
    ensures Validar(f).Success? <==> forall e :: !Dispara(f, e)
  {
    if !Validar(f).Success? {
      assert Dispara(f, Validar(f).error);
    }
  }

  /** A rejected form reports the first check that fires, and no earlier one fires. */
  lemma RejectsWithFirstFiringCheck(f: Formulario, e: Erro)
    ensures Validar(f) == Failure(e) <==> Dispara(f, e) && forall e' :: Ordem(e') < Ordem(e) ==> !Dispara(f, e')
  {
    if Dispara(f, e) && forall e' :: Ordem(e') < Ordem(e) ==> !Dispara(f, e') {
      match e
      case ValorImovelInvalido =>
      case EntradaInvalida =>
        assert !Dispara(f, ValorImovelInvalido) by { assert Ordem(ValorImovelInvalido) < Ordem(e); }
      case TaxaInvalida =>
        assert !Dispara(f, ValorImovelInvalido) by { assert Ordem(ValorImovelInvalido) < Ordem(e); }
        assert !Dispara(f, EntradaInvalida) by { assert Ordem(EntradaInvalida) < Ordem(e); }
      case QuantidadeInvalida =>
        assert !Dispara(f, ValorImovelInvalido) by { assert Ordem(ValorImovelInvalido) < Ordem(e); }
        assert !Dispara(f, EntradaInvalida) by { assert Ordem(EntradaInvalida) < Ordem(e); }
        assert !Dispara(f, TaxaInvalida) by { assert Ordem(TaxaInvalida) < Ordem(e); }
      case FinanciadoInvalido =>
        assert !Dispara(f, ValorImovelInvalido) by { assert Ordem(ValorImovelInvalido) < Ordem(e); }
        assert !Dispara(f, EntradaInvalida) by { assert Ordem(EntradaInvalida) < Ordem(e); }
        assert !Dispara(f, TaxaInvalida) by { assert Ordem(TaxaInvalida) < Ordem(e); }
        assert !Dispara(f, QuantidadeInvalida) by { assert Ordem(QuantidadeInvalida) < Ordem(e); }
    }
  }

  /** A zero down payment passes its check, while a negative one is rejected. */
  lemma ZeroEntradaAccepted(f: Formulario)
    ensures f.entrada == Num(0.0) ==> !Dispara(f, EntradaInvalida)
    ensures f.entrada.Num? && f.entrada.value < 0.0 ==> Dispara(f, EntradaInvalida)
  {
  }

  /** A count that does not parse is not stopped by the count check and reaches the calculations as NaN. */
  lemma NaNCountPasses(f: Formulario)
    requires f.quantidadeParcelas.NaN?
    requires f.valorImovel.Num? && f.entrada.Num? && f.taxaJuros.Num?
    requires f.valorImovel.value > 0.0 && f.entrada.value >= 0.0 && f.taxaJuros.value > 0.0
    requires f.valorImovel.value > f.entrada.value
    ensures Validar(f).Success? && Validar(f).value.quantidadeParcelas.NaN?
  {
  }

  /**
   * `queryParams?.quantidadeParcelasPagas`, the paid count handed to the
   * comparison panel: the parameter record has no such property, so the
   * panel always receives `undefined`.
   */
  function PagasDoPainel(queryParams: Option<Parametros>): Option<int>
  {
    None
  }

  /**
   * As written, the paid count typed into the form is lost: it changes nothing
   * in the parameters, and the panel, given no count, totals the whole Price
   * schedule whatever was typed.
   */
  lemma PaidCountNeverReachesPanel(f: Formulario, texto: Option<string>, parcelasPrice: seq<Installment>)
    ensures Validar(f.(quantidadeParcelasPagas := texto)) == Validar(f)
    ensures Validar(f).Success? ==>
      TabelaComparativa.ParcelasParaMostrar(TabelaComparativa.ParcelasPagas(PagasDoPainel(Some(Validar(f).value))),
        |parcelasPrice|) == |parcelasPrice|
  {
    TabelaComparativa.DefaultCoversWholeSchedule(parcelasPrice);
  }

  /**
   * The paid count the form evidently means to pass on: `Number` of the typed
   * digits, and no count when the field is left out or is not a number.
   */
  function PagasInformadas(texto: Option<string>): (r: Option<int>)
    ensures r.Some? ==> texto.Some? && NumberOf(texto.value) == r && r.value >= 0
    ensures texto.Some? && NumberOf(texto.value).Some? ==> r == NumberOf(texto.value)
  {
    match texto
    case Some(t) => NumberOf(t)
    case None => None
  }

  /**
   * With the typed count carried to the panel, typing n totals the first n
   * instalments (all of them when n is 0 or at least the schedule's length),
   * as the field's help text says.
   */
  lemma IntendedPaidCountReachesPanel(n: nat, totalPrice: nat)
    ensures TabelaComparativa.ParcelasParaMostrar(
        TabelaComparativa.ParcelasPagas(PagasInformadas(Some(NatToString(n)))), totalPrice)
      == if 0 < n < totalPrice then n else totalPrice
  {
    DigitsOfNat(n);
  }

  /** A request to one of the two server calculations. */
  datatype Pedido = PedidoPrice(parametros: Parametros) | PedidoMqjs(parametros: Parametros)

  /** The component's state, with the requests it sends and the messages it shows. */
  class Calculadora {
    var resultado: Option<seq<CorrectedInstallment>>
    var resultadoMQJS: Option<seq<CorrectedInstallment>>
    var isLoading: bool
    var queryParams: Option<Parametros>
    /** The mutation calls made, oldest first. */
    var pedidos: seq<Pedido>
    /** The toasts shown, oldest first. */
    var avisos: seq<string>

    constructor ()
      ensures resultado == None && resultadoMQJS == None && !isLoading && queryParams == None
      ensures pedidos == [] && avisos == []
    {
      resultado := None;
      resultadoMQJS := None;
      isLoading := false;
      queryParams := None;
      pedidos := [];
      avisos := [];
    }

    /**
     * `onSubmit`: clear both results, then either show the first failing check's
     * message and stop loading, or record the parameters and request both
     * calculations with that same record.
     */
    method OnSubmit(f: Formulario)
      modifies this
      ensures resultado == None && resultadoMQJS == None
      ensures Validar(f).Failure? ==>
        && !isLoading && queryParams == old(queryParams) && pedidos == old(pedidos)
        && avisos == old(avisos) + [Mensagem(Validar(f).error)]
      ensures Validar(f).Success? ==>
        && isLoading && queryParams == Some(Validar(f).value) && avisos == old(avisos)
        && pedidos == old(pedidos) + [PedidoPrice(Validar(f).value), PedidoMqjs(Validar(f).value)]
    {
      isLoading := true;
      resultado := None;
      resultadoMQJS := None;

      if IsNaN(f.valorImovel) || AtMost(f.valorImovel, 0.0) {
        avisos := avisos + [Mensagem(ValorImovelInvalido)];
        isLoading := false;
        return;
      }
      if IsNaN(f.entrada) || Below(f.entrada, 0.0) {
        avisos := avisos + [Mensagem(EntradaInvalida)];
        isLoading := false;
        return;
      }
      if IsNaN(f.taxaJuros) || AtMost(f.taxaJuros, 0.0) {
        avisos := avisos + [Mensagem(TaxaInvalida)];
        isLoading := false;
        return;
      }
      if IntAtMost(f.quantidadeParcelas, 0) {
        avisos := avisos + [Mensagem(QuantidadeInvalida)];
        isLoading := false;
        return;
      }
      var valorFinanciado := Minus(f.valorImovel, f.entrada);
      if AtMost(valorFinanciado, 0.0) {
        avisos := avisos + [Mensagem(FinanciadoInvalido)];
        isLoading := false;
        return;
      }

      var taxaDecimal := f.taxaJuros.value / 100.0;
      var indiceCorrecao := IndiceEscolhido(f.indiceCorrecao);
      var params := Parametros(f.valorImovel.value, f.entrada.value, taxaDecimal, f.tipoTaxa == Anual,
        f.quantidadeParcelas, f.dataContrato, f.vencimentoParcela, indiceCorrecao);
      queryParams := Some(params);
      pedidos := pedidos + [PedidoPrice(params)];
      pedidos := pedidos + [PedidoMqjs(params)];
    }

    /** The Price request's `onSuccess`: keep its rows. */
    method PriceConcluido(data: seq<CorrectedInstallment>)
      modifies this
      ensures resultado == Some(data)
      ensures resultadoMQJS == old(resultadoMQJS) && isLoading == old(isLoading) && queryParams == old(queryParams)
      ensures pedidos == old(pedidos) && avisos == old(avisos)
    {
      resultado := Some(data);
    }

    /** The MQJS request's `onSuccess`: keep its rows and stop loading. */
    method MqjsConcluido(data: seq<CorrectedInstallment>)
      modifies this
      ensures resultadoMQJS == Some(data) && !isLoading
      ensures resultado == old(resultado) && queryParams == old(queryParams)
      ensures pedidos == old(pedidos) && avisos == old(avisos)
    {
      resultadoMQJS := Some(data);
      isLoading := false;
    }

    /** Either request's `onError`: show its message and stop loading. */
    method PedidoFalhou(pedido: Pedido)
      modifies this
      ensures !isLoading
      ensures avisos == old(avisos) + [if pedido.PedidoPrice?
        then "Erro ao calcular PRICE. Verifique os dados e tente novamente."
        else "Erro ao calcular MQJS. Verifique os dados e tente novamente."]
      ensures resultado == old(resultado) && resultadoMQJS == old(resultadoMQJS)
      ensures queryParams == old(queryParams) && pedidos == old(pedidos)
    {
      if pedido.PedidoPrice? {
        avisos := avisos + ["Erro ao calcular PRICE. Verifique os dados e tente novamente."];
      } else {
        avisos := avisos + ["Erro ao calcular MQJS. Verifique os dados e tente novamente."];
      }
      isLoading := false;
    }
  }
}
