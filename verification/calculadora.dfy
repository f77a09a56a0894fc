/**
 * The server entry points of server/calculadora.ts: `calcularPrice` and
 * `calcularMQJS` (a schedule, then the monetary correction when an index is
 * chosen) and `calcularDiferencaParcelasPagas`, which pairs the Price and the
 * MQJS rows of the instalments already paid.
 */
module Calculadora {
  import opened Wrappers
  import opened Money
  import opened Dates
  import opened Schedule
  import opened PriceSchedule
  import opened MqjsSchedule
  import opened Correction

  /** The Price schedule's due dates are calendar dates. */
  lemma PriceDueDatesValid(financiado: real, taxa: real, n: nat, primeira: Date)
    requires taxa > -1.0 && ValidDate(primeira)
    ensures ValidDueDates(PriceSchedule.PriceSchedule(financiado, taxa, n, primeira))
  {
  }

  /** The MQJS schedule's due dates are calendar dates. */
  lemma MqjsDueDatesValid(financiado: real, taxa: real, n: nat, primeira: Date)
    requires taxa >= 0.0 && ValidDate(primeira)
    ensures ValidDueDates(MqjsSchedule.MqjsSchedule(financiado, taxa, n, primeira))
  {
    forall k | 0 <= k < n
      ensures ValidDate(MqjsSchedule.MqjsSchedule(financiado, taxa, n, primeira)[k].dataVencimento)
    {
      MqjsScheduleShape(financiado, taxa, n, primeira, k);
    }
  }

  /**
   * `calcularPrice`: the Price schedule, passed through with its six fields
   * when no index is chosen, corrected by the index otherwise.
   */
  method CalcularPrice(
    valorImovel: real, entrada: real, taxaJuros: real, quantidadeParcelas: nat,
    dataContrato: string, dataPrimeiraParcela: Date, ehTaxaAnual: bool, twelfthRoot: real -> real,
    indiceCorrecao: Option<IndexType>, indices: IndexStore, hoje: Instant)
    returns (parcelas: seq<CorrectedInstallment>)
    requires taxaJuros > 0.0 && (ehTaxaAnual ==> twelfthRoot(1.0 + taxaJuros) > 0.0)
    requires ValidDate(dataPrimeiraParcela) && ValidStore(indices)
    ensures var base := PriceSchedule.PriceSchedule(valorImovel - entrada, PriceMonthlyRate(taxaJuros, ehTaxaAnual, twelfthRoot),
      quantidadeParcelas, dataPrimeiraParcela);
      && (indiceCorrecao.None? ==> parcelas == SemCorrecao(base))
      && (indiceCorrecao.Some? ==> parcelas == CorrectedRows(base, indiceCorrecao.value, indices, hoje, |base|))
  {
    var parcelasExcel := CalcularPriceComExcel(valorImovel, entrada, taxaJuros, quantidadeParcelas,
      dataContrato, dataPrimeiraParcela, ehTaxaAnual, twelfthRoot);
    PriceDueDatesValid(valorImovel - entrada, PriceMonthlyRate(taxaJuros, ehTaxaAnual, twelfthRoot),
      quantidadeParcelas, dataPrimeiraParcela);
    parcelas := Corrigir(parcelasExcel, indiceCorrecao, indices, hoje);
  }

  /** `calcularMQJS`: the same procedure over the MQJS schedule. */
  method CalcularMqjs(
    valorImovel: real, entrada: real, taxaJuros: real, quantidadeParcelas: nat,
    dataContrato: string, dataPrimeiraParcela: Date, ehTaxaAnual: bool,
    indiceCorrecao: Option<IndexType>, indices: IndexStore, hoje: Instant)
    returns (parcelas: seq<CorrectedInstallment>)
    requires taxaJuros > 0.0 && ValidDate(dataPrimeiraParcela) && ValidStore(indices)
    ensures var base := MqjsSchedule.MqjsSchedule(valorImovel - entrada, MqjsMonthlyRate(taxaJuros, ehTaxaAnual),
      quantidadeParcelas, dataPrimeiraParcela);
      && ValidDueDates(base)
      && (indiceCorrecao.None? ==> parcelas == SemCorrecao(base))
      && (indiceCorrecao.Some? ==> parcelas == CorrectedRows(base, indiceCorrecao.value, indices, hoje, |base|))
  {
    var parcelasMqjs := CalcularMqjsComExcel(valorImovel, entrada, taxaJuros, quantidadeParcelas,
      dataContrato, dataPrimeiraParcela, ehTaxaAnual);
    MqjsDueDatesValid(valorImovel - entrada, MqjsMonthlyRate(taxaJuros, ehTaxaAnual),
      quantidadeParcelas, dataPrimeiraParcela);
    parcelas := Corrigir(parcelasMqjs, indiceCorrecao, indices, hoje);
  }

  /** One line of the comparison of paid instalments. */
  datatype Comparacao = Comparacao(
    numero: int,
    dataVencimento: Date,
    parcelaPrice: real,
    parcelaMQJS: real,
    diferencaParcela: real,
    percentualDiferenca: real)

  /**
   * `p.valorParcelaCorrigida || p.valor`: the corrected payment when there is
   * one and it is not zero (JavaScript's falsy 0), the original payment otherwise.
   */
  function ValorAtualizado(p: CorrectedInstallment): (v: real)
    ensures p.correcao.Some? && p.correcao.value.valorParcelaCorrigida != 0.0
      ==> v == p.correcao.value.valorParcelaCorrigida
    ensures p.correcao.None? || p.correcao.value.valorParcelaCorrigida == 0.0 ==> v == p.base.valor
  {
    if p.correcao.Some? && p.correcao.value.valorParcelaCorrigida != 0.0 then p.correcao.value.valorParcelaCorrigida
    else p.base.valor
  }

  /**
   * `Math.min(quantidadeParcelasPagas || parcelasPrice.length, parcelasPrice.length)`:
   * a paid count of 0 means every Price row.
   */
  function LinhasExibidas(quantidadeParcelasPagas: int, totalPrice: nat): (n: int)
    ensures n <= totalPrice
    ensures quantidadeParcelasPagas == 0 ==> n == totalPrice
    ensures quantidadeParcelasPagas != 0 ==> n == quantidadeParcelasPagas || n == totalPrice
    ensures quantidadeParcelasPagas != 0 ==> n <= quantidadeParcelasPagas
  {
    var pedidas := if quantidadeParcelasPagas != 0 then quantidadeParcelasPagas else totalPrice;
    if pedidas < totalPrice then pedidas else totalPrice
  }

  /** The comparison of one Price row with the MQJS row of the same position. */
  function CompararParcela(price: CorrectedInstallment, mqjs: CorrectedInstallment): Comparacao
  {
    var a := ValorAtualizado(price);
    var b := ValorAtualizado(mqjs);
    var diferenca := a - b;
    Comparacao(price.base.numero, price.base.dataVencimento, a, b, diferenca,
      if b > 0.0 then (diferenca / b) * 100.0 else 0.0)
  }

  /**
   * The difference is Price minus MQJS, and the percentage is that difference
   * relative to the MQJS payment: the MQJS payment grown by the percentage is
   * the Price payment. Without a positive MQJS payment the percentage is 0.
   * Number and date come from the Price row.
   */
  lemma ComparisonMeaning(price: CorrectedInstallment, mqjs: CorrectedInstallment)
    ensures var c := CompararParcela(price, mqjs);
      && c.numero == price.base.numero && c.dataVencimento == price.base.dataVencimento
      && c.parcelaPrice == ValorAtualizado(price) && c.parcelaMQJS == ValorAtualizado(mqjs)
      && c.parcelaPrice == c.parcelaMQJS + c.diferencaParcela
      && (c.parcelaMQJS > 0.0 ==> c.parcelaMQJS * (1.0 + c.percentualDiferenca / 100.0) == c.parcelaPrice)
      && (c.parcelaMQJS <= 0.0 ==> c.percentualDiferenca == 0.0)
  {
    var c := CompararParcela(price, mqjs);
    if c.parcelaMQJS > 0.0 {
      PercentOfDifference(c.parcelaPrice, c.parcelaMQJS);
    }
  }

  lemma PercentOfDifference(a: real, b: real)
    requires b > 0.0
    ensures b * (1.0 + ((a - b) / b * 100.0) / 100.0) == a
  {
    assert ((a - b) / b * 100.0) / 100.0 == (a - b) / b;
    assert b * ((a - b) / b) == a - b;
  }

  /** The comparisons of the first k rows of both schedules, in order. */
  function Comparacoes(price: seq<CorrectedInstallment>, mqjs: seq<CorrectedInstallment>, k: nat)
    : (s: seq<Comparacao>)
    requires k <= |price| && k <= |mqjs|
    ensures |s| == k
    ensures forall i :: 0 <= i < k ==> s[i] == CompararParcela(price[i], mqjs[i])
  {
    seq(k, i requires 0 <= i < k => CompararParcela(price[i], mqjs[i]))
  }

  /**
   * `calcularDiferencaParcelasPagas` as written: row i reads `parcelasMQJS[i]`
   * whatever the MQJS length, so when fewer MQJS rows than rows to compare are
   * given, reading a field of the missing row throws; the error is the index
   * of the first missing row.
   */
  function DiferencaParcelasPagas(price: seq<CorrectedInstallment>, mqjs: seq<CorrectedInstallment>,
    quantidadeParcelasPagas: int): (r: Result<seq<Comparacao>, nat>)
    ensures r.Failure? <==> |mqjs| < LinhasExibidas(quantidadeParcelasPagas, |price|)
    ensures r.Failure? ==> r.error == |mqjs|
    ensures r.Success? ==> |r.value| == if LinhasExibidas(quantidadeParcelasPagas, |price|) < 0 then 0
      else LinhasExibidas(quantidadeParcelasPagas, |price|)
  {
    var n := LinhasExibidas(quantidadeParcelasPagas, |price|);
    if n <= 0 then Success([])
    else if |mqjs| < n then Failure(|mqjs|)
    else Success(Comparacoes(price, mqjs, n))
  }

  /** The loop of `calcularDiferencaParcelasPagas` (server/calculadora.ts:266-291). */
  method CalcularDiferencaParcelasPagas(price: seq<CorrectedInstallment>, mqjs: seq<CorrectedInstallment>,
    quantidadeParcelasPagas: int)
    returns (r: Result<seq<Comparacao>, nat>)
    ensures r == DiferencaParcelasPagas(price, mqjs, quantidadeParcelasPagas)
  {
    var comparacoes: seq<Comparacao> := [];
    var parcelasExibidas := LinhasExibidas(quantidadeParcelasPagas, |price|);
    var i := 0;
    while i < parcelasExibidas
      invariant 0 <= i <= |mqjs| + 1
      invariant i <= parcelasExibidas || (i == 0 && parcelasExibidas <= 0)
      invariant i <= |mqjs| && comparacoes == Comparacoes(price, mqjs, i)
    {
      if i >= |mqjs| {
        return Failure(i);
      }
      comparacoes := comparacoes + [CompararParcela(price[i], mqjs[i])];
      i := i + 1;
    }
    return Success(comparacoes);
  }

  /** A Price schedule longer than the MQJS one given makes the comparison throw. */
  lemma ShorterMqjsThrows(p: CorrectedInstallment)
    ensures DiferencaParcelasPagas([p, p], [p], 0) == Failure(1)
  {
  }

  /**
   * The comparison with the row count clamped to both schedules, as
   * TabelaComparativa.tsx does by skipping positions without a row: it never
   * fails, covers min(rows to compare, MQJS rows), and agrees with the
   * comparison as written whenever that one succeeds.
   */
  function DiferencaParcelasPagasLimitada(price: seq<CorrectedInstallment>, mqjs: seq<CorrectedInstallment>,
    quantidadeParcelasPagas: int): (r: seq<Comparacao>)
    ensures var n := LinhasExibidas(quantidadeParcelasPagas, |price|);
      |r| == (if n < 0 then 0 else if n < |mqjs| then n else |mqjs|)
    ensures |r| <= |price| && |r| <= |mqjs|
    ensures forall i :: 0 <= i < |r| ==> r[i] == CompararParcela(price[i], mqjs[i])
    ensures DiferencaParcelasPagas(price, mqjs, quantidadeParcelasPagas).Success?
      ==> r == DiferencaParcelasPagas(price, mqjs, quantidadeParcelasPagas).value
  {
    var n := LinhasExibidas(quantidadeParcelasPagas, |price|);
    var k := if n < 0 then 0 else if n < |mqjs| then n else |mqjs|;
    Comparacoes(price, mqjs, k)
  }

  /** With schedules of the same length (as both calculations produce), the comparison never throws. */
  lemma SameLengthNeverThrows(price: seq<CorrectedInstallment>, mqjs: seq<CorrectedInstallment>,
    quantidadeParcelasPagas: int)
    requires |price| == |mqjs|
    ensures DiferencaParcelasPagas(price, mqjs, quantidadeParcelasPagas).Success?
  {
  }
}
