/**
 * The monetary correction of server/calculadora.ts, applied in the same way
 * to the Price and the MQJS schedule. Walking the schedule in order, every
 * instalment whose due date has passed looks up the accumulated index at the
 * end of its due month and at the end of the month before. When both are
 * found, the month's variation `fim / inicio - 1` is ADDED to a running
 * percentage (it is not compounded), and the corrected payment, interest and
 * amortisation are derived from that running percentage.
 */
module Correction {
  import opened Wrappers
  import opened Money
  import opened Dates
  import opened Schedule

  /** The two correction indices offered. */
  datatype IndexType = INCC | IPCA

  /**
   * The daily index table: the accumulated index number of an index on a
   * date. A missing key is a lookup that finds nothing. The table is read with
   * the date written as `IndexDateKey`, which for four-digit years is the ISO
   * date (`LookupKeysAreIso`), so it is keyed here by the date itself.
   */
  type IndexStore = map<(IndexType, Date), real>

  /** Accumulated index numbers are positive, so the ratio of two of them is defined. */
  predicate ValidStore(store: IndexStore) {
    forall k :: k in store ==> store[k] > 0.0
  }

  /** The fields set on an instalment that received a correction. */
  datatype Correction = Correction(
    indiceAcumulado: real,
    percentualCorrecao: real,
    valorCorrecao: real,
    valorParcelaCorrigida: real,
    valorJurosCorrigido: real,
    valorAmortizacaoCorrigida: real)

  /** `ParcelaComCorrecao`: the six base fields and the optional correction fields. */
  datatype CorrectedInstallment = CorrectedInstallment(
    base: Installment,
    indiceCorrecao: Option<IndexType>,
    estaVencida: Option<bool>,
    correcao: Option<Correction>)

  /** Every due date of the schedule is a calendar date. */
  predicate ValidDueDates(parcelas: seq<Installment>) {
    forall i :: 0 <= i < |parcelas| ==> ValidDate(parcelas[i].dataVencimento)
  }

  /** The date whose index closes the due month: its last day (leap years included). */
  function EndOfDueMonth(due: Date): Date
    requires ValidDate(due)
  {
    LastDayOfMonth(due.year, due.month)
  }

  /** The date whose index opens the due month: the last day of the month before. */
  function EndOfPreviousMonth(due: Date): Date
    requires ValidDate(due)
  {
    var (ano, mes) := PreviousMonth(due.year, due.month);
    LastDayOfMonth(ano, mes)
  }

  /**
   * The two dates looked up are calendar dates: the last day of the due month
   * (no later day of that month exists) and the last day of the month before it.
   */
  lemma MonthEnds(due: Date)
    requires ValidDate(due)
    ensures ValidDate(EndOfDueMonth(due)) && ValidDate(EndOfPreviousMonth(due))
    ensures EndOfDueMonth(due).year == due.year && EndOfDueMonth(due).month == due.month
    ensures forall day :: ValidDate(Date(due.year, due.month, day)) ==> day <= EndOfDueMonth(due).day
    ensures MonthIndex(EndOfPreviousMonth(due)) + 1 == MonthIndex(due)
    ensures forall day ::
      (ValidDate(Date(EndOfPreviousMonth(due).year, EndOfPreviousMonth(due).month, day))
       ==> day <= EndOfPreviousMonth(due).day)
  {
    var (ano, mes) := PreviousMonth(due.year, due.month);
    LastDayOfMonthIsLast(due.year, due.month);
    LastDayOfMonthIsLast(ano, mes);
  }

  /** A January due date opens on 31 December of the year before; any other month, in the same year. */
  lemma EndOfPreviousMonthWraps(due: Date)
    requires ValidDate(due)
    ensures due.month == 1 ==> EndOfPreviousMonth(due) == Date(due.year - 1, 12, 31)
    ensures due.month > 1 ==> EndOfPreviousMonth(due).year == due.year && EndOfPreviousMonth(due).month == due.month - 1
  {
  }

  /** For a four-digit year both lookup keys are zero-padded `YYYY-MM-DD` strings. */
  lemma LookupKeysAreIso(due: Date)
    requires ValidDate(due) && 1001 <= due.year <= 9999
    ensures IndexDateKey(EndOfDueMonth(due)) == IsoDate(EndOfDueMonth(due))
    ensures IndexDateKey(EndOfPreviousMonth(due)) == IsoDate(EndOfPreviousMonth(due))
  {
    MonthEnds(due);
    IndexKeyIsIso(EndOfDueMonth(due));
    IndexKeyIsIso(EndOfPreviousMonth(due));
  }

  /**
   * The month a matured instalment contributes: the closing index and the
   * variation `fim / inicio - 1`; None when the instalment has not matured or
   * either lookup finds nothing.
   */
  function MonthlyVariation(parcela: Installment, indice: IndexType, store: IndexStore, hoje: Instant)
    : (r: Option<(real, real)>)
    requires ValidStore(store) && ValidDate(parcela.dataVencimento)
    ensures r.Some? <==> (Matured(parcela.dataVencimento, hoje)
      && (indice, EndOfDueMonth(parcela.dataVencimento)) in store
      && (indice, EndOfPreviousMonth(parcela.dataVencimento)) in store)
  {
    var chaveFim := (indice, EndOfDueMonth(parcela.dataVencimento));
    var chaveInicio := (indice, EndOfPreviousMonth(parcela.dataVencimento));
    if Matured(parcela.dataVencimento, hoje) && chaveFim in store && chaveInicio in store then
      Some((store[chaveFim], store[chaveFim] / store[chaveInicio] - 1.0))
    else
      None
  }

  /** What an instalment adds to the running percentage: its variation, or nothing. */
  function Contribution(parcela: Installment, indice: IndexType, store: IndexStore, hoje: Instant): real
    requires ValidStore(store) && ValidDate(parcela.dataVencimento)
  {
    match MonthlyVariation(parcela, indice, store, hoje)
    case Some(v) => v.1
    case None => 0.0
  }

  /**
   * `percentualAcumulado` after the first k instalments: the sum of their
   * contributions. The recursion is in `AccumulatedRec`.
   */
  function Accumulated(parcelas: seq<Installment>, indice: IndexType, store: IndexStore, hoje: Instant, k: nat): real
    requires ValidStore(store) && ValidDueDates(parcelas) && k <= |parcelas|
  {
    AccumulatedRec(parcelas, indice, store, hoje, k)
  }

  function AccumulatedRec(parcelas: seq<Installment>, indice: IndexType, store: IndexStore, hoje: Instant, k: nat): real
    requires ValidStore(store) && ValidDueDates(parcelas) && k <= |parcelas|
  {
    if k == 0 then 0.0
    else AccumulatedRec(parcelas, indice, store, hoje, k - 1) + Contribution(parcelas[k - 1], indice, store, hoje)
  }

  /** `Math.round(acc * 10000) / 100`: the running percentage as a percent with two decimals. */
  function PercentWithTwoDecimals(acc: real): (p: real)
    ensures p == Cents(acc * 100.0)
  {
    assert acc * 10000.0 == (acc * 100.0) * 100.0;
    Round(acc * 10000.0) as real / 100.0
  }

  /**
   * The correction fields of an instalment (server/calculadora.ts:121-129), from
   * the closing index and the running percentage; every `Math.round(x * 100) / 100`
   * is `Cents(x)` and `Math.round(acc * 10000) / 100` is `PercentWithTwoDecimals`.
   */
  function CorrectionOf(parcela: Installment, fim: real, acc: real): Correction
  {
    Correction(
      fim,
      acc,
      PercentWithTwoDecimals(acc),
      Cents(parcela.valor + Cents(parcela.valor * acc)),
      Cents(parcela.juros * (1.0 + acc)),
      Cents(parcela.amortizacao * (1.0 + acc)))
  }

  /** The emitted row for one instalment, given the running percentage after it. */
  function CorrectedRow(parcela: Installment, indice: IndexType, store: IndexStore, hoje: Instant, acc: real)
    : CorrectedInstallment
    requires ValidStore(store) && ValidDate(parcela.dataVencimento)
  {
    CorrectedInstallment(parcela, Some(indice), Some(Matured(parcela.dataVencimento, hoje)),
      match MonthlyVariation(parcela, indice, store, hoje)
      case Some(v) => Some(CorrectionOf(parcela, v.0, acc))
      case None => None)
  }

  /** The first k emitted rows. The recursion is in `CorrectedRowsRec`. */
  function CorrectedRows(parcelas: seq<Installment>, indice: IndexType, store: IndexStore, hoje: Instant, k: nat)
    : (s: seq<CorrectedInstallment>)
    requires ValidStore(store) && ValidDueDates(parcelas) && k <= |parcelas|
    ensures |s| == k
  {
    CorrectedRowsRec(parcelas, indice, store, hoje, k)
  }

  function CorrectedRowsRec(parcelas: seq<Installment>, indice: IndexType, store: IndexStore, hoje: Instant, k: nat)
    : (s: seq<CorrectedInstallment>)
    requires ValidStore(store) && ValidDueDates(parcelas) && k <= |parcelas|
    ensures |s| == k
  {
    if k == 0 then
      []
    else
      CorrectedRowsRec(parcelas, indice, store, hoje, k - 1)
        + [CorrectedRow(parcelas[k - 1], indice, store, hoje, AccumulatedRec(parcelas, indice, store, hoje, k))]
  }

  /** The running percentage after instalment k1 (0-based): the one before it plus its contribution. */
  lemma AccumulatedNext(parcelas: seq<Installment>, indice: IndexType, store: IndexStore, hoje: Instant, k: nat, k1: nat)
    requires ValidStore(store) && ValidDueDates(parcelas) && k == k1 + 1 && k <= |parcelas|
    ensures Accumulated(parcelas, indice, store, hoje, k)
      == Accumulated(parcelas, indice, store, hoje, k1) + Contribution(parcelas[k1], indice, store, hoje)
  {
  }

  /** The rows up to instalment k1 (0-based): the ones before it and its own. */
  lemma CorrectedRowsNext(parcelas: seq<Installment>, indice: IndexType, store: IndexStore, hoje: Instant, k: nat, k1: nat)
    requires ValidStore(store) && ValidDueDates(parcelas) && k == k1 + 1 && k <= |parcelas|
    ensures CorrectedRows(parcelas, indice, store, hoje, k) == CorrectedRows(parcelas, indice, store, hoje, k1)
      + [CorrectedRow(parcelas[k1], indice, store, hoje, Accumulated(parcelas, indice, store, hoje, k))]
  {
    assert CorrectedRowsRec(parcelas, indice, store, hoje, k) == CorrectedRowsRec(parcelas, indice, store, hoje, k1)
      + [CorrectedRow(parcelas[k1], indice, store, hoje, AccumulatedRec(parcelas, indice, store, hoje, k))];
  }

  /** Row j of the corrected schedule is the correction of instalment j with the running percentage after it. */
  lemma {:induction false} CorrectedRowsAt(parcelas: seq<Installment>, indice: IndexType, store: IndexStore,
    hoje: Instant, k: nat, j: nat)
    requires ValidStore(store) && ValidDueDates(parcelas) && j < k <= |parcelas|
    ensures CorrectedRows(parcelas, indice, store, hoje, k)[j]
      == CorrectedRow(parcelas[j], indice, store, hoje, Accumulated(parcelas, indice, store, hoje, j + 1))
  {
    CorrectedRowsNext(parcelas, indice, store, hoje, k, k - 1);
    if j < k - 1 {
      CorrectedRowsAt(parcelas, indice, store, hoje, k - 1, j);
    }
  }

  /** One pass of the correction loop: the row emitted for instalment i and the new running percentage. */
  lemma CorrectionStep(parcelas: seq<Installment>, indice: IndexType, store: IndexStore, hoje: Instant, i: nat,
    acc: real, linhas: seq<CorrectedInstallment>, novoAcc: real, linha: CorrectedInstallment)
    requires ValidStore(store) && ValidDueDates(parcelas) && i < |parcelas|
    requires acc == Accumulated(parcelas, indice, store, hoje, i)
    requires linhas == CorrectedRows(parcelas, indice, store, hoje, i)
    requires novoAcc == acc + Contribution(parcelas[i], indice, store, hoje)
    requires linha == CorrectedRow(parcelas[i], indice, store, hoje, novoAcc)
    ensures novoAcc == Accumulated(parcelas, indice, store, hoje, i + 1)
    ensures linhas + [linha] == CorrectedRows(parcelas, indice, store, hoje, i + 1)
  {
    AccumulatedNext(parcelas, indice, store, hoje, i + 1, i);
    CorrectedRowsNext(parcelas, indice, store, hoje, i + 1, i);
  }

  /** The dates the loop builds for the due month and the month before are the two month ends. */
  lemma LoopMonthEnds(due: Date, mesAnterior: int, anoAnterior: int)
    requires ValidDate(due)
    requires (due.month - 1 == 0 ==> mesAnterior == 12 && anoAnterior == due.year - 1)
    requires (due.month - 1 != 0 ==> mesAnterior == due.month - 1 && anoAnterior == due.year)
    ensures 1 <= mesAnterior <= 12
    ensures Date(due.year, due.month, DaysInMonth(due.year, due.month)) == EndOfDueMonth(due)
    ensures Date(anoAnterior, mesAnterior, DaysInMonth(anoAnterior, mesAnterior)) == EndOfPreviousMonth(due)
  {
  }

  /**
   * The body of the correction loop for one instalment (server/calculadora.ts:72-133):
   * the row it emits and the running percentage after it. `hoje` is the
   * current instant and `indices` the table `getDailyIndex` reads.
   */
  method CorrigirParcela(parcela: Installment, indiceCorrecao: IndexType, indices: IndexStore, hoje: Instant,
    percentualAcumulado: real)
    returns (parcelaCorrigida: CorrectedInstallment, novoPercentual: real)
    requires ValidStore(indices) && ValidDate(parcela.dataVencimento)
    ensures novoPercentual == percentualAcumulado + Contribution(parcela, indiceCorrecao, indices, hoje)
    ensures parcelaCorrigida == CorrectedRow(parcela, indiceCorrecao, indices, hoje, novoPercentual)
  {
    var estaVencida := InstantBefore(Midnight(parcela.dataVencimento), hoje);
    parcelaCorrigida := CorrectedInstallment(parcela, Some(indiceCorrecao), Some(estaVencida), None);
    novoPercentual := percentualAcumulado;
    if estaVencida {
      var anoVenc, mesVenc := parcela.dataVencimento.year, parcela.dataVencimento.month;
      var dataUltimoDiaMesFim := Date(anoVenc, mesVenc, DaysInMonth(anoVenc, mesVenc));
      var mesAnterior := mesVenc - 1;
      var anoAnterior := anoVenc;
      if mesAnterior == 0 {
        mesAnterior := 12;
        anoAnterior := anoVenc - 1;
      }
      LoopMonthEnds(parcela.dataVencimento, mesAnterior, anoAnterior);
      var dataUltimoDiaMesAnterior := Date(anoAnterior, mesAnterior, DaysInMonth(anoAnterior, mesAnterior));
      var chaveFim := (indiceCorrecao, dataUltimoDiaMesFim);
      var chaveInicio := (indiceCorrecao, dataUltimoDiaMesAnterior);
      if chaveFim in indices && chaveInicio in indices {
        var acumuladoFim := indices[chaveFim];
        var acumuladoInicio := indices[chaveInicio];
        var percentualMensal := (acumuladoFim / acumuladoInicio) - 1.0;
        novoPercentual := percentualAcumulado + percentualMensal;
        parcelaCorrigida := parcelaCorrigida.(correcao := Some(CorrectionOf(parcela, acumuladoFim, novoPercentual)));
      }
    }
  }

  /**
   * The correction loop of `calcularPrice` (server/calculadora.ts:66-137) and,
   * identically, of `calcularMQJS`: every instalment in order, with the
   * running percentage carried from one to the next.
   */
  method AplicarCorrecao(parcelas: seq<Installment>, indiceCorrecao: IndexType, indices: IndexStore, hoje: Instant)
    returns (parcelasComCorrecao: seq<CorrectedInstallment>)
    requires ValidStore(indices) && ValidDueDates(parcelas)
    ensures parcelasComCorrecao == CorrectedRows(parcelas, indiceCorrecao, indices, hoje, |parcelas|)
  {
    var percentualAcumulado := 0.0;
    parcelasComCorrecao := [];
    var i := 0;
    while i < |parcelas|
      invariant 0 <= i <= |parcelas|
      invariant percentualAcumulado == Accumulated(parcelas, indiceCorrecao, indices, hoje, i)
      invariant parcelasComCorrecao == CorrectedRows(parcelas, indiceCorrecao, indices, hoje, i)
    {
      var parcelaCorrigida, novoPercentual := CorrigirParcela(parcelas[i], indiceCorrecao, indices, hoje,
        percentualAcumulado);
      CorrectionStep(parcelas, indiceCorrecao, indices, hoje, i, percentualAcumulado, parcelasComCorrecao,
        novoPercentual, parcelaCorrigida);
      percentualAcumulado := novoPercentual;
      parcelasComCorrecao := parcelasComCorrecao + [parcelaCorrigida];
      i := i + 1;
    }
  }

  /**
   * The correction keeps the schedule: same length and order, the six base
   * fields copied, and every row tagged with the index and whether it matured.
   */
  lemma CorrectionKeepsSchedule(parcelas: seq<Installment>, indice: IndexType, store: IndexStore, hoje: Instant, j: nat)
    requires ValidStore(store) && ValidDueDates(parcelas) && j < |parcelas|
    ensures |CorrectedRows(parcelas, indice, store, hoje, |parcelas|)| == |parcelas|
    ensures CorrectedRows(parcelas, indice, store, hoje, |parcelas|)[j].base == parcelas[j]
    ensures CorrectedRows(parcelas, indice, store, hoje, |parcelas|)[j].indiceCorrecao == Some(indice)
    ensures CorrectedRows(parcelas, indice, store, hoje, |parcelas|)[j].estaVencida
      == Some(Matured(parcelas[j].dataVencimento, hoje))
  {
    CorrectedRowsAt(parcelas, indice, store, hoje, |parcelas|, j);
  }

  /**
   * A row carries correction fields exactly when it matured and both month-end
   * lookups found a value; then the closing index is the one at the end of the
   * due month and the percentage is the running one.
   */
  lemma CorrectionFieldsIff(parcelas: seq<Installment>, indice: IndexType, store: IndexStore, hoje: Instant, j: nat)
    requires ValidStore(store) && ValidDueDates(parcelas) && j < |parcelas|
    ensures var r := CorrectedRows(parcelas, indice, store, hoje, |parcelas|)[j];
      var due := parcelas[j].dataVencimento;
      var chaveFim := (indice, EndOfDueMonth(due));
      var chaveInicio := (indice, EndOfPreviousMonth(due));
      (r.correcao.Some? <==> Matured(due, hoje) && chaveFim in store && chaveInicio in store)
      && (r.correcao.Some? ==> (r.correcao.value.indiceAcumulado == store[chaveFim]
        && r.correcao.value.percentualCorrecao == Accumulated(parcelas, indice, store, hoje, j + 1)))
  {
    CorrectedRowsAt(parcelas, indice, store, hoje, |parcelas|, j);
  }

  /**
   * The running percentage starts at 0 and changes only on a matured
   * instalment whose two lookups succeed; then it grows by `fim / inicio - 1`.
   */
  lemma AccumulatorChangesOnlyOnCorrection(parcelas: seq<Installment>, indice: IndexType, store: IndexStore,
    hoje: Instant, k: nat)
    requires ValidStore(store) && ValidDueDates(parcelas) && 1 <= k <= |parcelas|
    ensures Accumulated(parcelas, indice, store, hoje, 0) == 0.0
    ensures var due := parcelas[k - 1].dataVencimento;
      var chaveFim := (indice, EndOfDueMonth(due));
      var chaveInicio := (indice, EndOfPreviousMonth(due));
      if Matured(due, hoje) && chaveFim in store && chaveInicio in store then
        Accumulated(parcelas, indice, store, hoje, k)
          == Accumulated(parcelas, indice, store, hoje, k - 1) + (store[chaveFim] / store[chaveInicio] - 1.0)
      else
        Accumulated(parcelas, indice, store, hoje, k) == Accumulated(parcelas, indice, store, hoje, k - 1)
  {
    AccumulatedNext(parcelas, indice, store, hoje, k, k - 1);
  }

  /** The index never falls from one month end to the next, on the months these instalments look up. */
  predicate IndexNonDecreasing(parcelas: seq<Installment>, indice: IndexType, store: IndexStore)
    requires ValidDueDates(parcelas)
  {
    forall i :: 0 <= i < |parcelas| ==>
      var chaveFim := (indice, EndOfDueMonth(parcelas[i].dataVencimento));
      var chaveInicio := (indice, EndOfPreviousMonth(parcelas[i].dataVencimento));
      chaveFim in store && chaveInicio in store ==> store[chaveFim] >= store[chaveInicio]
  }

  /** When the index never falls, the running percentage never decreases along the schedule. */
  lemma {:induction false} AccumulatedMonotonic(parcelas: seq<Installment>, indice: IndexType, store: IndexStore,
    hoje: Instant, j: nat, k: nat)
    requires ValidStore(store) && ValidDueDates(parcelas) && IndexNonDecreasing(parcelas, indice, store)
    requires j <= k <= |parcelas|
    ensures 0.0 <= Accumulated(parcelas, indice, store, hoje, j) <= Accumulated(parcelas, indice, store, hoje, k)
  {
    if j < k {
      AccumulatedMonotonic(parcelas, indice, store, hoje, j, k - 1);
      AccumulatedNext(parcelas, indice, store, hoje, k, k - 1);
      ContributionNonNegative(parcelas, indice, store, hoje, k - 1);
    } else if 0 < j {
      AccumulatedMonotonic(parcelas, indice, store, hoje, j - 1, j - 1);
      AccumulatedNext(parcelas, indice, store, hoje, j, j - 1);
      ContributionNonNegative(parcelas, indice, store, hoje, j - 1);
    }
  }

  lemma ContributionNonNegative(parcelas: seq<Installment>, indice: IndexType, store: IndexStore, hoje: Instant, i: nat)
    requires ValidStore(store) && ValidDueDates(parcelas) && IndexNonDecreasing(parcelas, indice, store)
    requires i < |parcelas|
    ensures Contribution(parcelas[i], indice, store, hoje) >= 0.0
  {
    var due := parcelas[i].dataVencimento;
    var chaveFim := (indice, EndOfDueMonth(due));
    var chaveInicio := (indice, EndOfPreviousMonth(due));
    if MonthlyVariation(parcelas[i], indice, store, hoje).Some? {
      RatioAtLeastOne(store[chaveFim], store[chaveInicio]);
    }
  }

  lemma RatioAtLeastOne(fim: real, inicio: real)
    requires inicio > 0.0 && fim >= inicio
    ensures fim / inicio - 1.0 >= 0.0
  {
    assert fim / inicio >= inicio / inicio;
  }

  /**
   * The corrected payment is the payment grown by the running percentage, to
   * within a cent: two roundings of at most half a cent each.
   */
  lemma CorrectedPaymentWithinACent(parcela: Installment, fim: real, acc: real)
    ensures var c := CorrectionOf(parcela, fim, acc).valorParcelaCorrigida;
      -0.01 < c - parcela.valor * (1.0 + acc) <= 0.01
  {
    assert parcela.valor * (1.0 + acc) == parcela.valor + parcela.valor * acc;
  }

  /**
   * With a zero running percentage a correction changes nothing: the
   * corrected fields of an instalment in whole cents are the original ones.
   */
  lemma ZeroCorrectionIsIdentity(parcela: Installment, fim: real)
    requires IsWholeCents(parcela.valor) && IsWholeCents(parcela.juros) && IsWholeCents(parcela.amortizacao)
    ensures CorrectionOf(parcela, fim, 0.0).valorParcelaCorrigida == parcela.valor
    ensures CorrectionOf(parcela, fim, 0.0).valorJurosCorrigido == parcela.juros
    ensures CorrectionOf(parcela, fim, 0.0).valorAmortizacaoCorrigida == parcela.amortizacao
    ensures CorrectionOf(parcela, fim, 0.0).valorCorrecao == 0.0
  {
    WholeCentsFixed(parcela.valor);
    WholeCentsFixed(parcela.juros);
    WholeCentsFixed(parcela.amortizacao);
    assert Cents(0.0) == 0.0;
    assert parcela.valor + Cents(parcela.valor * 0.0) == parcela.valor;
  }

  /** Rounding to cents leaves an amount already in whole cents unchanged. */
  lemma WholeCentsFixed(x: real)
    requires IsWholeCents(x)
    ensures Cents(x) == x
  {
    var k := (x * 100.0).Floor;
    assert Round(x * 100.0) == k;
  }

  /** Without an index the schedule is passed through: the six base fields and nothing else. */
  function SemCorrecao(parcelas: seq<Installment>): (r: seq<CorrectedInstallment>)
    ensures |r| == |parcelas|
    ensures forall i :: 0 <= i < |r| ==>
      r[i].base == parcelas[i] && r[i].indiceCorrecao.None? && r[i].estaVencida.None? && r[i].correcao.None?
  {
    seq(|parcelas|, i requires 0 <= i < |parcelas| => CorrectedInstallment(parcelas[i], None, None, None))
  }

  /** `calcularPrice` and `calcularMQJS` after the schedule: correct it when an index is chosen. */
  method Corrigir(parcelas: seq<Installment>, indiceCorrecao: Option<IndexType>, indices: IndexStore, hoje: Instant)
    returns (r: seq<CorrectedInstallment>)
    requires ValidStore(indices) && ValidDueDates(parcelas)
    ensures indiceCorrecao.None? ==> r == SemCorrecao(parcelas)
    ensures indiceCorrecao.Some? ==> r == CorrectedRows(parcelas, indiceCorrecao.value, indices, hoje, |parcelas|)
  {
    if indiceCorrecao.None? {
      return SemCorrecao(parcelas);
    }
    r := AplicarCorrecao(parcelas, indiceCorrecao.value, indices, hoje);
  }
}
