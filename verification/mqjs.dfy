/**
 * The MQJS schedule of server/mqjs-calculator.ts ("método de juros simples"):
 * every instalment is discounted at simple interest, the payment is the
 * financed amount divided by the sum of those discount factors, and each row
 * amortises its own discount factor times the payment. The monthly rate is
 * capped at 1%. As in the Price schedule, the balance carried from row to row
 * is the unrounded one and only the emitted fields are rounded to cents.
 */
module MqjsSchedule {
  import opened Money
  import opened Dates
  import opened Schedule

  /** The largest monthly rate the method admits: 1% a month. */
  const TetoTaxaMensal: real := 0.01

  /** The rate before the cap: an annual rate divided by 12, a monthly rate as given. */
  function MqjsUncappedRate(taxaJuros: real, ehTaxaAnual: bool): real
  {
    if ehTaxaAnual then taxaJuros / 12.0 else taxaJuros
  }

  /**
   * The monthly rate actually used: the smaller of the converted rate and the
   * cap, so the cap only ever lowers it and a rate within the cap is kept.
   */
  function MqjsMonthlyRate(taxaJuros: real, ehTaxaAnual: bool): (r: real)
    ensures r <= TetoTaxaMensal && r <= MqjsUncappedRate(taxaJuros, ehTaxaAnual)
    ensures r == TetoTaxaMensal || r == MqjsUncappedRate(taxaJuros, ehTaxaAnual)
    ensures taxaJuros > 0.0 ==> r > 0.0
  {
    var taxaMensal := MqjsUncappedRate(taxaJuros, ehTaxaAnual);
    if taxaMensal > TetoTaxaMensal then TetoTaxaMensal else taxaMensal
  }

  /** A monthly rate within the cap reaches the schedule unchanged; an annual one within 12% becomes a twelfth. */
  lemma MqjsRateWithinCap(taxaJuros: real, ehTaxaAnual: bool)
    ensures !ehTaxaAnual && taxaJuros <= TetoTaxaMensal ==> MqjsMonthlyRate(taxaJuros, ehTaxaAnual) == taxaJuros
    ensures ehTaxaAnual && taxaJuros <= 0.12 ==> MqjsMonthlyRate(taxaJuros, ehTaxaAnual) == taxaJuros / 12.0
    ensures ehTaxaAnual && taxaJuros > 0.12 ==> MqjsMonthlyRate(taxaJuros, ehTaxaAnual) == TetoTaxaMensal
    ensures !ehTaxaAnual && taxaJuros > TetoTaxaMensal ==> MqjsMonthlyRate(taxaJuros, ehTaxaAnual) == TetoTaxaMensal
  {
  }

  /** A higher contracted rate never gives a lower MQJS rate. */
  lemma MqjsRateMonotonic(a: real, b: real, ehTaxaAnual: bool)
    requires a <= b
    ensures MqjsMonthlyRate(a, ehTaxaAnual) <= MqjsMonthlyRate(b, ehTaxaAnual)
  {
  }

  /**
   * The discount factor ("fator de valor atual") of instalment i: the amount
   * that grows to 1 over i months of simple interest.
   */
  function Fva(taxa: real, i: nat): (f: real)
    requires taxa >= 0.0
    ensures 0.0 < f <= 1.0
    ensures taxa > 0.0 && i >= 1 ==> f < 1.0
  {
    1.0 / (1.0 + taxa * i as real)
  }

  /** The factor grows back to 1 over i months of simple interest at `taxa`. */
  lemma FvaGrowsToOne(taxa: real, i: nat)
    requires taxa >= 0.0
    ensures Fva(taxa, i) * (1.0 + taxa * i as real) == 1.0
  {
  }

  /** At a positive rate a later instalment is discounted more. */
  lemma FvaDecreasing(taxa: real, i: nat, j: nat)
    requires taxa > 0.0 && i < j
    ensures Fva(taxa, i) > Fva(taxa, j)
  {
    var di, dj := 1.0 + taxa * i as real, 1.0 + taxa * j as real;
    assert di < dj by {
      assert taxa * j as real - taxa * i as real == taxa * (j - i) as real;
    }
    FvaGrowsToOne(taxa, i);
    FvaGrowsToOne(taxa, j);
    ReciprocalDecreasing(di, dj, Fva(taxa, i), Fva(taxa, j));
  }

  /** 1/x > 1/y for 0 < x < y, stated on the two products. */
  lemma ReciprocalDecreasing(x: real, y: real, fx: real, fy: real)
    requires 0.0 < x < y && fx * x == 1.0 && fy * y == 1.0 && fy > 0.0
    ensures fx > fy
  {
    assert fx * x == fy * y;
    assert fy * y > fy * x;
  }

  /** The factors of instalments 1..k, in order: the `fvas` array of the first loop. */
  function Fvas(taxa: real, k: nat): (s: seq<real>)
    requires taxa >= 0.0
    ensures |s| == k
    ensures forall j :: 0 <= j < k ==> s[j] == Fva(taxa, j + 1)
  {
    if k == 0 then [] else Fvas(taxa, k - 1) + [Fva(taxa, k)]
  }

  /** The sum of the factors of instalments 1..k. The recursion is in `FvaSumRec`. */
  function FvaSum(taxa: real, k: nat): real
    requires taxa >= 0.0
  {
    FvaSumRec(taxa, k)
  }

  /** Each factor is in (0, 1], so k factors add up to more than 0 (for k >= 1) and at most k. */
  function FvaSumRec(taxa: real, k: nat): (s: real)
    requires taxa >= 0.0
    ensures 0.0 <= s <= k as real
    ensures k >= 1 ==> s > 0.0
  {
    if k == 0 then 0.0 else FvaSumRec(taxa, k - 1) + Fva(taxa, k)
  }

  /** The running sum of the first loop is the sum of the factors pushed so far. */
  lemma {:induction false} FvaSumIsSumOfFvas(taxa: real, k: nat)
    requires taxa >= 0.0
    ensures FvaSum(taxa, k) == Sum(Fvas(taxa, k))
  {
    if k > 0 {
      FvaSumIsSumOfFvas(taxa, k - 1);
      assert Fvas(taxa, k)[..k - 1] == Fvas(taxa, k - 1);
    }
  }

  lemma FvaSumStep(taxa: real, k: nat)
    requires taxa >= 0.0 && k >= 1
    ensures FvaSum(taxa, k) == FvaSum(taxa, k - 1) + Fva(taxa, k)
  {
  }

  /** The fixed payment: the financed amount over the sum of the n factors. */
  function MqjsPayment(financiado: real, taxa: real, n: nat): real
    requires taxa >= 0.0 && n >= 1
  {
    financiado / FvaSum(taxa, n)
  }

  /**
   * Dividing by `somaFVAs` is undone by multiplying back: the payment times the
   * running total of the factors is the financed amount (the sum of the `fvas`
   * array is that total, `FvaSumIsSumOfFvas`).
   */
  lemma MqjsPaymentRepays(financiado: real, taxa: real, n: nat)
    requires taxa >= 0.0 && n >= 1
    ensures MqjsPayment(financiado, taxa, n) * FvaSum(taxa, n) == financiado
  {
  }

  /** The unrounded amortisation of row i: its factor times the payment. */
  function MqjsAmortization(financiado: real, taxa: real, n: nat, i: nat): real
    requires taxa >= 0.0 && 1 <= i <= n
  {
    Fva(taxa, i) * MqjsPayment(financiado, taxa, n)
  }

  /** The unrounded interest of row i: the rest of the payment. */
  function MqjsInterest(financiado: real, taxa: real, n: nat, i: nat): real
    requires taxa >= 0.0 && 1 <= i <= n
  {
    MqjsPayment(financiado, taxa, n) - MqjsAmortization(financiado, taxa, n, i)
  }

  /** The unrounded balance owed after the first k of n rows. The recursion is in `MqjsBalanceRec`. */
  function MqjsBalance(financiado: real, taxa: real, n: nat, k: nat): real
    requires taxa >= 0.0 && k <= n
  {
    MqjsBalanceRec(financiado, taxa, n, k)
  }

  /** Each row takes its amortisation off the balance. */
  function MqjsBalanceRec(financiado: real, taxa: real, n: nat, k: nat): real
    requires taxa >= 0.0 && k <= n
  {
    if k == 0 then financiado else MqjsBalanceRec(financiado, taxa, n, k - 1) - MqjsAmortization(financiado, taxa, n, k)
  }

  lemma MqjsBalanceStep(financiado: real, taxa: real, n: nat, k: nat)
    requires taxa >= 0.0 && 1 <= k <= n
    ensures MqjsBalance(financiado, taxa, n, k)
      == MqjsBalance(financiado, taxa, n, k - 1) - MqjsAmortization(financiado, taxa, n, k)
  {
  }

  /** Row i (1-based) as emitted: the fields rounded to cents, due i-1 months after the first. */
  function MqjsRow(financiado: real, taxa: real, n: nat, primeira: Date, i: nat): Installment
    requires taxa >= 0.0 && 1 <= i <= n && ValidDate(primeira)
  {
    Installment(i, AddMonths(primeira, i - 1),
      Cents(MqjsInterest(financiado, taxa, n, i)),
      Cents(MqjsAmortization(financiado, taxa, n, i)),
      Cents(MqjsPayment(financiado, taxa, n)),
      Cents(MqjsBalance(financiado, taxa, n, i)))
  }

  /** The first k rows, in order. The recursion is in `MqjsRowsRec`. */
  function MqjsRows(financiado: real, taxa: real, n: nat, primeira: Date, k: nat): (s: seq<Installment>)
    requires taxa >= 0.0 && k <= n && ValidDate(primeira)
    ensures |s| == k
  {
    MqjsRowsRec(financiado, taxa, n, primeira, k)
  }

  function MqjsRowsRec(financiado: real, taxa: real, n: nat, primeira: Date, k: nat): (s: seq<Installment>)
    requires taxa >= 0.0 && k <= n && ValidDate(primeira)
    ensures |s| == k
  {
    if k == 0 then [] else MqjsRowsRec(financiado, taxa, n, primeira, k - 1) + [MqjsRow(financiado, taxa, n, primeira, k)]
  }

  lemma MqjsRowsNext(financiado: real, taxa: real, n: nat, primeira: Date, k: nat)
    requires taxa >= 0.0 && 1 <= k <= n && ValidDate(primeira)
    ensures MqjsRows(financiado, taxa, n, primeira, k)
      == MqjsRows(financiado, taxa, n, primeira, k - 1) + [MqjsRow(financiado, taxa, n, primeira, k)]
  {
  }

  /** Entry j of the first k rows is row j+1. */
  lemma {:induction false} MqjsRowsAt(financiado: real, taxa: real, n: nat, primeira: Date, k: nat, j: nat)
    requires taxa >= 0.0 && k <= n && ValidDate(primeira) && j < k
    ensures MqjsRows(financiado, taxa, n, primeira, k)[j] == MqjsRow(financiado, taxa, n, primeira, j + 1)
  {
    MqjsRowsNext(financiado, taxa, n, primeira, k);
    if j < k - 1 {
      MqjsRowsAt(financiado, taxa, n, primeira, k - 1, j);
    }
  }

  /** The whole schedule: the n rows in order. */
  function MqjsSchedule(financiado: real, taxa: real, n: nat, primeira: Date): (s: seq<Installment>)
    requires taxa >= 0.0 && ValidDate(primeira)
    ensures |s| == n
  {
    MqjsRows(financiado, taxa, n, primeira, n)
  }

  /** n rows numbered 1..n in order, row k+1 due k months after the first. */
  lemma MqjsScheduleShape(financiado: real, taxa: real, n: nat, primeira: Date, k: nat)
    requires taxa >= 0.0 && ValidDate(primeira) && k < n
    ensures MqjsSchedule(financiado, taxa, n, primeira)[k].numero == k + 1
    ensures MqjsSchedule(financiado, taxa, n, primeira)[k].dataVencimento == AddMonths(primeira, k)
  {
    MqjsRowsAt(financiado, taxa, n, primeira, n, k);
  }

  /** One pass of the first loop of `calcularMQJSComExcel`. */
  lemma FvasStep(taxa: real, i: nat, fvas: seq<real>, somaFVAs: real, fva: real)
    requires taxa >= 0.0 && i >= 1
    requires fvas == Fvas(taxa, i - 1) && somaFVAs == FvaSum(taxa, i - 1)
    requires fva == 1.0 / (1.0 + taxa * i as real)
    ensures fvas + [fva] == Fvas(taxa, i)
    ensures somaFVAs + fva == FvaSum(taxa, i)
  {
    FvaSumStep(taxa, i);
  }

  /** One pass of the second loop of `calcularMQJSComExcel`: row i, from the balance carried into it. */
  lemma MqjsRowsStep(financiado: real, taxa: real, n: nat, primeira: Date, i: nat, saldo: real,
    parcelas: seq<Installment>, valorParcela: real, fva: real, amortizacao: real, juros: real, novoSaldo: real)
    requires taxa >= 0.0 && 1 <= i <= n && ValidDate(primeira)
    requires saldo == MqjsBalance(financiado, taxa, n, i - 1)
    requires parcelas == MqjsRows(financiado, taxa, n, primeira, i - 1)
    requires valorParcela == MqjsPayment(financiado, taxa, n)
    requires fva == Fva(taxa, i) && amortizacao == fva * valorParcela && juros == valorParcela - amortizacao
    requires novoSaldo == saldo - amortizacao
    ensures novoSaldo == MqjsBalance(financiado, taxa, n, i)
    ensures parcelas + [Installment(i, AddMonths(primeira, i - 1), Cents(juros), Cents(amortizacao), Cents(valorParcela),
      Cents(novoSaldo))] == MqjsRows(financiado, taxa, n, primeira, i)
  {
    MqjsRowParts(financiado, taxa, n, i, saldo, valorParcela, fva, amortizacao, juros, novoSaldo);
    MqjsRowsNext(financiado, taxa, n, primeira, i);
    assert MqjsRow(financiado, taxa, n, primeira, i)
      == Installment(i, AddMonths(primeira, i - 1), Cents(juros), Cents(amortizacao), Cents(valorParcela), Cents(novoSaldo));
  }

  /**
   * Step 1 of `calcularMQJSComExcel` (its first loop, written inline there):
   * the factors of instalments 1..n in order, and their sum.
   */
  method SomarFvas(taxaMensal: real, quantidadeParcelas: nat) returns (fvas: seq<real>, somaFVAs: real)
    requires taxaMensal >= 0.0
    ensures fvas == Fvas(taxaMensal, quantidadeParcelas)
    ensures somaFVAs == FvaSum(taxaMensal, quantidadeParcelas)
  {
    fvas := [];
    somaFVAs := 0.0;
    var i := 1;
    while i <= quantidadeParcelas
      invariant 1 <= i <= quantidadeParcelas + 1
      invariant fvas == Fvas(taxaMensal, i - 1)
      invariant somaFVAs == FvaSum(taxaMensal, i - 1)
    {
      var fva := 1.0 / (1.0 + taxaMensal * i as real);
      FvasStep(taxaMensal, i, fvas, somaFVAs, fva);
      fvas := fvas + [fva];
      somaFVAs := somaFVAs + fva;
      i := i + 1;
    }
    assert i - 1 == quantidadeParcelas;
  }

  /** The unrounded parts of row i, computed from the balance carried into it. */
  lemma MqjsRowParts(financiado: real, taxa: real, n: nat, i: nat, saldo: real,
    valorParcela: real, fva: real, amortizacao: real, juros: real, novoSaldo: real)
    requires taxa >= 0.0 && 1 <= i <= n
    requires saldo == MqjsBalance(financiado, taxa, n, i - 1)
    requires valorParcela == MqjsPayment(financiado, taxa, n)
    requires fva == Fva(taxa, i) && amortizacao == fva * valorParcela && juros == valorParcela - amortizacao
    requires novoSaldo == saldo - amortizacao
    ensures MqjsAmortization(financiado, taxa, n, i) == amortizacao
    ensures MqjsInterest(financiado, taxa, n, i) == juros
    ensures MqjsBalance(financiado, taxa, n, i) == novoSaldo
  {
    MqjsBalanceStep(financiado, taxa, n, i);
  }

  /**
   * `calcularMQJSComExcel`. `dataContrato` is accepted and never used. With
   * no instalments the sum of the factors is 0 and the division gives a
   * non-finite number in JavaScript; no row uses it, and here it is 0.
   */
  method CalcularMqjsComExcel(
    valorImovel: real, entrada: real, taxaJuros: real, quantidadeParcelas: nat,
    dataContrato: string, dataPrimeiraParcela: Date, ehTaxaAnual: bool)
    returns (parcelas: seq<Installment>)
    requires taxaJuros > 0.0 && ValidDate(dataPrimeiraParcela)
    ensures parcelas == MqjsSchedule(valorImovel - entrada, MqjsMonthlyRate(taxaJuros, ehTaxaAnual),
      quantidadeParcelas, dataPrimeiraParcela)
  {
    var valorFinanciado := valorImovel - entrada;
    var taxaMensal: real;
    if ehTaxaAnual {
      taxaMensal := taxaJuros / 12.0;
    } else {
      taxaMensal := taxaJuros;
    }
    if taxaMensal > 0.01 {
      taxaMensal := 0.01;
    }
    assert MqjsSchedule(valorImovel - entrada, MqjsMonthlyRate(taxaJuros, ehTaxaAnual), quantidadeParcelas,
      dataPrimeiraParcela) == MqjsRows(valorFinanciado, taxaMensal, quantidadeParcelas, dataPrimeiraParcela, quantidadeParcelas);

    var fvas, somaFVAs := SomarFvas(taxaMensal, quantidadeParcelas);
    var valorParcela := if somaFVAs != 0.0 then valorFinanciado / somaFVAs else 0.0;
    parcelas := GerarParcelas(valorFinanciado, taxaMensal, quantidadeParcelas, dataPrimeiraParcela, fvas, valorParcela);
  }

  /**
   * Step 3 of `calcularMQJSComExcel` (its second loop, written inline there):
   * the rows, from the factors of step 1 and the fixed payment of step 2.
   */
  method GerarParcelas(valorFinanciado: real, taxaMensal: real, quantidadeParcelas: nat, dataPrimeiraParcela: Date,
    fvas: seq<real>, valorParcela: real) returns (parcelas: seq<Installment>)
    requires taxaMensal >= 0.0 && ValidDate(dataPrimeiraParcela)
    requires fvas == Fvas(taxaMensal, quantidadeParcelas)
    requires quantidadeParcelas >= 1 ==> valorParcela == MqjsPayment(valorFinanciado, taxaMensal, quantidadeParcelas)
    ensures parcelas == MqjsRows(valorFinanciado, taxaMensal, quantidadeParcelas, dataPrimeiraParcela, quantidadeParcelas)
  {
    var saldoDevedor := valorFinanciado;
    parcelas := [];
    var i := 1;
    while i <= quantidadeParcelas
      invariant 1 <= i <= quantidadeParcelas + 1
      invariant parcelas == MqjsRows(valorFinanciado, taxaMensal, quantidadeParcelas, dataPrimeiraParcela, i - 1)
      invariant saldoDevedor == MqjsBalance(valorFinanciado, taxaMensal, quantidadeParcelas, i - 1)
    {
      var fva := fvas[i - 1];
      assert fva == Fva(taxaMensal, i);
      var amortizacao := fva * valorParcela;
      var juros := valorParcela - amortizacao;
      var novoSaldo := saldoDevedor - amortizacao;
      var dataVencimento := AddMonths(dataPrimeiraParcela, i - 1);
      MqjsRowsStep(valorFinanciado, taxaMensal, quantidadeParcelas, dataPrimeiraParcela, i, saldoDevedor, parcelas,
        valorParcela, fva, amortizacao, juros, novoSaldo);
      parcelas := parcelas + [Installment(i, dataVencimento, Cents(juros), Cents(amortizacao),
        Cents(valorParcela), Cents(novoSaldo))];
      saldoDevedor := novoSaldo;
      i := i + 1;
    }
    assert i - 1 == quantidadeParcelas;
  }

  /** The balance after k rows is the financed amount less the payment times the first k factors. */
  lemma {:induction false} MqjsBalanceClosedForm(financiado: real, taxa: real, n: nat, k: nat)
    requires taxa >= 0.0 && 1 <= n && k <= n
    ensures MqjsBalance(financiado, taxa, n, k) == financiado - MqjsPayment(financiado, taxa, n) * FvaSum(taxa, k)
  {
    if k > 0 {
      MqjsBalanceClosedForm(financiado, taxa, n, k - 1);
      MqjsBalanceClosedFormStep(financiado, taxa, n, k);
    }
  }

  lemma MqjsBalanceClosedFormStep(financiado: real, taxa: real, n: nat, k: nat)
    requires taxa >= 0.0 && 1 <= k <= n
    requires MqjsBalance(financiado, taxa, n, k - 1) == financiado - MqjsPayment(financiado, taxa, n) * FvaSum(taxa, k - 1)
    ensures MqjsBalance(financiado, taxa, n, k) == financiado - MqjsPayment(financiado, taxa, n) * FvaSum(taxa, k)
  {
    MqjsBalanceStep(financiado, taxa, n, k);
    FvaSumStep(taxa, k);
    var p := MqjsPayment(financiado, taxa, n);
    assert p * FvaSum(taxa, k) == p * FvaSum(taxa, k - 1) + Fva(taxa, k) * p;
  }

  /** After the last row nothing is owed, also after rounding. */
  lemma MqjsFinalBalanceZero(financiado: real, taxa: real, n: nat, primeira: Date)
    requires taxa >= 0.0 && n >= 1 && ValidDate(primeira)
    ensures MqjsBalance(financiado, taxa, n, n) == 0.0
    ensures MqjsSchedule(financiado, taxa, n, primeira)[n - 1].saldo == 0.0
  {
    MqjsBalanceClosedForm(financiado, taxa, n, n);
    MqjsPaymentRepays(financiado, taxa, n);
    MqjsRowsAt(financiado, taxa, n, primeira, n, n - 1);
    assert Cents(0.0) == 0.0;
  }

  /** The unrounded amortisations of the first k rows add up to what the balance fell by. */
  lemma {:induction false} MqjsAmortizationsTelescope(financiado: real, taxa: real, n: nat, k: nat)
    requires taxa >= 0.0 && k <= n
    ensures Sum(seq(k, j requires 0 <= j < k => MqjsAmortization(financiado, taxa, n, j + 1)))
      == financiado - MqjsBalance(financiado, taxa, n, k)
  {
    var s := seq(k, j requires 0 <= j < k => MqjsAmortization(financiado, taxa, n, j + 1));
    if k > 0 {
      MqjsAmortizationsTelescope(financiado, taxa, n, k - 1);
      MqjsBalanceStep(financiado, taxa, n, k);
      assert s[..k - 1] == seq(k - 1, j requires 0 <= j < k - 1 => MqjsAmortization(financiado, taxa, n, j + 1));
    }
  }

  /** Over the whole schedule the unrounded amortisations repay exactly the financed amount. */
  lemma MqjsAmortizationsRepayFinanced(financiado: real, taxa: real, n: nat, primeira: Date)
    requires taxa >= 0.0 && n >= 1 && ValidDate(primeira)
    ensures Sum(seq(n, j requires 0 <= j < n => MqjsAmortization(financiado, taxa, n, j + 1))) == financiado
  {
    MqjsAmortizationsTelescope(financiado, taxa, n, n);
    MqjsFinalBalanceZero(financiado, taxa, n, primeira);
  }

  /** Every row of the schedule charges the same rounded payment. */
  lemma MqjsFixedPayment(financiado: real, taxa: real, n: nat, primeira: Date, i: nat)
    requires taxa >= 0.0 && i < n && ValidDate(primeira)
    ensures MqjsSchedule(financiado, taxa, n, primeira)[i].valor == Cents(MqjsPayment(financiado, taxa, n))
  {
    MqjsRowsAt(financiado, taxa, n, primeira, n, i);
  }

  /** With a positive rate and a positive financed amount, the payment is positive. */
  lemma MqjsPaymentPositive(financiado: real, taxa: real, n: nat)
    requires taxa >= 0.0 && n >= 1 && financiado > 0.0
    ensures MqjsPayment(financiado, taxa, n) > 0.0
  {
    MqjsPaymentRepays(financiado, taxa, n);
  }

  /**
   * At a positive rate on a positive financed amount, a later row amortises
   * strictly less and pays strictly more interest than an earlier one.
   */
  lemma MqjsAmortizationDecreasing(financiado: real, taxa: real, n: nat, i: nat, j: nat)
    requires taxa > 0.0 && financiado > 0.0 && 1 <= i < j <= n
    ensures MqjsAmortization(financiado, taxa, n, i) > MqjsAmortization(financiado, taxa, n, j)
    ensures MqjsInterest(financiado, taxa, n, i) < MqjsInterest(financiado, taxa, n, j)
  {
    MqjsPaymentPositive(financiado, taxa, n);
    FvaDecreasing(taxa, i, j);
    var p := MqjsPayment(financiado, taxa, n);
    assert Fva(taxa, i) * p > Fva(taxa, j) * p;
  }

  /** At a positive rate on a positive financed amount every row pays some interest. */
  lemma MqjsInterestPositive(financiado: real, taxa: real, n: nat, i: nat)
    requires taxa > 0.0 && financiado > 0.0 && 1 <= i <= n
    ensures 0.0 < MqjsInterest(financiado, taxa, n, i) < MqjsPayment(financiado, taxa, n)
  {
    MqjsPaymentPositive(financiado, taxa, n);
    var p := MqjsPayment(financiado, taxa, n);
    assert Fva(taxa, i) * p < 1.0 * p;
    assert Fva(taxa, i) * p > 0.0;
  }

  /**
   * Each emitted row is consistent to the cent: the rounded payment differs
   * from rounded interest plus rounded amortisation by at most 0.01.
   */
  lemma MqjsRowWithinACent(financiado: real, taxa: real, n: nat, primeira: Date, i: nat)
    requires taxa >= 0.0 && 1 <= i <= n && ValidDate(primeira)
    ensures var r := MqjsRow(financiado, taxa, n, primeira, i);
      -0.01 <= r.valor - (r.juros + r.amortizacao) <= 0.01
  {
    CentsOfSumWithinACent(MqjsInterest(financiado, taxa, n, i), MqjsAmortization(financiado, taxa, n, i),
      MqjsPayment(financiado, taxa, n));
  }
}
