/**
 * The Price (French annuity) schedule of server/excel-calculator.ts. The
 * payment is recomputed on every row with the spreadsheet's PMT formula from
 * the balance still owed and the number of instalments left; interest is the
 * balance times the monthly rate and the rest of the payment amortises. The
 * balance carried from row to row is the unrounded one; only the emitted
 * fields are rounded to cents.
 */
module PriceSchedule {
  import opened Money
  import opened Dates
  import opened Schedule

  /**
   * `calcularPMT`: the payment that repays `saldoDevedor` in `nParcelas`
   * instalments at monthly rate `taxa`.
   */
  function CalcularPmt(taxa: real, nParcelas: nat, saldoDevedor: real): real
    requires taxa > -1.0 && nParcelas >= 1
  {
    if taxa == 0.0 then saldoDevedor / nParcelas as real
    else
      PowNotOne(1.0 + taxa, nParcelas);
      PmtFormula(saldoDevedor, taxa, Pow(1.0 + taxa, nParcelas))
  }

  /** S × (1+i)^n × i ÷ ((1+i)^n − 1), with the power (1+i)^n already computed. */
  function PmtFormula(saldo: real, taxa: real, fator: real): real
    requires fator != 1.0
  {
    saldo * fator * taxa / (fator - 1.0)
  }

  /** What one unit due j months from now is worth today at monthly rate `taxa`. */
  function Discount(taxa: real, j: nat): (d: real)
    requires taxa > -1.0
    ensures d > 0.0
  {
    PowPositive(1.0 + taxa, j);
    1.0 / Pow(1.0 + taxa, j)
  }

  /**
   * The present value, at monthly rate `taxa`, of n payments of one unit due
   * at the end of months 1..n. The recursion is in `AnnuityRec`.
   */
  function Annuity(taxa: real, n: nat): (a: real)
    requires taxa > -1.0
    ensures n >= 1 ==> a > 0.0
  {
    AnnuityRec(taxa, n)
  }

  /** The discounts of months 1..n added up. */
  function AnnuityRec(taxa: real, n: nat): (a: real)
    requires taxa > -1.0
    ensures n >= 1 ==> a > 0.0
  {
    if n == 0 then 0.0 else AnnuityRec(taxa, n - 1) + Discount(taxa, n)
  }

  /** The annuity of n months is that of n-1 months plus the discount of month n. */
  lemma AnnuityLastTerm(taxa: real, n: nat)
    requires taxa > -1.0 && n >= 1
    ensures Annuity(taxa, n) == Annuity(taxa, n - 1) + Discount(taxa, n)
  {
  }

  /** Carried one month forward, the discount of month j is that of month j-1. */
  lemma DiscountShift(taxa: real, j: nat)
    requires taxa > -1.0 && j >= 1
    ensures Discount(taxa, j) * (1.0 + taxa) == Discount(taxa, j - 1)
  {
    var q := 1.0 + taxa;
    PowStep(q, j);
    PowPositive(q, j - 1);
    ReciprocalStep(q, Pow(q, j), Pow(q, j - 1));
  }

  /** The discount of month j undoes j months of interest. */
  lemma DiscountTimesPow(taxa: real, j: nat)
    requires taxa > -1.0
    ensures Discount(taxa, j) * Pow(1.0 + taxa, j) == 1.0
  {
    PowPositive(1.0 + taxa, j);
  }

  /** Without interest every unit payment is worth one unit. */
  lemma {:induction false} AnnuityAtZeroRate(n: nat)
    ensures Annuity(0.0, n) == n as real
  {
    if n > 0 {
      AnnuityAtZeroRate(n - 1);
      AnnuityLastTerm(0.0, n);
      PowOfOne(n);
    }
  }

  lemma {:induction false} PowOfOne(n: nat)
    ensures Pow(1.0, n) == 1.0
  {
    if n > 0 {
      PowOfOne(n - 1);
      PowStep(1.0, n);
    }
  }

  /** The geometric sum in closed form: Annuity(t, n) × t × (1+t)^n == (1+t)^n − 1. */
  lemma {:induction false} AnnuityClosedForm(taxa: real, n: nat)
    requires taxa > -1.0
    ensures Annuity(taxa, n) * taxa * Pow(1.0 + taxa, n) == Pow(1.0 + taxa, n) - 1.0
  {
    if n > 0 {
      var q := 1.0 + taxa;
      AnnuityClosedForm(taxa, n - 1);
      AnnuityLastTerm(taxa, n);
      PowStep(q, n);
      DiscountTimesPow(taxa, n);
      ClosedFormStep(Annuity(taxa, n), Annuity(taxa, n - 1), Discount(taxa, n), taxa, q, Pow(q, n), Pow(q, n - 1));
    }
  }

  /**
   * Discounting one more month: an annuity of m unit payments, carried one
   * month forward, is the first payment plus an annuity of the other m-1.
   */
  lemma {:induction false} AnnuityStep(taxa: real, m: nat, m1: nat)
    requires taxa > -1.0 && m == m1 + 1
    ensures Annuity(taxa, m) * (1.0 + taxa) == 1.0 + Annuity(taxa, m1)
  {
    if m1 == 0 {
      AnnuityStepOne(taxa);
    } else {
      AnnuityStep(taxa, m1, m1 - 1);
      AnnuityStepFrom(taxa, m, m1, m1 - 1);
    }
  }

  lemma AnnuityStepOne(taxa: real)
    requires taxa > -1.0
    ensures Annuity(taxa, 1) * (1.0 + taxa) == 1.0 + Annuity(taxa, 0)
  {
    AnnuityLastTerm(taxa, 1);
    DiscountShift(taxa, 1);
    DiscountTimesPow(taxa, 0);
    assert Pow(1.0 + taxa, 0) == 1.0;
    FirstShift(Annuity(taxa, 1), Annuity(taxa, 0), Discount(taxa, 1), Discount(taxa, 0), 1.0 + taxa);
  }

  lemma AnnuityStepFrom(taxa: real, m: nat, m1: nat, m2: nat)
    requires taxa > -1.0 && m == m1 + 1 && m1 == m2 + 1
    requires Annuity(taxa, m1) * (1.0 + taxa) == 1.0 + Annuity(taxa, m2)
    ensures Annuity(taxa, m) * (1.0 + taxa) == 1.0 + Annuity(taxa, m1)
  {
    AnnuityLastTerm(taxa, m);
    AnnuityLastTerm(taxa, m1);
    DiscountShift(taxa, m);
    assert m - 1 == m1 && m1 - 1 == m2;
    ShiftStep(Annuity(taxa, m), Annuity(taxa, m1), Annuity(taxa, m2), Discount(taxa, m),
      Discount(taxa, m1), 1.0 + taxa);
  }

  /** 1/q^j × q == 1/q^(j-1), for q^j == q × q^(j-1) with both positive. */
  lemma ReciprocalStep(q: real, qj: real, qj1: real)
    requires q > 0.0 && qj1 > 0.0 && qj == q * qj1
    ensures 1.0 / qj * q == 1.0 / qj1
  {
    assert qj > 0.0;
  }

  lemma ClosedFormStep(a: real, prev: real, d: real, t: real, q: real, qn: real, qn1: real)
    requires a == prev + d && d * qn == 1.0
    requires q == 1.0 + t && qn == q * qn1
    requires prev * t * qn1 == qn1 - 1.0
    ensures a * t * qn == qn - 1.0
  {
    assert a * t * qn == prev * t * qn1 * q + t * (d * qn);
  }

  lemma FirstShift(a: real, a0: real, d: real, d0: real, q: real)
    requires a == a0 + d && a0 == 0.0 && d * q == d0 && d0 == 1.0
    ensures a * q == 1.0 + a0
  {
  }

  lemma ShiftStep(a: real, a1: real, a2: real, d: real, d1: real, q: real)
    requires a == a1 + d && d * q == d1
    requires a1 * q == 1.0 + a2 && a1 == a2 + d1
    ensures a * q == 1.0 + a1
  {
    assert a * q == a1 * q + d * q;
  }

  lemma PmtTimesAnnuity(s: real, t: real, qn: real, a: real, pmt: real)
    requires qn != 1.0
    requires a * t * qn == qn - 1.0
    requires pmt == PmtFormula(s, t, qn)
    ensures pmt * a == s
  {
    var d := qn - 1.0;
    var k := s * qn * t;
    assert pmt * d == k;
    assert k * a == s * (a * t * qn);
    assert (pmt * a) * d == (pmt * d) * a;
    CancelNonZero(pmt * a, s, d);
  }

  lemma CancelNonZero(x: real, y: real, d: real)
    requires d != 0.0 && x * d == y * d
    ensures x == y
  {
    assert (x - y) * d == 0.0;
  }

  /**
   * PMT is the annuity payment: n payments of `CalcularPmt(taxa, n, S)`,
   * discounted at the monthly rate, are worth exactly S.
   */
  lemma PmtRepaysBalance(taxa: real, n: nat, saldo: real)
    requires taxa > -1.0 && n >= 1
    ensures PresentValue(taxa, n, CalcularPmt(taxa, n, saldo)) == saldo
  {
    if taxa == 0.0 {
      PmtAtZeroRate(n, saldo);
      AnnuityAtZeroRate(n);
    } else {
      PmtAtNonzeroRate(taxa, n, saldo);
    }
  }

  /** The present value, at monthly rate `taxa`, of m payments of `p` due at the end of months 1..m. */
  function PresentValue(taxa: real, m: nat, p: real): real
    requires taxa > -1.0
  {
    p * Annuity(taxa, m)
  }

  /** With a zero rate the balance is divided evenly over the instalments left. */
  lemma PmtAtZeroRate(n: nat, saldo: real)
    requires n >= 1
    ensures CalcularPmt(0.0, n, saldo) * n as real == saldo
  {
  }

  lemma PmtAtNonzeroRate(taxa: real, n: nat, saldo: real)
    requires taxa > -1.0 && taxa != 0.0 && n >= 1
    ensures PresentValue(taxa, n, CalcularPmt(taxa, n, saldo)) == saldo
  {
    var q := 1.0 + taxa;
    PowNotOne(q, n);
    AnnuityClosedForm(taxa, n);
    PmtTimesAnnuity(saldo, taxa, Pow(q, n), Annuity(taxa, n), CalcularPmt(taxa, n, saldo));
  }

  /** With one instalment left the payment is the balance plus one month of interest. */
  lemma PmtOfLastInstallment(taxa: real, m: nat, saldo: real)
    requires taxa > -1.0 && m == 1
    ensures CalcularPmt(taxa, m, saldo) == saldo * (1.0 + taxa)
  {
    PmtRepaysBalance(taxa, 1, saldo);
    AnnuityStep(taxa, 1, 0);
    assert Annuity(taxa, 0) == 0.0;
    assert PresentValue(taxa, 1, saldo * (1.0 + taxa)) == saldo * (Annuity(taxa, 1) * (1.0 + taxa));
    PresentValueDetermines(taxa, 1, CalcularPmt(taxa, 1, saldo), saldo * (1.0 + taxa));
  }

  /** PMT over a balance that is the present value of m payments p gives back p. */
  lemma RecomputedPmtIsConstant(taxa: real, m: nat, p: real, saldo: real)
    requires taxa > -1.0 && m >= 1
    requires saldo == PresentValue(taxa, m, p)
    ensures CalcularPmt(taxa, m, saldo) == p
  {
    PmtRepaysBalance(taxa, m, saldo);
    PresentValueDetermines(taxa, m, CalcularPmt(taxa, m, saldo), p);
  }

  /** Over at least one month, different payments have different present values. */
  lemma PresentValueDetermines(taxa: real, m: nat, x: real, p: real)
    requires taxa > -1.0 && m >= 1 && PresentValue(taxa, m, x) == PresentValue(taxa, m, p)
    ensures x == p
  {
    CancelFactor(x, p, Annuity(taxa, m), PresentValue(taxa, m, x));
  }

  /** x × a == s and p × a == s with a positive: x == p. */
  lemma CancelFactor(x: real, p: real, a: real, s: real)
    requires a > 0.0 && x * a == s && (s == p * a || p * a == s)
    ensures x == p
  {
    assert (x - p) * a == 0.0;
  }

  /** The monthly rate: an annual rate r becomes (1+r)^(1/12) − 1, a monthly rate is used as given. */
  function PriceMonthlyRate(taxaJuros: real, ehTaxaAnual: bool, twelfthRoot: real -> real): (r: real)
    requires taxaJuros > 0.0 && (ehTaxaAnual ==> twelfthRoot(1.0 + taxaJuros) > 0.0)
    ensures r > -1.0
    ensures !ehTaxaAnual ==> r == taxaJuros
  {
    if ehTaxaAnual then twelfthRoot(1.0 + taxaJuros) - 1.0 else taxaJuros
  }

  /** The unrounded balance owed after the first k of n rows. The recursion is in `BalanceRec`. */
  function PriceBalance(financiado: real, taxa: real, n: nat, k: nat): real
    requires taxa > -1.0 && k <= n
  {
    BalanceRec(financiado, taxa, n, k)
  }

  /** Each row takes its amortisation, the payment minus the interest, off the balance. */
  function BalanceRec(financiado: real, taxa: real, n: nat, k: nat): real
    requires taxa > -1.0 && k <= n
  {
    if k == 0 then financiado else NextBalance(taxa, n - (k - 1), BalanceRec(financiado, taxa, n, k - 1))
  }

  /** The balance after one row with `restantes` instalments left, counting this one. */
  function NextBalance(taxa: real, restantes: nat, saldo: real): real
    requires taxa > -1.0 && restantes >= 1
  {
    saldo - (CalcularPmt(taxa, restantes, saldo) - saldo * taxa)
  }

  lemma PriceBalanceNext(financiado: real, taxa: real, n: nat, k: nat)
    requires taxa > -1.0 && 1 <= k <= n
    ensures PriceBalance(financiado, taxa, n, k) == NextBalance(taxa, n - (k - 1), PriceBalance(financiado, taxa, n, k - 1))
  {
  }

  /** The unrounded payment of row i (1-based): PMT over the balance and the instalments left. */
  function PricePayment(financiado: real, taxa: real, n: nat, i: nat): real
    requires taxa > -1.0 && 1 <= i <= n
  {
    CalcularPmt(taxa, n - (i - 1), PriceBalance(financiado, taxa, n, i - 1))
  }

  /** The unrounded interest of row i: one month of interest on the balance. */
  function PriceInterest(financiado: real, taxa: real, n: nat, i: nat): real
    requires taxa > -1.0 && 1 <= i <= n
  {
    PriceBalance(financiado, taxa, n, i - 1) * taxa
  }

  /** The unrounded amortisation of row i: the payment minus the interest. */
  function PriceAmortization(financiado: real, taxa: real, n: nat, i: nat): real
    requires taxa > -1.0 && 1 <= i <= n
  {
    PricePayment(financiado, taxa, n, i) - PriceInterest(financiado, taxa, n, i)
  }

  /** The balance after row k is the balance before it less its amortisation. */
  lemma PriceBalanceStep(financiado: real, taxa: real, n: nat, k: nat)
    requires taxa > -1.0 && 1 <= k <= n
    ensures PriceBalance(financiado, taxa, n, k)
      == PriceBalance(financiado, taxa, n, k - 1) - PriceAmortization(financiado, taxa, n, k)
  {
  }

  /** Row i (1-based) as emitted: the fields rounded to cents, due i-1 months after the first. */
  function PriceRow(financiado: real, taxa: real, n: nat, primeira: Date, i: nat): Installment
    requires taxa > -1.0 && 1 <= i <= n && ValidDate(primeira)
  {
    Installment(i, AddMonths(primeira, i - 1),
      Cents(PriceInterest(financiado, taxa, n, i)),
      Cents(PriceAmortization(financiado, taxa, n, i)),
      Cents(PricePayment(financiado, taxa, n, i)),
      Cents(PriceBalance(financiado, taxa, n, i)))
  }

  /** The first k rows, in order. */
  function PriceRows(financiado: real, taxa: real, n: nat, primeira: Date, k: nat): (s: seq<Installment>)
    requires taxa > -1.0 && k <= n && ValidDate(primeira)
    ensures |s| == k
    ensures forall j :: 0 <= j < k ==> s[j] == PriceRow(financiado, taxa, n, primeira, j + 1)
  {
    if k == 0 then [] else PriceRows(financiado, taxa, n, primeira, k - 1) + [PriceRow(financiado, taxa, n, primeira, k)]
  }

  /** The whole schedule: n rows numbered 1..n in order, row i due i-1 months after the first. */
  function PriceSchedule(financiado: real, taxa: real, n: nat, primeira: Date): (s: seq<Installment>)
    requires taxa > -1.0 && ValidDate(primeira)
    ensures |s| == n
    ensures forall k :: 0 <= k < n ==> s[k].numero == k + 1 && s[k].dataVencimento == AddMonths(primeira, k)
  {
    PriceRows(financiado, taxa, n, primeira, n)
  }

  /** One pass of the loop of `calcularPriceComExcel`: row i, computed from the balance carried into it. */
  lemma PriceRowsStep(financiado: real, taxa: real, n: nat, primeira: Date, i: nat, saldo: real, parcelas: seq<Installment>,
    valorParcela: real, juros: real, amortizacao: real, novoSaldo: real)
    requires taxa > -1.0 && 1 <= i <= n && ValidDate(primeira)
    requires saldo == PriceBalance(financiado, taxa, n, i - 1)
    requires parcelas == PriceRows(financiado, taxa, n, primeira, i - 1)
    requires valorParcela == CalcularPmt(taxa, n - (i - 1), saldo) && juros == saldo * taxa
    requires amortizacao == valorParcela - juros && novoSaldo == saldo - amortizacao
    ensures novoSaldo == PriceBalance(financiado, taxa, n, i)
    ensures parcelas + [Installment(i, AddMonths(primeira, i - 1), Cents(juros), Cents(amortizacao), Cents(valorParcela),
      Cents(novoSaldo))] == PriceRows(financiado, taxa, n, primeira, i)
  {
    PriceRowParts(financiado, taxa, n, i, saldo, valorParcela, juros, amortizacao, novoSaldo);
    assert PriceRow(financiado, taxa, n, primeira, i)
      == Installment(i, AddMonths(primeira, i - 1), Cents(juros), Cents(amortizacao), Cents(valorParcela), Cents(novoSaldo));
  }

  /** The unrounded parts of row i, computed from the balance carried into it. */
  lemma PriceRowParts(financiado: real, taxa: real, n: nat, i: nat, saldo: real,
    valorParcela: real, juros: real, amortizacao: real, novoSaldo: real)
    requires taxa > -1.0 && 1 <= i <= n
    requires saldo == PriceBalance(financiado, taxa, n, i - 1)
    requires valorParcela == CalcularPmt(taxa, n - (i - 1), saldo) && juros == saldo * taxa
    requires amortizacao == valorParcela - juros && novoSaldo == saldo - amortizacao
    ensures PricePayment(financiado, taxa, n, i) == valorParcela
    ensures PriceInterest(financiado, taxa, n, i) == juros
    ensures PriceAmortization(financiado, taxa, n, i) == amortizacao
    ensures PriceBalance(financiado, taxa, n, i) == novoSaldo
  {
    PriceBalanceNext(financiado, taxa, n, i);
  }

  /**
   * `calcularPriceComExcel`. `dataContrato` is accepted and never used;
   * `twelfthRoot` stands for `x => Math.pow(x, 1/12)`.
   */
  method CalcularPriceComExcel(
    valorImovel: real, entrada: real, taxaJuros: real, quantidadeParcelas: nat,
    dataContrato: string, dataPrimeiraParcela: Date, ehTaxaAnual: bool, twelfthRoot: real -> real)
    returns (parcelas: seq<Installment>)
    requires taxaJuros > 0.0 && (ehTaxaAnual ==> twelfthRoot(1.0 + taxaJuros) > 0.0)
    requires ValidDate(dataPrimeiraParcela)
    ensures parcelas == PriceSchedule(valorImovel - entrada, PriceMonthlyRate(taxaJuros, ehTaxaAnual, twelfthRoot),
      quantidadeParcelas, dataPrimeiraParcela)
  {
    var valorFinanciado := valorImovel - entrada;
    var taxaMensal: real;
    if ehTaxaAnual {
      taxaMensal := twelfthRoot(1.0 + taxaJuros) - 1.0;
    } else {
      taxaMensal := taxaJuros;
    }
    assert taxaMensal == PriceMonthlyRate(taxaJuros, ehTaxaAnual, twelfthRoot);
    parcelas := [];
    var saldoDevedor := valorFinanciado;
    var i := 1;
    while i <= quantidadeParcelas
      invariant 1 <= i <= quantidadeParcelas + 1
      invariant parcelas == PriceRows(valorFinanciado, taxaMensal, quantidadeParcelas, dataPrimeiraParcela, i - 1)
      invariant saldoDevedor == PriceBalance(valorFinanciado, taxaMensal, quantidadeParcelas, i - 1)
    {
      var parcelasRestantes := quantidadeParcelas - (i - 1);
      var valorParcela := CalcularPmt(taxaMensal, parcelasRestantes, saldoDevedor);
      var juros := saldoDevedor * taxaMensal;
      var amortizacao := valorParcela - juros;
      var novoSaldo := saldoDevedor - amortizacao;
      var dataVencimento := AddMonths(dataPrimeiraParcela, i - 1);
      PriceRowsStep(valorFinanciado, taxaMensal, quantidadeParcelas, dataPrimeiraParcela, i, saldoDevedor, parcelas,
        valorParcela, juros, amortizacao, novoSaldo);
      parcelas := parcelas + [Installment(i, dataVencimento, Cents(juros), Cents(amortizacao),
        Cents(valorParcela), Cents(novoSaldo))];
      saldoDevedor := novoSaldo;
      i := i + 1;
    }
    assert i - 1 == quantidadeParcelas;
  }

  /**
   * The balance after k rows is the present value of the n-k payments still
   * due, each equal to the payment of the first row.
   */
  lemma {:induction false} PriceBalanceIsPresentValue(financiado: real, taxa: real, n: nat, k: nat)
    requires taxa > -1.0 && 1 <= n && k <= n
    ensures PriceBalance(financiado, taxa, n, k) == PresentValue(taxa, n - k, CalcularPmt(taxa, n, financiado))
  {
    if k == 0 {
      PmtRepaysBalance(taxa, n, financiado);
    } else {
      PriceBalanceIsPresentValue(financiado, taxa, n, k - 1);
      PresentValueAfterRow(financiado, taxa, n, k);
    }
  }

  lemma PresentValueAfterRow(financiado: real, taxa: real, n: nat, k: nat)
    requires taxa > -1.0 && 1 <= k <= n
    requires PriceBalance(financiado, taxa, n, k - 1) == PresentValue(taxa, n - (k - 1), CalcularPmt(taxa, n, financiado))
    ensures PriceBalance(financiado, taxa, n, k) == PresentValue(taxa, n - k, CalcularPmt(taxa, n, financiado))
  {
    PriceBalanceNext(financiado, taxa, n, k);
    NextBalanceKeepsPresentValue(taxa, n - (k - 1), n - k, CalcularPmt(taxa, n, financiado),
      PriceBalance(financiado, taxa, n, k - 1));
  }

  /**
   * One row in the algebra of the present value: a balance worth m payments p,
   * charged a month of interest and paid PMT, is worth m-1 payments p.
   */
  lemma NextBalanceKeepsPresentValue(taxa: real, m: nat, m1: nat, p: real, saldo: real)
    requires taxa > -1.0 && m == m1 + 1 && saldo == PresentValue(taxa, m, p)
    ensures NextBalance(taxa, m, saldo) == PresentValue(taxa, m1, p)
  {
    RecomputedPmtIsConstant(taxa, m, p, saldo);
    NextBalanceOfPayment(taxa, m, saldo, p);
    AnnuityStep(taxa, m, m1);
    PresentValueStep(saldo, p, taxa, Annuity(taxa, m), Annuity(taxa, m1));
  }

  /** The balance after a row whose payment is known to be p. */
  lemma NextBalanceOfPayment(taxa: real, m: nat, saldo: real, p: real)
    requires taxa > -1.0 && m >= 1 && CalcularPmt(taxa, m, saldo) == p
    ensures NextBalance(taxa, m, saldo) == saldo - (p - saldo * taxa)
  {
  }

  /** A balance worth the remaining payments of the first row is charged that same payment. */
  lemma PaymentOfPresentValue(financiado: real, taxa: real, n: nat, k: nat)
    requires taxa > -1.0 && 1 <= k <= n
    requires PriceBalance(financiado, taxa, n, k - 1) == PresentValue(taxa, n - (k - 1), CalcularPmt(taxa, n, financiado))
    ensures PricePayment(financiado, taxa, n, k) == CalcularPmt(taxa, n, financiado)
  {
    RecomputedPmtIsConstant(taxa, n - (k - 1), CalcularPmt(taxa, n, financiado), PriceBalance(financiado, taxa, n, k - 1));
  }

  lemma PresentValueStep(saldo: real, p: real, t: real, a: real, a1: real)
    requires saldo == p * a
    requires a * (1.0 + t) == 1.0 + a1
    ensures saldo - (p - saldo * t) == p * a1
  {
    assert saldo - (p - saldo * t) == p * (a * (1.0 + t)) - p;
  }

  /**
   * Recomputing PMT on every row gives the same payment as the first row, so
   * the schedule is a fixed annuity: every emitted payment is the rounded
   * `CalcularPmt(taxa, n, financiado)`.
   */
  lemma PriceFixedPayment(financiado: real, taxa: real, n: nat, primeira: Date, i: nat)
    requires taxa > -1.0 && 1 <= i <= n && ValidDate(primeira)
    ensures PricePayment(financiado, taxa, n, i) == CalcularPmt(taxa, n, financiado)
    ensures PriceRow(financiado, taxa, n, primeira, i).valor == Cents(CalcularPmt(taxa, n, financiado))
  {
    var saldo := PriceBalance(financiado, taxa, n, i - 1);
    PriceBalanceIsPresentValue(financiado, taxa, n, i - 1);
    RecomputedPmtIsConstant(taxa, n - (i - 1), CalcularPmt(taxa, n, financiado), saldo);
  }

  /** The last row amortises everything still owed: the final balance is zero, also after rounding. */
  lemma PriceFinalBalanceZero(financiado: real, taxa: real, n: nat, primeira: Date)
    requires taxa > -1.0 && n >= 1 && ValidDate(primeira)
    ensures PriceAmortization(financiado, taxa, n, n) == PriceBalance(financiado, taxa, n, n - 1)
    ensures PriceBalance(financiado, taxa, n, n) == 0.0
    ensures PriceSchedule(financiado, taxa, n, primeira)[n - 1].saldo == 0.0
  {
    var saldo := PriceBalance(financiado, taxa, n, n - 1);
    PmtOfLastInstallment(taxa, n - (n - 1), saldo);
    PriceBalanceStep(financiado, taxa, n, n);
    LastAmortization(saldo, taxa, PricePayment(financiado, taxa, n, n), PriceInterest(financiado, taxa, n, n),
      PriceAmortization(financiado, taxa, n, n));
    assert Cents(0.0) == 0.0;
  }

  lemma LastAmortization(saldo: real, t: real, pmt: real, juros: real, amort: real)
    requires pmt == saldo * (1.0 + t) && juros == saldo * t && amort == pmt - juros
    ensures amort == saldo
  {
  }

  /** The unrounded amortisations of the first k rows add up to what the balance fell by. */
  lemma {:induction false} PriceAmortizationsTelescope(financiado: real, taxa: real, n: nat, k: nat)
    requires taxa > -1.0 && k <= n
    ensures Sum(seq(k, j requires 0 <= j < k => PriceAmortization(financiado, taxa, n, j + 1)))
      == financiado - PriceBalance(financiado, taxa, n, k)
  {
    var s := seq(k, j requires 0 <= j < k => PriceAmortization(financiado, taxa, n, j + 1));
    if k > 0 {
      PriceAmortizationsTelescope(financiado, taxa, n, k - 1);
      PriceBalanceStep(financiado, taxa, n, k);
      assert s[..k - 1] == seq(k - 1, j requires 0 <= j < k - 1 => PriceAmortization(financiado, taxa, n, j + 1));
    }
  }

  /** Over the whole schedule the unrounded amortisations repay exactly the financed amount. */
  lemma PriceAmortizationsRepayFinanced(financiado: real, taxa: real, n: nat, primeira: Date)
    requires taxa > -1.0 && n >= 1 && ValidDate(primeira)
    ensures Sum(seq(n, j requires 0 <= j < n => PriceAmortization(financiado, taxa, n, j + 1))) == financiado
  {
    PriceAmortizationsTelescope(financiado, taxa, n, n);
    PriceFinalBalanceZero(financiado, taxa, n, primeira);
  }

  /**
   * Each emitted row is consistent to the cent: the rounded payment differs
   * from rounded interest plus rounded amortisation by at most 0.01.
   */
  lemma PriceRowWithinACent(financiado: real, taxa: real, n: nat, primeira: Date, i: nat)
    requires taxa > -1.0 && 1 <= i <= n && ValidDate(primeira)
    ensures var r := PriceRow(financiado, taxa, n, primeira, i);
      -0.01 <= r.valor - (r.juros + r.amortizacao) <= 0.01
  {
    CentsOfSumWithinACent(PriceInterest(financiado, taxa, n, i), PriceAmortization(financiado, taxa, n, i),
      PricePayment(financiado, taxa, n, i));
  }
}
