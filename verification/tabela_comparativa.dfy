/**
 * The comparison panel of client/src/components/TabelaComparativa.tsx: the
 * effect that totals the overpayment of the paid instalments (Price minus
 * MQJS, original payments) and picks the next MQJS instalment to pay, and the
 * `DD/MM/YYYY` rendering of a due date.
 */
module TabelaComparativa {
  import opened Wrappers
  import opened Money
  import opened Text
  import opened Dates
  import opened Schedule
  import TabelaParcelas

  /** `quantidadeParcelasPagas = 0`: the paid count, 0 when the property is not given. */
  function ParcelasPagas(quantidadeParcelasPagas: Option<int>): int
  {
    match quantidadeParcelasPagas
    case Some(n) => n
    case None => 0
  }

  /**
   * `parcelasParaMostrar`: the paid count capped at the Price length when it is
   * positive, every Price row otherwise.
   */
  function ParcelasParaMostrar(pagas: int, totalPrice: nat): (n: nat)
    ensures n <= totalPrice
    ensures pagas > 0 ==> n == if pagas < totalPrice then pagas else totalPrice
    ensures pagas <= 0 ==> n == totalPrice
  {
    if pagas > 0 then (if pagas < totalPrice then pagas else totalPrice) else totalPrice
  }

  /** Without a paid count the total covers the whole Price schedule. */
  lemma DefaultCoversWholeSchedule(parcelasPrice: seq<Installment>)
    ensures ParcelasParaMostrar(ParcelasPagas(None), |parcelasPrice|) == |parcelasPrice|
  {
  }

  /**
   * The total after the first k positions: each position with a row in both
   * schedules adds `price.valor - mqjs.valor`; a position without an MQJS row is skipped.
   */
  function TotalDiferenca(parcelasPrice: seq<Installment>, parcelasMQJS: seq<Installment>, k: nat): real
    requires k <= |parcelasPrice|
  {
    if k == 0 then
      0.0
    else
      var diferenca := if k - 1 < |parcelasMQJS| then parcelasPrice[k - 1].valor - parcelasMQJS[k - 1].valor else 0.0;
      TotalDiferenca(parcelasPrice, parcelasMQJS, k - 1) + diferenca
  }

  /** The original payment of an instalment. */
  function Valor(p: Installment): real { p.valor }

  /**
   * The total is what the Price schedule charged minus what the MQJS schedule
   * charges over the positions compared that both schedules have.
   */
  lemma {:induction false} TotalIsDifferenceOfSums(parcelasPrice: seq<Installment>, parcelasMQJS: seq<Installment>,
    k: nat)
    requires k <= |parcelasPrice|
    ensures var m := if k < |parcelasMQJS| then k else |parcelasMQJS|;
      TotalDiferenca(parcelasPrice, parcelasMQJS, k)
        == Sum(TabelaParcelas.Coluna(parcelasPrice, Valor)[..m]) - Sum(TabelaParcelas.Coluna(parcelasMQJS, Valor)[..m])
  {
    if k > 0 {
      TotalIsDifferenceOfSums(parcelasPrice, parcelasMQJS, k - 1);
      if k - 1 < |parcelasMQJS| {
        var p, q := TabelaParcelas.Coluna(parcelasPrice, Valor), TabelaParcelas.Coluna(parcelasMQJS, Valor);
        assert p[..k][..k - 1] == p[..k - 1];
        assert q[..k][..k - 1] == q[..k - 1];
      }
    }
  }

  /**
   * The next instalment to pay: MQJS row `paid` when some are paid and rows
   * remain, the first MQJS row when none is paid, the current choice otherwise.
   */
  function ProximaParcela(atual: Option<Installment>, parcelasMQJS: seq<Installment>, pagas: int)
    : Option<Installment>
  {
    if pagas > 0 && pagas < |parcelasMQJS| then Some(parcelasMQJS[pagas])
    else if pagas == 0 && |parcelasMQJS| > 0 then Some(parcelasMQJS[0])
    else atual
  }

  /**
   * Both branches pick the first unpaid MQJS instalment; when every instalment
   * (or more) is paid, or the count is negative, the previous choice stays.
   */
  lemma NextIsFirstUnpaid(atual: Option<Installment>, parcelasMQJS: seq<Installment>, pagas: int)
    ensures 0 <= pagas < |parcelasMQJS| ==> ProximaParcela(atual, parcelasMQJS, pagas) == Some(parcelasMQJS[pagas])
    ensures pagas < 0 || pagas >= |parcelasMQJS| ==> ProximaParcela(atual, parcelasMQJS, pagas) == atual
  {
  }

  /** The component's state: the total difference and the next instalment shown. */
  class Resumo {
    var totalDiferenca: real
    var proximaParcela: Option<Installment>

    /** `useState(0)` and `useState(null)`. */
    constructor ()
      ensures totalDiferenca == 0.0 && proximaParcela == None
    {
      totalDiferenca := 0.0;
      proximaParcela := None;
    }

    /** The `useEffect` body: total the paid positions, then choose the next instalment. */
    method Atualizar(parcelasPrice: seq<Installment>, parcelasMQJS: seq<Installment>,
      quantidadeParcelasPagas: Option<int>)
      modifies this
      ensures totalDiferenca == TotalDiferenca(parcelasPrice, parcelasMQJS,
        ParcelasParaMostrar(ParcelasPagas(quantidadeParcelasPagas), |parcelasPrice|))
      ensures proximaParcela == ProximaParcela(old(proximaParcela), parcelasMQJS,
        ParcelasPagas(quantidadeParcelasPagas))
    {
      var pagas := ParcelasPagas(quantidadeParcelasPagas);
      var total := 0.0;
      var parcelasParaMostrar := if pagas > 0 then (if pagas < |parcelasPrice| then pagas else |parcelasPrice|)
        else |parcelasPrice|;
      var idx := 0;
      while idx < parcelasParaMostrar
        invariant 0 <= idx <= parcelasParaMostrar <= |parcelasPrice|
        invariant total == TotalDiferenca(parcelasPrice, parcelasMQJS, idx)
      {
        if idx < |parcelasMQJS| {
          var diferencaParcela := parcelasPrice[idx].valor - parcelasMQJS[idx].valor;
          total := total + diferencaParcela;
        }
        idx := idx + 1;
      }
      totalDiferenca := total;
      if pagas > 0 && pagas < |parcelasMQJS| {
        proximaParcela := Some(parcelasMQJS[pagas]);
      } else if pagas == 0 && |parcelasMQJS| > 0 {
        proximaParcela := Some(parcelasMQJS[0]);
      }
    }
  }

  /**
   * `formatarData`: `const [ano, mes, dia] = data.split('-')` rendered as
   * `${dia}/${mes}/${ano}`; a missing piece is `undefined` in the template.
   */
  function FormatarData(data: string): string
  {
    var partes := Split(data, '-');
    var ano := partes[0];
    var mes := if |partes| > 1 then partes[1] else "undefined";
    var dia := if |partes| > 2 then partes[2] else "undefined";
    dia + "/" + mes + "/" + ano
  }

  /** Three dash-free pieces `a-b-c` are rendered `c/b/a`. */
  lemma FormatarDataReorders(a: string, b: string, c: string)
    requires '-' !in a && '-' !in b && '-' !in c
    ensures FormatarData(a + "-" + b + "-" + c) == c + "/" + b + "/" + a
  {
    SplitThree(a, b, c);
  }

  /** A due date in `YYYY-MM-DD` form is shown as `DD/MM/YYYY`. */
  lemma FormatarIsoDate(d: Date)
    requires 0 <= d.year <= 9999 && ValidDate(d)
    ensures FormatarData(IsoDate(d)) == PaddedNat(d.day, 2) + "/" + PaddedNat(d.month, 2) + "/" + PaddedNat(d.year, 4)
  {
    PaddedHasNoDash(d.year, 4);
    PaddedHasNoDash(d.month, 2);
    PaddedHasNoDash(d.day, 2);
    FormatarDataReorders(PaddedNat(d.year, 4), PaddedNat(d.month, 2), PaddedNat(d.day, 2));
  }
}
