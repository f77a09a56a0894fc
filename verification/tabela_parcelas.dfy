/**
 * The instalment table of client/src/components/TabelaParcelas.tsx: the rows
 * shown under the month filter, the five totals, whether any row was
 * corrected, and the rows handed to the spreadsheet export.
 */
module TabelaParcelas {
  import opened Wrappers
  import opened Money
  import opened Dates
  import opened Schedule
  import opened Correction

  /** `parcelas.slice(0, filtroMeses)`: the first rows, as many as the filter asks for and the schedule has. */
  function ParcelasExibidas(parcelas: seq<CorrectedInstallment>, filtroMeses: nat): (r: seq<CorrectedInstallment>)
    ensures |r| == if filtroMeses < |parcelas| then filtroMeses else |parcelas|
    ensures forall i :: 0 <= i < |r| ==> r[i] == parcelas[i]
  {
    if filtroMeses < |parcelas| then parcelas[..filtroMeses] else parcelas
  }

  /** The value of a field in every row, in order (rows of the table or of the export). */
  function Coluna<T>(linhas: seq<T>, campo: T -> real): (s: seq<real>)
    ensures |s| == |linhas|
    ensures forall i :: 0 <= i < |s| ==> s[i] == campo(linhas[i])
  {
    seq(|linhas|, i requires 0 <= i < |linhas| => campo(linhas[i]))
  }

  /** `linhas.reduce((acc, p) => acc + campo(p), 0)`. */
  function Total<T>(linhas: seq<T>, campo: T -> real): real
  {
    Sum(Coluna(linhas, campo))
  }

  function Juros(p: CorrectedInstallment): real { p.base.juros }

  function Amortizacao(p: CorrectedInstallment): real { p.base.amortizacao }

  function ValorOriginal(p: CorrectedInstallment): real { p.base.valor }

  /** The instalment matured (`estaVencida` is true). */
  predicate Vencida(p: CorrectedInstallment) {
    p.estaVencida == Some(true)
  }

  /** `valorParcelaCorrigida` is present and not zero (JavaScript truthiness). */
  predicate TemValorCorrigido(p: CorrectedInstallment) {
    p.correcao.Some? && p.correcao.value.valorParcelaCorrigida != 0.0
  }

  /**
   * `p.valorParcelaCorrigida && p.estaVencida ? p.valorParcelaCorrigida : p.valor`:
   * the corrected payment of a matured instalment that has one, the original otherwise.
   * The screen and the export use this same rule.
   */
  function ValorCorrigido(p: CorrectedInstallment): (v: real)
    ensures TemValorCorrigido(p) && Vencida(p) ==> v == p.correcao.value.valorParcelaCorrigida
    ensures !(TemValorCorrigido(p) && Vencida(p)) ==> v == p.base.valor
  {
    if TemValorCorrigido(p) && Vencida(p) then p.correcao.value.valorParcelaCorrigida else p.base.valor
  }

  /** What `totalCorrecao` adds for one row: the correction of a matured corrected instalment, else 0. */
  function CorrecaoDaParcela(p: CorrectedInstallment): real
  {
    if Vencida(p) && TemValorCorrigido(p) then p.correcao.value.valorParcelaCorrigida - p.base.valor else 0.0
  }

  /** The two guards agree, so a row's corrected value is its original value plus its correction. */
  lemma CorrectedIsOriginalPlusCorrection(p: CorrectedInstallment)
    ensures ValorCorrigido(p) == ValorOriginal(p) + CorrecaoDaParcela(p)
  {
  }

  /** Sums of two columns add up to the sum of the column of their row-wise sums. */
  lemma {:induction false} SumPointwise(a: seq<real>, b: seq<real>, c: seq<real>)
    requires |a| == |b| == |c|
    requires forall i :: 0 <= i < |c| ==> c[i] == a[i] + b[i]
    ensures Sum(c) == Sum(a) + Sum(b)
  {
    if |c| > 0 {
      var n := |c| - 1;
      SumPointwise(a[..n], b[..n], c[..n]);
    }
  }

  /** `totalPagoCorrigido = totalPago + totalCorrecao`. */
  lemma TotalCorrigidoIsPagoPlusCorrecao(parcelas: seq<CorrectedInstallment>)
    ensures Total(parcelas, ValorCorrigido) == Total(parcelas, ValorOriginal) + Total(parcelas, CorrecaoDaParcela)
  {
    var c, a, b := Coluna(parcelas, ValorCorrigido), Coluna(parcelas, ValorOriginal), Coluna(parcelas, CorrecaoDaParcela);
    forall i | 0 <= i < |c|
      ensures c[i] == a[i] + b[i]
    {
      CorrectedIsOriginalPlusCorrection(parcelas[i]);
    }
    SumPointwise(a, b, c);
  }

  /** `parcelas.some(p => p.indiceAcumulado !== undefined)`, scanning from the first row. */
  function TemCorrecao(parcelas: seq<CorrectedInstallment>): bool
  {
    |parcelas| > 0 && (parcelas[0].correcao.Some? || TemCorrecao(parcelas[1..]))
  }

  /** `parcelas.filter(p => p.indiceAcumulado !== undefined).length`. */
  function ParcelasCorrigidas(parcelas: seq<CorrectedInstallment>): (n: nat)
    ensures n <= |parcelas|
  {
    if |parcelas| == 0 then 0
    else (if parcelas[0].correcao.Some? then 1 else 0) + ParcelasCorrigidas(parcelas[1..])
  }

  /** Some row carries correction fields exactly when the corrected-row count is positive. */
  lemma {:induction false} TemCorrecaoIff(parcelas: seq<CorrectedInstallment>)
    ensures TemCorrecao(parcelas) <==> exists i :: 0 <= i < |parcelas| && parcelas[i].correcao.Some?
    ensures TemCorrecao(parcelas) <==> ParcelasCorrigidas(parcelas) > 0
  {
    if |parcelas| > 0 {
      TemCorrecaoIff(parcelas[1..]);
      if !parcelas[0].correcao.Some? && exists i :: 0 <= i < |parcelas| && parcelas[i].correcao.Some? {
        var i :| 0 <= i < |parcelas| && parcelas[i].correcao.Some?;
        assert parcelas[1..][i - 1] == parcelas[i];
      }
      if parcelas[0].correcao.Some? {
        assert 0 <= 0 < |parcelas| && parcelas[0].correcao.Some?;
      } else if TemCorrecao(parcelas[1..]) {
        var i :| 0 <= i < |parcelas[1..]| && parcelas[1..][i].correcao.Some?;
        assert parcelas[i + 1].correcao.Some?;
      }
    }
  }

  /** One row of the spreadsheet export. */
  datatype LinhaExportada =
    | Linha(
        numero: int,
        vencimento: Date,
        juros: real,
        amortizacao: real,
        valorOriginal: real,
        valorCorrigido: real,
        saldoDevedor: real,
        /** "Índice Acumulado" and "% Correção Acumulada", present on a corrected row. */
        colunasCorrecao: Option<(real, real)>)
    | LinhaTotal(
        juros: real,
        amortizacao: real,
        valorOriginal: real,
        valorCorrigido: real,
        /** The two correction columns, present and empty when some row is corrected. */
        colunasCorrecaoVazias: bool)

  /** The export row of one instalment. */
  function LinhaDe(p: CorrectedInstallment): LinhaExportada
  {
    Linha(p.base.numero, p.base.dataVencimento, p.base.juros, p.base.amortizacao, p.base.valor,
      ValorCorrigido(p), p.base.saldo,
      match p.correcao
      case Some(c) => Some((c.indiceAcumulado, c.valorCorrecao))
      case None => None)
  }

  function JurosDaLinha(l: LinhaExportada): real { l.juros }

  function AmortizacaoDaLinha(l: LinhaExportada): real { l.amortizacao }

  function OriginalDaLinha(l: LinhaExportada): real { l.valorOriginal }

  function CorrigidoDaLinha(l: LinhaExportada): real { l.valorCorrigido }

  /** The instalment rows of the export, one per instalment, in order. */
  function LinhasDasParcelas(parcelas: seq<CorrectedInstallment>): (r: seq<LinhaExportada>)
    ensures |r| == |parcelas|
    ensures forall i :: 0 <= i < |r| ==> r[i] == LinhaDe(parcelas[i])
  {
    seq(|parcelas|, i requires 0 <= i < |parcelas| => LinhaDe(parcelas[i]))
  }

  /** `exportarExcel`'s data: one row per instalment, then the TOTAL row. */
  function Exportacao(parcelas: seq<CorrectedInstallment>): (r: seq<LinhaExportada>)
    ensures |r| == |parcelas| + 1
  {
    LinhasDasParcelas(parcelas)
      + [LinhaTotal(Total(parcelas, Juros), Total(parcelas, Amortizacao), Total(parcelas, ValorOriginal),
          Total(parcelas, ValorCorrigido), TemCorrecao(parcelas))]
  }

  /**
   * Row i of the export shows instalment i: its number, due date, interest,
   * amortization, original value and balance, the corrected value chosen as on
   * screen, and the two correction columns, holding the accumulated index and
   * the correction percentage, exactly when it was corrected.
   */
  lemma ExportRow(parcelas: seq<CorrectedInstallment>, i: nat)
    requires i < |parcelas|
    ensures var l := Exportacao(parcelas)[i];
      && l.Linha?
      && l.numero == parcelas[i].base.numero && l.vencimento == parcelas[i].base.dataVencimento
      && l.valorOriginal == parcelas[i].base.valor && l.saldoDevedor == parcelas[i].base.saldo
      && l.valorCorrigido == ValorCorrigido(parcelas[i])
      && l.juros == parcelas[i].base.juros && l.amortizacao == parcelas[i].base.amortizacao
      && (l.colunasCorrecao.Some? <==> parcelas[i].correcao.Some?)
      && (parcelas[i].correcao.Some? ==>
            l.colunasCorrecao == Some((parcelas[i].correcao.value.indiceAcumulado, parcelas[i].correcao.value.valorCorrecao)))
  {
    assert Exportacao(parcelas)[i] == LinhasDasParcelas(parcelas)[i];
  }

  /**
   * The export ends with the TOTAL row, whose four amounts are the sums of the
   * columns of the instalment rows above it; it has the (empty) correction
   * columns exactly when some instalment was corrected.
   */
  lemma ExportTotalsMatchColumns(parcelas: seq<CorrectedInstallment>)
    ensures var t := Exportacao(parcelas)[|parcelas|];
      var linhas := LinhasDasParcelas(parcelas);
      && t.LinhaTotal?
      && t.juros == Total(linhas, JurosDaLinha)
      && t.amortizacao == Total(linhas, AmortizacaoDaLinha)
      && t.valorOriginal == Total(linhas, OriginalDaLinha)
      && t.valorCorrigido == Total(linhas, CorrigidoDaLinha)
      && (t.colunasCorrecaoVazias <==> exists i :: 0 <= i < |parcelas| && parcelas[i].correcao.Some?)
  {
    var linhas := LinhasDasParcelas(parcelas);
    assert Coluna(linhas, JurosDaLinha) == Coluna(parcelas, Juros);
    assert Coluna(linhas, AmortizacaoDaLinha) == Coluna(parcelas, Amortizacao);
    assert Coluna(linhas, OriginalDaLinha) == Coluna(parcelas, ValorOriginal);
    assert Coluna(linhas, CorrigidoDaLinha) == Coluna(parcelas, ValorCorrigido);
    assert Exportacao(parcelas)[|parcelas|] == LinhaTotal(Total(parcelas, Juros), Total(parcelas, Amortizacao),
      Total(parcelas, ValorOriginal), Total(parcelas, ValorCorrigido), TemCorrecao(parcelas));
    TemCorrecaoIff(parcelas);
  }
}
