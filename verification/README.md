# Loan revision calculator: a Dafny model

This project models the core of a Brazilian real-estate loan revision calculator.
The calculator compares two schedules for the same loan:

- the bank's Price schedule, a French annuity recomputed with a PMT formula each month
  (`server/excel-calculator.ts`);
- the MQJS schedule, "método de juros simples" with a fixed payment and FVA discount factors
  `1 / (1 + i·k)` (`server/mqjs-calculator.ts`).

Both schedules can receive a cumulative monetary correction from an index (INCC or IPCA) for each
instalment that has already matured (`server/calculadora.ts`). The model also covers:

- the server-side comparison of the paid instalments;
- the comparison panel and the instalment table with its spreadsheet export;
- the submit handler of the calculator form;
- the two pages where a client hires the office: the personal-data form and the document upload.

Modules, one per concern:

| module | file | models |
|---|---|---|
| `Wrappers` | wrappers.dfy | `Option` and `Result` |
| `Money` | money.dfy | `Math.round(x * 100) / 100`, powers, sums |
| `Text` | text.dfy | `split`, `String(n)`, `padStart`, `trim` |
| `Dates` | dates.dfy | calendar dates, `setMonth` roll-over, ISO strings, maturity, month ends |
| `Schedule` | schedule.dfy | `ParcelaInfo` (one instalment) |
| `PriceSchedule` | price.dfy | `calcularPMT`, `calcularPriceComExcel` |
| `MqjsSchedule` | mqjs.dfy | `calcularMQJSComExcel` |
| `Correction` | correction.dfy | the correction loop shared by `calcularPrice` and `calcularMQJS` |
| `Calculadora` | calculadora.dfy | `calcularPrice`, `calcularMQJS`, `calcularDiferencaParcelasPagas` |
| `TabelaComparativa` | tabela_comparativa.dfy | the effect of the comparison panel, `formatarData` |
| `TabelaParcelas` | tabela_parcelas.dfy | the row filter, totals, corrected-row count, spreadsheet rows |
| `CalculadoraRevisional` | calculadora_revisional.dfy | the form validation in `onSubmit` and the mutation callbacks |
| `Contratacao` | contratacao.dfy | the personal-data form |
| `ContratacaoDocumentos` | contratacao_documentos.dfy | the document upload page |

Modelling choices:

- Each schedule is a function of its inputs (`PriceSchedule.PriceSchedule`, `MqjsSchedule.MqjsSchedule`).
  It is defined row by row, the way the source's loops carry the balance from one row to the next.
- The loops of the source are methods, proved to return exactly that function.
- The properties the schedules promise are lemmas about the functions:
  - the payment is fixed;
  - the final balance is zero;
  - the amortizations repay the financed amount;
  - each rounded row is consistent to within a cent.
- React components that keep state are classes: `useState` fields become class fields, and each
  handler becomes a method with a `modifies` clause.

The model follows the code as written, including these points of its behaviour:

- The correction accumulates the monthly variations additively (`percentualAcumulado += fim / inicio - 1`).
  It does not compound them.
- The balance carried from one row to the next is the unrounded one. Only the stored fields are rounded.
- `calcularDiferencaParcelasPagas` bounds its loop by the Price schedule only (see Findings).
- The comparison's percentage is 0 when the MQJS payment is not positive.
- The paid count typed into the calculator form never reaches the comparison panel (see Findings).

## Model

| member | source | states |
|---|---|---|
| `Money.Round` | server/excel-calculator.ts:97-100 | `Math.round` returns the integer nearest to x, rounding halves up: x - 0.5 < r <= x + 0.5 |
| `Money.Cents` | server/excel-calculator.ts:97-100 | `Math.round(x * 100) / 100` is a whole number of cents, within half a cent of x |
| `Money.CentsIdempotent` | server/excel-calculator.ts:97-100 | rounding an already rounded amount changes nothing |
| `Money.CentsMonotonic` | server/excel-calculator.ts:97-100 | rounding to cents preserves order |
| `Money.CentsOfSumWithinACent` | server/excel-calculator.ts:97-100 | the rounded sum of two amounts differs from the sum of their rounded values by at most a cent |
| `Money.PowNotOne` | server/excel-calculator.ts:24-25 | (1 + taxa)^n stays above 1 for a positive rate and below 1 for a negative one, so the PMT denominator is not zero |
| `Dates.DaysInMonth` | server/calculadora.ts:93 | `new Date(y, m, 0).getDate()` is 28 to 31, and 29 exactly for February of a leap year |
| `Dates.AddMonths` | server/excel-calculator.ts:89-91 | `setMonth(getMonth() + k)` lands k months later on the same day, or rolls over into the next month by the overflow (at most 3 days) |
| `Dates.AddNoMonths` | server/excel-calculator.ts:89-91 | the first instalment falls on the first due date itself |
| `Dates.AddMonthsEarlyDay` | server/excel-calculator.ts:89-91 | a first due day up to the 28th keeps its day in every month |
| `Dates.MonthStepsDrift` | server/excel-calculator.ts:89-91 | a 31 January first due date rolls over to 3 March 2023, or to 2 March in the leap year 2024. Each instalment adds i-1 months to the first date, so the roll-over does not accumulate (31 March for i = 3) |
| `Dates.ParseIsoRoundTrip` | server/calculadora.ts:90 | `split('-').map(Number)` of the `YYYY-MM-DD` due date written by `toISOString().split('T')[0]` gives the date back |
| `Dates.MaturedIff` | server/calculadora.ts:73-75 | `dataVencimento + 'T00:00:00Z' < hoje` holds exactly for an earlier day, or for today once midnight UTC has passed |
| `Dates.PreviousMonth` | server/calculadora.ts:97-102 | the month before: January wraps to December of the year before, one month earlier in the month count |
| `Dates.LastDayOfMonth` | server/calculadora.ts:93-94 | the date looked up lies in the requested month |
| `Dates.LastDayOfMonthIsLast` | server/calculadora.ts:93-94 | that date is a valid date, and no day of the month comes after it |
| `Dates.IndexKeyIsIso` | server/calculadora.ts:94 | for a four-digit year the key string `${ano}-${mes}-${dia}` is the ISO form of the date |
| `Dates.Matured` | server/calculadora.ts:73-75 | whether a due date has matured: its UTC midnight lies strictly before now (stated by `Dates.MaturedIff`) |
| `Dates.IsoDate` | server/excel-calculator.ts:96 | `toISOString().split('T')[0]`: zero-padded year, month and day joined by dashes; `Dates.ParseIsoRoundTrip` reads it back |
| `Dates.ParseIsoDate` | server/calculadora.ts:90 | `split('-').map(Number)` destructured into year, month and day, or nothing when a piece is missing or not a number; it inverts `Dates.IsoDate` (`Dates.ParseIsoRoundTrip`) |
| `Dates.IndexDateKey` | server/calculadora.ts:94 | the lookup key: the unpadded year, then month and day padded to two digits; equal to the ISO form for four-digit years (`Dates.IndexKeyIsIso`) |
| `Text.Split` | client/src/components/TabelaComparativa.tsx:61 | `split` yields at least one piece, none containing the separator |
| `Text.JoinSplit` | client/src/components/TabelaComparativa.tsx:61 | joining the pieces with the separator rebuilds the string |
| `Text.Join` | client/src/components/TabelaComparativa.tsx:61 | the inverse of `split`: pieces joined with the separator between them; the source never joins, it is what `Text.JoinSplit` states the round trip with |
| `Text.SplitAtSeparator` | client/src/components/TabelaComparativa.tsx:61 | splitting `a + sep + b` with a separator-free `a` gives `a` and then the pieces of `b` |
| `Text.NatToString` | server/calculadora.ts:94 | `String(n)` is a non-empty string of decimal digits |
| `Text.IntToString` | server/calculadora.ts:94 | `${ano}` for a year: a minus sign before the digits of a negative one, the digits of `Text.NatToString` otherwise |
| `Text.NumberOf` | server/calculadora.ts:90 | `Number(s)` on unsigned decimal digit strings only, with the empty string read as 0; any other string is read as nothing (see Left out). Reading back a padded `String(n)` gives n (`Text.PaddedNatRoundTrip`) |
| `Text.PadZeros` | server/calculadora.ts:94 | `padStart(width, '0')` is at least `width` long, ends with the original and is all zeros before it |
| `Text.PaddedNatRoundTrip` | server/calculadora.ts:90 | `Number` of a zero-padded decimal string is the number it was written from |
| `Text.Trim` | client/src/pages/Contratacao.tsx:63-71 | `trim` removes the white space at both ends; empty exactly when the string is all white space (`Text.BlankIffAllWhitespace`) |
| `Text.IsBlank` | client/src/pages/Contratacao.tsx:63-71 | `!s.trim()`: holds exactly when every character is white space (`Text.BlankIffAllWhitespace`) |
| `Text.BlankIffAllWhitespace` | client/src/pages/Contratacao.tsx:63-71 | `!s.trim()` holds exactly when every character of s is white space |
| `PriceSchedule.AnnuityClosedForm` | server/excel-calculator.ts:24-27 | the sum of the discount factors times taxa·(1+taxa)^n is (1+taxa)^n − 1, the identity behind the PMT formula |
| `PriceSchedule.AnnuityAtZeroRate` | server/excel-calculator.ts:20-22 | at rate 0 the annuity factor of n payments is n |
| `PriceSchedule.PmtRepaysBalance` | server/excel-calculator.ts:19-28 | `calcularPMT` returns the payment whose n discounted instalments are worth exactly the balance, at every rate above -100% |
| `PriceSchedule.PmtAtZeroRate` | server/excel-calculator.ts:20-22 | at rate 0, n payments of `saldo / n` add up to the balance |
| `PriceSchedule.PmtAtNonzeroRate` | server/excel-calculator.ts:24-27 | the closed formula `saldo·(1+t)^n·t / ((1+t)^n − 1)` repays the balance |
| `PriceSchedule.PmtOfLastInstallment` | server/excel-calculator.ts:19-28 | with one instalment left the payment is the balance plus one month of interest |
| `PriceSchedule.CalcularPmt` | server/excel-calculator.ts:19-28 | `calcularPMT`: `saldo / n` at rate 0, the closed annuity formula otherwise; its n discounted payments are worth the balance (`PriceSchedule.PmtRepaysBalance`) |
| `PriceSchedule.RecomputedPmtIsConstant` | server/excel-calculator.ts:75-78 | recomputing PMT over the remaining months from a balance worth p per month gives p again |
| `PriceSchedule.PresentValueDetermines` | server/excel-calculator.ts:19-28 | two payments with the same present value over m months are equal |
| `PriceSchedule.PriceMonthlyRate` | server/excel-calculator.ts:51-58 | a monthly rate is used as given, and the converted annual rate stays above -100% |
| `PriceSchedule.PriceBalanceStep` | server/excel-calculator.ts:84-87 | each row's balance is the previous balance minus the row's amortization |
| `PriceSchedule.PricePayment` | server/excel-calculator.ts:75-78 | the payment of row i, PMT of the carried balance over the instalments left; the same for every row (`PriceSchedule.PriceFixedPayment`) |
| `PriceSchedule.PriceInterest` | server/excel-calculator.ts:80-81 | the interest of row i, the carried balance times the monthly rate; with the amortization it makes up the payment (`PriceSchedule.PriceRowWithinACent`) |
| `PriceSchedule.PriceAmortization` | server/excel-calculator.ts:83-84 | payment minus interest; the amortizations sum to the financed amount (`PriceSchedule.PriceAmortizationsRepayFinanced`) |
| `PriceSchedule.PriceBalance` | server/excel-calculator.ts:86-87 | the unrounded balance after k rows, falling by each amortization (`PriceSchedule.PriceBalanceStep`) to 0 (`PriceSchedule.PriceFinalBalanceZero`) |
| `PriceSchedule.PriceRow` | server/excel-calculator.ts:94-101 | the row as pushed: number i, due i-1 months after the first date, and interest, amortization, payment and balance each rounded to cents on its own; the rounded payment is within a cent of the rounded parts (`PriceSchedule.PriceRowWithinACent`) |
| `PriceSchedule.PriceRows` | server/excel-calculator.ts:70-105 | the first k rows are, in order, rows 1..k of the schedule |
| `PriceSchedule.PriceSchedule` | server/excel-calculator.ts:70-101 | one row per instalment, numbered from 1, due `i-1` months after the first due date |
| `PriceSchedule.PriceRowsStep` | server/excel-calculator.ts:75-104 | one loop iteration appends row i and carries the unrounded balance to the next |
| `PriceSchedule.PriceRowParts` | server/excel-calculator.ts:75-87 | the loop's payment, interest, amortization and new balance are the row's values in the schedule |
| `PriceSchedule.CalcularPriceComExcel` | server/excel-calculator.ts:38-108 | the method returns exactly the Price schedule of the financed amount `valorImovel - entrada` at the monthly rate |
| `PriceSchedule.PriceBalanceIsPresentValue` | server/excel-calculator.ts:70-105 | after k rows the balance is the present value of the n − k remaining original payments |
| `PriceSchedule.NextBalanceKeepsPresentValue` | server/excel-calculator.ts:78-87 | one payment moves the balance from the present value of m payments to that of m − 1 |
| `PriceSchedule.PriceFixedPayment` | server/excel-calculator.ts:75-99 | although PMT is recomputed every month, every instalment pays the same amount, the first month's PMT |
| `PriceSchedule.PriceFinalBalanceZero` | server/excel-calculator.ts:84-100 | the last row amortizes the whole remaining balance and leaves a stored balance of 0 |
| `PriceSchedule.PriceAmortizationsTelescope` | server/excel-calculator.ts:84-87 | the first k amortizations add up to the financed amount minus the balance after k rows |
| `PriceSchedule.PriceAmortizationsRepayFinanced` | server/excel-calculator.ts:48 | all the amortizations together repay exactly the financed amount |
| `PriceSchedule.PriceRowWithinACent` | server/excel-calculator.ts:97-99 | in each stored row the rounded payment differs from rounded interest plus rounded amortization by at most a cent |
| `MqjsSchedule.MqjsMonthlyRate` | server/mqjs-calculator.ts:34-46 | the monthly rate never exceeds the 1% cap, is either the cap or the converted rate, and is positive for a positive input |
| `MqjsSchedule.MqjsUncappedRate` | server/mqjs-calculator.ts:34-41 | the rate before the cap: an annual rate divided by 12, a monthly rate as given (`MqjsSchedule.MqjsRateWithinCap`) |
| `MqjsSchedule.MqjsRateWithinCap` | server/mqjs-calculator.ts:34-46 | a monthly rate up to 1% is used as given; an annual rate up to 12% is divided by 12; larger rates are capped at 1% |
| `MqjsSchedule.MqjsRateMonotonic` | server/mqjs-calculator.ts:34-46 | a higher contracted rate never gives a lower monthly rate |
| `MqjsSchedule.Fva` | server/mqjs-calculator.ts:60 | each FVA lies in (0, 1], strictly below 1 at a positive rate |
| `MqjsSchedule.FvaGrowsToOne` | server/mqjs-calculator.ts:60 | FVA is the reciprocal of simple interest growth: FVA·(1 + taxa·i) = 1 |
| `MqjsSchedule.FvaDecreasing` | server/mqjs-calculator.ts:60 | at a positive rate, later instalments have smaller FVAs |
| `MqjsSchedule.Fvas` | server/mqjs-calculator.ts:58-63 | the `fvas` array holds FVA(1..k) in order |
| `MqjsSchedule.FvaSumIsSumOfFvas` | server/mqjs-calculator.ts:58-63 | `somaFVAs` is the sum of the `fvas` array |
| `MqjsSchedule.SomarFvas` | server/mqjs-calculator.ts:55-63 | the first loop builds exactly the FVA array and its sum |
| `MqjsSchedule.MqjsPaymentRepays` | server/mqjs-calculator.ts:66 | the payment `valorFinanciado / somaFVAs` times `somaFVAs` is the financed amount (the identity of the division; the repayment itself is `MqjsAmortizationsRepayFinanced`) |
| `MqjsSchedule.MqjsPayment` | server/mqjs-calculator.ts:66 | `valorFinanciado / somaFVAs`, the fixed payment; positive for a positive financed amount (`MqjsSchedule.MqjsPaymentPositive`) |
| `MqjsSchedule.MqjsAmortization` | server/mqjs-calculator.ts:72-75 | `fva * valorParcela` for row i; the amortizations decrease (`MqjsSchedule.MqjsAmortizationDecreasing`) and sum to the financed amount (`MqjsSchedule.MqjsAmortizationsRepayFinanced`) |
| `MqjsSchedule.MqjsInterest` | server/mqjs-calculator.ts:78 | payment minus amortization; positive and below the payment (`MqjsSchedule.MqjsInterestPositive`) |
| `MqjsSchedule.MqjsBalance` | server/mqjs-calculator.ts:81 | the unrounded balance after k rows: financed minus payment times the first k factors (`MqjsSchedule.MqjsBalanceClosedForm`), 0 at the end (`MqjsSchedule.MqjsFinalBalanceZero`) |
| `MqjsSchedule.MqjsRow` | server/mqjs-calculator.ts:84-95 | the row as pushed: number i, due i-1 months after the first date, and the four amounts each rounded to cents; the rounded payment is within a cent of the rounded parts (`MqjsSchedule.MqjsRowWithinACent`) |
| `MqjsSchedule.MqjsBalanceStep` | server/mqjs-calculator.ts:81 | each row's balance is the previous balance minus the row's amortization |
| `MqjsSchedule.MqjsRowsAt` | server/mqjs-calculator.ts:71-99 | row j of the first k rows is the schedule's row j + 1 |
| `MqjsSchedule.MqjsScheduleShape` | server/mqjs-calculator.ts:84-90 | rows are numbered from 1 and due `i-1` months after the first due date |
| `MqjsSchedule.MqjsSchedule` | server/mqjs-calculator.ts:21-102 | the MQJS schedule: n rows with the same payment, numbered 1..n (`MqjsSchedule.MqjsScheduleShape`), repaying the financed amount (`MqjsSchedule.MqjsAmortizationsRepayFinanced`) |
| `MqjsSchedule.MqjsRowsStep` | server/mqjs-calculator.ts:72-98 | one loop iteration appends row i and carries the unrounded balance |
| `MqjsSchedule.GerarParcelas` | server/mqjs-calculator.ts:69-99 | the second loop builds exactly the MQJS rows from the FVA array and the fixed payment |
| `MqjsSchedule.CalcularMqjsComExcel` | server/mqjs-calculator.ts:21-102 | the method returns exactly the MQJS schedule of `valorImovel - entrada` at the capped monthly rate |
| `MqjsSchedule.MqjsBalanceClosedForm` | server/mqjs-calculator.ts:75-81 | after k rows the balance is the financed amount minus payment × (sum of the first k FVAs) |
| `MqjsSchedule.MqjsFinalBalanceZero` | server/mqjs-calculator.ts:81-94 | the last row leaves a balance of 0 |
| `MqjsSchedule.MqjsAmortizationsTelescope` | server/mqjs-calculator.ts:75-81 | the first k amortizations add up to the financed amount minus the balance after k rows |
| `MqjsSchedule.MqjsAmortizationsRepayFinanced` | server/mqjs-calculator.ts:31 | all the amortizations together repay exactly the financed amount |
| `MqjsSchedule.MqjsFixedPayment` | server/mqjs-calculator.ts:66-93 | every row shows the same rounded payment |
| `MqjsSchedule.MqjsPaymentPositive` | server/mqjs-calculator.ts:66 | a positive financed amount gives a positive payment |
| `MqjsSchedule.MqjsAmortizationDecreasing` | server/mqjs-calculator.ts:75-78 | at a positive rate later rows amortize less and pay more interest |
| `MqjsSchedule.MqjsInterestPositive` | server/mqjs-calculator.ts:78 | at a positive rate every row's interest is positive and below the payment |
| `MqjsSchedule.MqjsRowWithinACent` | server/mqjs-calculator.ts:91-93 | in each stored row the rounded payment differs from rounded interest plus rounded amortization by at most a cent |
| `Correction.MonthEnds` | server/calculadora.ts:90-105 | the two dates looked up are valid: the last day of the due month and the last day of the month before it |
| `Correction.EndOfDueMonth` | server/calculadora.ts:93-94 | the date whose index closes the due month, its last day (`Correction.MonthEnds`) |
| `Correction.EndOfPreviousMonth` | server/calculadora.ts:97-105 | the date whose index opens the due month, the last day of the month before, wrapping in January (`Correction.MonthEnds`, `Correction.EndOfPreviousMonthWraps`) |
| `Correction.EndOfPreviousMonthWraps` | server/calculadora.ts:97-102 | for a January due date the opening index is the one of 31 December of the previous year |
| `Correction.LookupKeysAreIso` | server/calculadora.ts:94-109 | for four-digit years both lookup keys are the ISO dates of the two month ends |
| `Correction.MonthlyVariation` | server/calculadora.ts:89-116 | a monthly variation exists exactly when the instalment matured and both month-end indices are in the table |
| `Correction.Contribution` | server/calculadora.ts:108-117 | what one row adds to `percentualAcumulado`: its monthly variation fim/inicio - 1, or 0; non-negative under non-decreasing indices (`Correction.ContributionNonNegative`) |
| `Correction.Accumulated` | server/calculadora.ts:108-117 | the running percentage after k rows, starting at 0 and changing only on corrected rows (`Correction.AccumulatorChangesOnlyOnCorrection`, `Correction.AccumulatedMonotonic`) |
| `Correction.PercentWithTwoDecimals` | server/calculadora.ts:124 | `valorCorrecao` is the accumulated percentage rounded to two decimals |
| `Correction.CorrectionOf` | server/calculadora.ts:119-130 | the six correction fields of a corrected row; the corrected payment is within a cent of valor·(1+acc) (`Correction.CorrectedPaymentWithinACent`), and 0% changes nothing (`Correction.ZeroCorrectionIsIdentity`) |
| `Correction.CorrectedRow` | server/calculadora.ts:89-131 | one row of the loop: the base fields kept, correction fields exactly when matured and both indices found (`Correction.CorrectionFieldsIff`) |
| `Correction.CorrectedRows` | server/calculadora.ts:66-137 | the corrected schedule has one row per instalment |
| `Correction.CorrectedRowsAt` | server/calculadora.ts:69-134 | row j is instalment j corrected with the percentage accumulated over instalments 0..j |
| `Correction.CorrectionStep` | server/calculadora.ts:69-134 | one loop iteration adds the instalment's variation to the accumulator and appends its corrected row |
| `Correction.LoopMonthEnds` | server/calculadora.ts:90-105 | the dates the loop computes inline are the two month ends |
| `Correction.CorrigirParcela` | server/calculadora.ts:70-131 | the body of the loop for one instalment: the new accumulator and the corrected row |
| `Correction.AplicarCorrecao` | server/calculadora.ts:66-137 | the correction loop returns exactly the corrected schedule |
| `Correction.CorrectionKeepsSchedule` | server/calculadora.ts:77-86 | the correction never alters the six base fields, and every row records the index and whether it matured |
| `Correction.CorrectionFieldsIff` | server/calculadora.ts:89-123 | a row carries correction fields exactly when it matured and both lookups succeed; it then holds the closing index and the running percentage |
| `Correction.AccumulatorChangesOnlyOnCorrection` | server/calculadora.ts:66-117 | the percentage starts at 0 and changes only on a corrected row, by `fim / inicio - 1` |
| `Correction.AccumulatedMonotonic` | server/calculadora.ts:113-117 | with non-decreasing indices the accumulated percentage is non-negative and never decreases along the schedule |
| `Correction.ContributionNonNegative` | server/calculadora.ts:116 | with non-decreasing indices each monthly variation is non-negative |
| `Correction.CorrectedPaymentWithinACent` | server/calculadora.ts:127-128 | the corrected payment is within a cent of `valor × (1 + percentual)` |
| `Correction.ZeroCorrectionIsIdentity` | server/calculadora.ts:124-130 | with a 0% accumulated correction the corrected amounts equal the stored ones, and the correction is 0 |
| `Correction.SemCorrecao` | server/calculadora.ts:54-63 | without an index each row is the original instalment with no correction fields |
| `Correction.Corrigir` | server/calculadora.ts:53-137 | no index: the schedule unchanged; an index: the corrected schedule |
| `Calculadora.PriceDueDatesValid` | server/excel-calculator.ts:89-96 | every Price due date is a calendar date |
| `Calculadora.MqjsDueDatesValid` | server/mqjs-calculator.ts:83-90 | every MQJS due date is a calendar date |
| `Calculadora.CalcularPrice` | server/calculadora.ts:33-138 | `calcularPrice` is the Price schedule, corrected when an index is chosen |
| `Calculadora.CalcularMqjs` | server/calculadora.ts:143-248 | `calcularMQJS` is the MQJS schedule, corrected the same way |
| `Calculadora.ValorAtualizado` | server/calculadora.ts:273-274 | `valorParcelaCorrigida \|\| valor`: the corrected payment when present and non-zero, else the original |
| `Calculadora.CompararParcela` | server/calculadora.ts:270-288 | one comparison: the two updated payments, their difference and percentage, the Price row's number and date (`Calculadora.ComparisonMeaning`) |
| `Calculadora.LinhasExibidas` | server/calculadora.ts:267 | `Math.min(paid \|\| length, length)`: the whole schedule when the paid count is 0, otherwise at most the paid count |
| `Calculadora.ComparisonMeaning` | server/calculadora.ts:270-288 | each comparison is Price = MQJS + difference, and MQJS·(1 + % / 100) = Price when MQJS is positive, else % = 0 |
| `Calculadora.PercentOfDifference` | server/calculadora.ts:278-279 | the percentage read back reproduces the Price payment |
| `Calculadora.Comparacoes` | server/calculadora.ts:269-289 | comparison i compares instalment i of both schedules |
| `Calculadora.DiferencaParcelasPagas` | server/calculadora.ts:266-291 | as written: the call throws exactly when the MQJS schedule is shorter than the rows compared |
| `Calculadora.CalcularDiferencaParcelasPagas` | server/calculadora.ts:253-292 | the loop returns the comparisons, or throws at the first missing MQJS row |
| `Calculadora.ShorterMqjsThrows` | server/calculadora.ts:267-274 | two Price rows, one MQJS row and no paid count read past the MQJS schedule |
| `Calculadora.DiferencaParcelasPagasLimitada` | server/calculadora.ts:266-291 | the corrected comparison stops at the shorter schedule, and agrees with the original whenever that one succeeds |
| `Calculadora.SameLengthNeverThrows` | server/calculadora.ts:267-274 | schedules of equal length (as the server builds them) never throw |
| `TabelaComparativa.ParcelasParaMostrar` | client/src/components/TabelaComparativa.tsx:33-35 | a positive paid count is capped at the Price length, otherwise every Price row is compared |
| `TabelaComparativa.ParcelasPagas` | client/src/components/TabelaComparativa.tsx:24 | the `= 0` default of the paid-count property; without it the panel totals the whole schedule (`TabelaComparativa.DefaultCoversWholeSchedule`) |
| `TabelaComparativa.TotalDiferenca` | client/src/components/TabelaComparativa.tsx:37-45 | the effect's running total, skipping positions without an MQJS row; it is ΣPrice − ΣMQJS over the shared positions (`TabelaComparativa.TotalIsDifferenceOfSums`) |
| `TabelaComparativa.ProximaParcela` | client/src/components/TabelaComparativa.tsx:50-55 | the next instalment chosen by the effect: the first unpaid MQJS row, or the previous choice (`TabelaComparativa.NextIsFirstUnpaid`) |
| `TabelaComparativa.FormatarData` | client/src/components/TabelaComparativa.tsx:59-66 | `formatarData`: `a-b-c` becomes `c/b/a` (`TabelaComparativa.FormatarDataReorders`, `TabelaComparativa.FormatarIsoDate`) |
| `TabelaComparativa.DefaultCoversWholeSchedule` | client/src/components/TabelaComparativa.tsx:24 | without the paid-count property the whole Price schedule is compared |
| `TabelaComparativa.TotalIsDifferenceOfSums` | client/src/components/TabelaComparativa.tsx:37-45 | the total is the Price payments minus the MQJS payments over the positions both schedules have |
| `TabelaComparativa.NextIsFirstUnpaid` | client/src/components/TabelaComparativa.tsx:50-55 | the next instalment shown is MQJS row `paid` when it exists; otherwise the previous choice stays |
| `TabelaComparativa.Resumo.constructor` | client/src/components/TabelaComparativa.tsx:27-28 | the total starts at 0 and no instalment is shown |
| `TabelaComparativa.Resumo.Atualizar` | client/src/components/TabelaComparativa.tsx:30-56 | the effect sets the total of the compared positions and the next instalment |
| `TabelaComparativa.FormatarDataReorders` | client/src/components/TabelaComparativa.tsx:59-62 | `a-b-c` is shown as `c/b/a` |
| `TabelaComparativa.FormatarIsoDate` | client/src/components/TabelaComparativa.tsx:59-62 | a `YYYY-MM-DD` due date is shown as `DD/MM/YYYY` |
| `TabelaParcelas.ParcelasExibidas` | client/src/components/TabelaParcelas.tsx:36 | `slice(0, filtroMeses)`: the first rows, as many as the filter and the schedule allow |
| `TabelaParcelas.ValorCorrigido` | client/src/components/TabelaParcelas.tsx:254-256 | a matured row with a non-zero corrected payment shows it; every other row shows the original payment |
| `TabelaParcelas.Total` | client/src/components/TabelaParcelas.tsx:51-53 | a `reduce` total of one column; the corrected total is the paid total plus the correction total (`TabelaParcelas.TotalCorrigidoIsPagoPlusCorrecao`) |
| `TabelaParcelas.CorrecaoDaParcela` | client/src/components/TabelaParcelas.tsx:55-60 | what `totalCorrecao` adds for a row; corrected value = original + this (`TabelaParcelas.CorrectedIsOriginalPlusCorrection`) |
| `TabelaParcelas.Vencida` | client/src/components/TabelaParcelas.tsx:54-56 | the `estaVencida` guard, true only when the field is true (`TabelaParcelas.CorrectedIsOriginalPlusCorrection`) |
| `TabelaParcelas.TemValorCorrigido` | client/src/components/TabelaParcelas.tsx:54-56 | the `valorParcelaCorrigida` truthiness guard: present and not 0 (`TabelaParcelas.CorrectedIsOriginalPlusCorrection`) |
| `TabelaParcelas.TemCorrecao` | client/src/components/TabelaParcelas.tsx:62 | `some(p => p.indiceAcumulado !== undefined)` (`TabelaParcelas.TemCorrecaoIff`) |
| `TabelaParcelas.LinhaDe` | client/src/components/TabelaParcelas.tsx:66-84 | the export row of one instalment, all columns (`TabelaParcelas.ExportRow`) |
| `TabelaParcelas.CorrectedIsOriginalPlusCorrection` | client/src/components/TabelaParcelas.tsx:54-60 | per row, the value added to the corrected total is the original plus the value added to the correction total |
| `TabelaParcelas.TotalCorrigidoIsPagoPlusCorrecao` | client/src/components/TabelaParcelas.tsx:53-60 | corrected total = original total + correction total |
| `TabelaParcelas.ParcelasCorrigidas` | client/src/components/TabelaParcelas.tsx:324 | the corrected-row count never exceeds the row count |
| `TabelaParcelas.TemCorrecaoIff` | client/src/components/TabelaParcelas.tsx:62 | `some` holds exactly when some row was corrected, exactly when the count is positive |
| `TabelaParcelas.LinhasDasParcelas` | client/src/components/TabelaParcelas.tsx:66-84 | one export row per instalment, in order |
| `TabelaParcelas.Exportacao` | client/src/components/TabelaParcelas.tsx:66-102 | the export has one row more than the schedule |
| `TabelaParcelas.ExportRow` | client/src/components/TabelaParcelas.tsx:66-84 | export row i shows instalment i: number, due date, interest, amortization, original value and balance, its corrected value as on screen, and the accumulated index and correction percentage exactly when corrected |
| `TabelaParcelas.ExportTotalsMatchColumns` | client/src/components/TabelaParcelas.tsx:87-100 | the TOTAL row's four amounts are the sums of the columns above it, with correction columns exactly when some row was corrected |
| `CalculadoraRevisional.Minus` | client/src/components/CalculadoraRevisional.tsx:133 | subtraction propagates NaN; otherwise it is the difference |
| `CalculadoraRevisional.Dispara` | client/src/components/CalculadoraRevisional.tsx:109-138 | the condition under which each of the five checks rejects the form (`CalculadoraRevisional.AcceptedIffNoCheckFires`, `CalculadoraRevisional.RejectsWithFirstFiringCheck`) |
| `CalculadoraRevisional.Mensagem` | client/src/components/CalculadoraRevisional.tsx:109-135 | the toast text of each of the five checks, the one shown being that of the first check that fires (`CalculadoraRevisional.RejectsWithFirstFiringCheck`) |
| `CalculadoraRevisional.ParametrosDe` | client/src/components/CalculadoraRevisional.tsx:140-155 | the `params` record; what it carries is stated by `CalculadoraRevisional.Validar` |
| `CalculadoraRevisional.IndiceEscolhido` | client/src/components/CalculadoraRevisional.tsx:142-144 | no index when none is chosen or "nenhum" is; otherwise the chosen one |
| `CalculadoraRevisional.Validar` | client/src/components/CalculadoraRevisional.tsx:102-155 | accepted parameters carry the typed values, the rate divided by 100, a positive financed amount and the annual flag |
| `CalculadoraRevisional.AcceptedIffNoCheckFires` | client/src/components/CalculadoraRevisional.tsx:109-138 | the form is accepted exactly when none of the five checks fires |
| `CalculadoraRevisional.RejectsWithFirstFiringCheck` | client/src/components/CalculadoraRevisional.tsx:109-138 | a rejection reports exactly the first check, in source order, that fires |
| `CalculadoraRevisional.ZeroEntradaAccepted` | client/src/components/CalculadoraRevisional.tsx:115-119 | a zero down payment passes; a negative one fails |
| `CalculadoraRevisional.NaNCountPasses` | client/src/components/CalculadoraRevisional.tsx:105-131 | an unparsable instalment count is NaN, and `NaN <= 0` is false, so an otherwise valid form is accepted with a NaN count |
| `CalculadoraRevisional.PaidCountNeverReachesPanel` | client/src/components/CalculadoraRevisional.tsx:146-155 | the typed paid count changes nothing in the parameters, and the panel, given no count through `queryParams?.quantidadeParcelasPagas`, totals the whole Price schedule (see Findings) |
| `CalculadoraRevisional.PagasDoPainel` | client/src/components/CalculadoraRevisional.tsx:349 | `queryParams?.quantidadeParcelasPagas` on a record without that property: always undefined (`CalculadoraRevisional.PaidCountNeverReachesPanel`) |
| `CalculadoraRevisional.PagasInformadas` | client/src/components/CalculadoraRevisional.tsx:305-316 | the paid count the field evidently means to pass on: the value of the typed digits, 0 for a blank field, none when the field is absent or the text is not an unsigned digit string |
| `CalculadoraRevisional.IntendedPaidCountReachesPanel` | client/src/components/CalculadoraRevisional.tsx:305-316 | carried to the panel, a typed n totals the first n instalments, all of them for 0 or n at least the length, as the help text says |
| `CalculadoraRevisional.Calculadora.constructor` | client/src/components/CalculadoraRevisional.tsx:49-52 | no results, not loading, no parameters |
| `CalculadoraRevisional.Calculadora.OnSubmit` | client/src/components/CalculadoraRevisional.tsx:96-161 | both results are cleared. A rejected form shows its message and stops loading. An accepted one stores the parameters and sends the Price then the MQJS request |
| `CalculadoraRevisional.Calculadora.PriceConcluido` | client/src/components/CalculadoraRevisional.tsx:55-58 | the Price result is stored; loading goes on |
| `CalculadoraRevisional.Calculadora.MqjsConcluido` | client/src/components/CalculadoraRevisional.tsx:67-71 | the MQJS result is stored and loading stops |
| `CalculadoraRevisional.Calculadora.PedidoFalhou` | client/src/components/CalculadoraRevisional.tsx:59-76 | a failed request shows its method's message and stops loading |
| `Contratacao.AllCamposComplete` | client/src/pages/Contratacao.tsx:26-41 | the initial state lists every field |
| `Contratacao.DadosIniciais` | client/src/pages/Contratacao.tsx:26-41 | every field starts as "" |
| `Contratacao.VerificarEntry` | client/src/pages/Contratacao.tsx:63-71 | one check touches only its own field, and sets that field's message when it is blank |
| `Contratacao.Verificar` | client/src/pages/Contratacao.tsx:63-71 | one `if (!x.trim()) novosErros.x = ...` line (`Contratacao.VerificarEntry`) |
| `Contratacao.Obrigatorio` | client/src/pages/Contratacao.tsx:63-71 | the nine fields the validation checks; the other five are optional (`Contratacao.RequiredMeansChecked`, `Contratacao.ErrorsAreBlankRequiredFields`) |
| `Contratacao.MensagemObrigatorio` | client/src/pages/Contratacao.tsx:63-71 | the message of each required field, non-empty (`Contratacao.ErrorsAreBlankRequiredFields`) |
| `Contratacao.ErrosDoFormulario` | client/src/pages/Contratacao.tsx:60-73 | the errors of the nine checks (`Contratacao.ErrorsAreBlankRequiredFields`, `Contratacao.ValidIffRequiredFieldsFilled`) |
| `Contratacao.RequiredMeansChecked` | client/src/pages/Contratacao.tsx:63-71 | the checked fields are exactly the nine required ones |
| `Contratacao.ErrosDeEntries` | client/src/pages/Contratacao.tsx:61-71 | after some checks, exactly the blank fields among those checked carry their message |
| `Contratacao.ErrorsAreBlankRequiredFields` | client/src/pages/Contratacao.tsx:60-73 | a field errs exactly when it is required and blank, with its own non-empty message; optional fields never err |
| `Contratacao.ValidIffRequiredFieldsFilled` | client/src/pages/Contratacao.tsx:60-74 | the form passes exactly when every required field has a non-white-space character |
| `Contratacao.Formulario.constructor` | client/src/pages/Contratacao.tsx:26-43 | empty fields, no errors, nothing stored |
| `Contratacao.Formulario.HandleClienteChange` | client/src/pages/Contratacao.tsx:45-58 | the edited field takes the value, and its error is blanked only if one was showing; everything else stays |
| `Contratacao.Formulario.ExigirCampo` | client/src/pages/Contratacao.tsx:63-71 | one line of the validation extends the errors by one checked field |
| `Contratacao.Formulario.ValidarFormulario` | client/src/pages/Contratacao.tsx:60-75 | the errors are replaced by those of the nine checks; the result is true exactly when there are none |
| `Contratacao.Formulario.HandleProxima` | client/src/pages/Contratacao.tsx:77-83 | only a valid form is stored, and then the page moves to the documents step |
| `ContratacaoDocumentos.Filtrar` | client/src/pages/ContratacaoDocumentos.tsx:60 | `filter` keeps only members that satisfy the predicate and never grows the list |
| `ContratacaoDocumentos.DocumentosIniciais` | client/src/pages/ContratacaoDocumentos.tsx:35-43 | the seven initial documents (`ContratacaoDocumentos.InitialShape`) |
| `ContratacaoDocumentos.ValidarDocumentos` | client/src/pages/ContratacaoDocumentos.tsx:59-62 | `filter(obrigatorio).every(arquivo !== null)` (`ContratacaoDocumentos.ValidIffMandatoryAttached`) |
| `ContratacaoDocumentos.InitialShape` | client/src/pages/ContratacaoDocumentos.tsx:35-43 | seven documents, none attached, the first four mandatory |
| `ContratacaoDocumentos.InitialDocuments` | client/src/pages/ContratacaoDocumentos.tsx:35-62 | four documents are mandatory, so the initial list fails validation |
| `ContratacaoDocumentos.ValidStep` | client/src/pages/ContratacaoDocumentos.tsx:59-62 | the list passes when its head is not a missing mandatory document and its tail passes |
| `ContratacaoDocumentos.ValidIffMandatoryAttached` | client/src/pages/ContratacaoDocumentos.tsx:59-62 | validation passes exactly when every mandatory document has a file; optional ones do not matter |
| `ContratacaoDocumentos.MandatoryCounts` | client/src/pages/ContratacaoDocumentos.tsx:286-287 | the "mandatory attached/mandatory" figures: at most all, and equal exactly when validation passes |
| `ContratacaoDocumentos.AttachedCount` | client/src/pages/ContratacaoDocumentos.tsx:281-287 | the attached count is at most the document count, and the mandatory attached count is at most the attached count |
| `ContratacaoDocumentos.NomeArquivo` | client/src/pages/ContratacaoDocumentos.tsx:75 | `d.arquivo?.name \|\| null`: the name of an attached file, null without a file or for an empty name |
| `ContratacaoDocumentos.Resumo` | client/src/pages/ContratacaoDocumentos.tsx:73-77 | one summary per document, in order, with its type, file name and mandatory flag |
| `ContratacaoDocumentos.Pagina.constructor` | client/src/pages/ContratacaoDocumentos.tsx:33-51 | the stored client data, if any, and the seven initial documents |
| `ContratacaoDocumentos.Pagina.HandleArquivoChange` | client/src/pages/ContratacaoDocumentos.tsx:53-57 | only the chosen document's file changes |
| `ContratacaoDocumentos.Pagina.HandleContinuar` | client/src/pages/ContratacaoDocumentos.tsx:64-81 | without every mandatory file: an alert and nothing saved; otherwise the summary is saved and the page moves to `/sucesso` |

## Left out

- Floating point. Amounts are exact reals, so IEEE-754 rounding in `Math.pow`, the divisions and the
  sums is not modelled. `Math.round` is modelled exactly on the real value (halves round up).
- NaN is modelled only where the form can produce it: the parsed form values in `CalculadoraRevisional`.
- `PriceSchedule.PriceMonthlyRate`: the annual-to-monthly conversion `(1 + r)^(1/12) - 1` takes the twelfth root
  as a parameter `twelfthRoot`. Its only requirement is that the root be positive. The model does not state
  that it is the real twelfth root.
- `MqjsSchedule.MqjsSchedule`: with zero instalments the source divides the financed amount by an empty
  sum of factors. The second loop runs no iteration and never uses that result, so the source returns the
  empty schedule, and so does the model. Price with zero instalments never calls `calcularPMT` and
  simply returns the empty schedule.
- `dataContrato` is accepted and ignored, as in the source.
- Due dates are `Date` triples read in UTC, not `YYYY-MM-DD` strings. The string form and its parse are
  related by `Dates.ParseIsoRoundTrip`.
- The host time zone, `toLocaleDateString`, `toLocaleString` (currency) and `toFixed` are left out.
- The index table (`getDailyIndex`, a database query) is a map keyed by index and date, with positive
  accumulated values. The key strings the source builds are `Dates.IndexDateKey`, related to the ISO form by
  `Dates.IndexKeyIsIso`.
- `new Date()` ("now") is a parameter `hoje`.
- `Correction.AplicarCorrecao`: the clock is read once per call, not once per row. The source reads
  `new Date()` again in every iteration (server/calculadora.ts:73 and :183), and each iteration awaits two
  database reads. So a due date whose UTC midnight passes while the loop runs counts as matured in the source
  for the later rows, while the model decides every row against the same instant. `Calculadora.CalcularPrice`
  and `Calculadora.CalcularMqjs` inherit this.
- The server's input checks in server/routers.ts are not part of this model. They check only the amounts,
  the rate (positive) and the instalment count (a positive integer). The first due date is any string.
- `Calculadora.CalcularPrice`, `Calculadora.CalcularMqjs` (and `PriceSchedule.CalcularPriceComExcel`,
  `MqjsSchedule.CalcularMqjsComExcel`): the model requires a valid first due date. An unparseable string
  becomes an Invalid Date (server/excel-calculator.ts:61, server/mqjs-calculator.ts:49), and the first
  `toISOString()` of a due date then throws a RangeError. That error path is not modelled.
- `Calculadora.LinhasExibidas`, `Calculadora.DiferencaParcelasPagas`, `TabelaComparativa.ParcelasPagas`: the paid
  count is an integer in the model. In the source it is a JavaScript number (server/calculadora.ts:256,
  client/src/components/TabelaComparativa.tsx:17), so a fractional count such as 2.5 is not modelled: the
  server loop would compare three rows, and the panel would read `parcelasMQJS[2.5]`, which is undefined.
- `CalculadoraRevisional.Calculadora.OnSubmit` follows the code as written: the paid count typed into the form
  never reaches the parameters or the panel (see Findings). The corrected count, `PagasInformadas`, is proved
  to reach the panel on its own; the handler does not use it.
- `CalculadoraRevisional.PagasInformadas` (and `Text.NumberOf`): only unsigned digit strings are read. Signed,
  fractional, exponent or space-padded text is read as no count, unlike JavaScript's `Number`, which gives -3
  for "-3", 2.5 for "2.5" and 7 for " 7 ", and 0 for text that is only white space. A typed "-3", for
  example, would leave the panel's previous next-instalment choice in place, while the model shows MQJS row 0.
- `parseFloat`/`parseInt` of the form's strings are not modelled. The form holds the parsed numbers, or NaN.
- The `try`/`catch` around `onSubmit` is not modelled. The network calls become request records appended
  to `pedidos`, and their outcome is one of the three handlers.
- React rendering, `localStorage`/JSON and the XLSX file write are left out. Stored values are fields.
  `alert`, `toast` and navigation are sequences of the texts and routes shown.
- `ContratacaoDocumentos.Pagina.HandleArquivoChange`: the index must be in range, because the source throws on
  a missing document. The source's shallow copy also writes the file into the same document object the old
  state holds; that aliasing is not modelled.
- The effect that loads the client data from storage is the page constructor's parameter.
- The spreadsheet export keeps dates and numbers as values. The `"TOTAL"` label, the empty cells and the
  ten- and two-decimal text of the correction columns are left out.
- The MQJS loop reads `fvas[i - 1]` from the first loop's array. The model reads the same value as
  `Fva(taxa, i)`, and `GerarParcelas` requires the array to be exactly those values.

## Findings

| source | as written | input that shows it | evidently intended | confidence | as-written member | corrected member |
|---|---|---|---|---|---|---|
| server/calculadora.ts:267-274 | the loop runs up to the paid count capped by the Price length only, and reads `parcelasMQJS[i].valorParcelaCorrigida` | Price schedule `[p, p]`, MQJS schedule `[p]`, paid count 0: `i = 1` reads `undefined.valorParcelaCorrigida` and throws a TypeError | compare only positions both schedules have (cap by the shorter one, as TabelaComparativa.tsx:41 does by skipping) | not executed | `Calculadora.DiferencaParcelasPagas` with `Calculadora.ShorterMqjsThrows` | `Calculadora.DiferencaParcelasPagasLimitada` |
| client/src/components/CalculadoraRevisional.tsx:146-155 | the parameter record leaves out the form's optional `quantidadeParcelasPagas` (declared at line 24, typed at lines 305-316), and the comparison panel is given `queryParams?.quantidadeParcelasPagas` (line 349), which is always undefined | any accepted form with "3" typed as the paid count and a 12-row Price schedule: the panel's default 0 applies and it totals all 12 rows | carry the parsed count in the parameters, so the panel totals the first 3 rows, as the field's help text (line 315) says | not executed | `CalculadoraRevisional.PaidCountNeverReachesPanel` | `CalculadoraRevisional.PagasInformadas` with `CalculadoraRevisional.IntendedPaidCountReachesPanel` |
