/** The row every schedule generator emits. */
module Schedule {
  import opened Dates

  /**
   * One instalment (`ParcelaInfo`): its 1-based number, its due date, and the
   * interest, amortisation, payment and remaining balance, each in cents.
   */
  datatype Installment = Installment(
    numero: int,
    dataVencimento: Date,
    juros: real,
    amortizacao: real,
    valor: real,
    saldo: real)
}
