/**
 * The records the reconciliation reads and writes: cash-drawer shifts and
 * their events, accounts-payable invoices with their contacts, and the
 * payment objects built for submission.
 *
 * Money is held as integer cents throughout, so that the amount comparisons
 * of the matcher are exact equalities on integers.
 */
module Records {
  import opened Wrappers

  /** A calendar date, copied through from the shift's timestamp. */
  datatype Date = Date(year: int, month: int, day: int)

  /** A point in time: its calendar date and the time of day, in seconds. */
  datatype DateTime = DateTime(date: Date, secondsOfDay: int)

  /** The date part of a timestamp (chrono's `date_naive`). */
  function DateNaive(t: DateTime): Date
  {
    t.date
  }

  datatype ShiftState = Open | Closed | Ended

  datatype Shift = Shift(id: string, state: ShiftState, createdAt: DateTime)

  datatype ShiftEventType =
    | NoSale
    | CashTenderPayment
    | OtherTenderPayment
    | CashTenderCancelledPayment
    | OtherTenderCancelledPayment
    | CashTenderRefund
    | OtherTenderRefund
    | PaidIn
    | PaidOut

  /** An event's money: `amount` is in minor currency units (cents). */
  datatype ShiftEventMoney = ShiftEventMoney(amount: int, currency: string)

  datatype ShiftEvent = ShiftEvent(
    eventType: ShiftEventType,
    eventMoney: ShiftEventMoney,
    description: Option<string>)

  datatype InvoiceType = AccPay | AccRec

  datatype InvoiceStatus = Draft | Submitted | Authorised | Paid | Deleted | Voided

  datatype Contact = Contact(contactId: string, name: string)

  /**
   * An invoice of the ledger. `amountDue` and `amountPaid` are in cents,
   * that is, the ledger's decimal amounts already rounded to two places.
   */
  datatype Invoice = Invoice(
    invoiceType: InvoiceType,
    invoiceId: string,
    invoiceNumber: string,
    amountDue: int,
    amountPaid: int,
    contact: Contact,
    date: DateTime,
    dueDate: DateTime,
    status: InvoiceStatus)

  datatype PaymentRequestObjectInvoice = PaymentRequestObjectInvoice(invoiceId: string)

  datatype PaymentRequestObjectAccount = PaymentRequestObjectAccount(code: string)

  /** One payment to submit; `amount` is in cents. */
  datatype PaymentRequestObject = PaymentRequestObject(
    invoice: PaymentRequestObjectInvoice,
    account: PaymentRequestObjectAccount,
    date: Date,
    amount: int,
    reference: string)
}
