/**
 * The value types of tmd.py: the frozen `Settlement` and `Payment` models,
 * the positional rows the history endpoint answers with, and the kinds of
 * failure a sync cycle can end with.
 */
module Entities {
  import opened Wrappers

  /** A calendar date; parsing the ISO text happens before it reaches the model. */
  datatype Date = Date(year: int, month: int, day: int)

  /** A billed item. `id` may be null (`None`); `value` is the positive amount owed. */
  datatype Settlement = Settlement(
    id: Option<int>,
    year: int,
    period: int,
    title: string,
    dueDate: Date,
    value: real)

  /** A recorded payment. */
  datatype Payment = Payment(date: Date, value: real)

  /**
   * One charge row `[dueDate, title, amount, period, id]` of the history
   * endpoint, fields in positional order 0..4; `amount` is negative for a charge.
   */
  datatype ChargeRecord = ChargeRecord(
    dueDate: Date,
    title: string,
    amount: real,
    period: int,
    id: Option<int>)

  /** One payment row `[date, amount]` of the history endpoint. */
  datatype PaymentRecord = PaymentRecord(date: Date, amount: real)

  /** One month entry of a yearly history answer: its charge rows (position 2) and payment rows (position 4). */
  datatype Month = Month(charges: seq<ChargeRecord>, payments: seq<PaymentRecord>)

  /** Why a cycle aborts: a rejected login, a non-success HTTP status, or an answer of the wrong shape. */
  datatype Error = AuthError | TransportError | DecodingError
}
