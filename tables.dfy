/** The relational store the controllers read and write: one table per entity.
    Tables that are only ever inserted into or updated in place by row are sequences in
    insertion order; the model gives each new row the id |table| + 1, its position plus one
    (an assumption of the model, not a guarantee of the store's auto-increment);
    tables whose rows are created outside this core are maps from their key. */
module Tables {
  import opened Wrappers
  import opened Money

  /** Calendar dates as day numbers; times of day are not modelled. */
  type Day = int
  type BookingId = int
  type ReferralId = int

  /** `booking_status`. Created stands for every status this core never writes. */
  datatype BookingStatus = Created | Advance | InProgress | Cancelled

  /** A row of `ksn_function_hall_bookings`, with the columns this core reads or writes. */
  datatype Booking = Booking(
    customerId: int,
    eventDay: Day,
    status: BookingStatus,
    balanceDueDay: Option<Day>,
    grossTotal: Paise,
    balanceAmount: Paise)

  /** A row of `ksn_function_hall_payments`. */
  datatype Payment = Payment(
    paymentId: nat,
    bookingId: BookingId,
    paymentType: string,
    paymentMethod: string,
    totalAmount: Paise,
    paidAmount: Paise,
    balanceAmount: Paise,
    balancePaidAmount: Option<Paise>,
    balancePaidDay: Option<Day>,
    balancePaidStatus: Option<string>,
    transactionStatus: string)

  /** A row of the cancellations table. */
  datatype Cancellation = Cancellation(
    cancellationId: nat,
    bookingId: BookingId,
    paymentId: nat,
    totalAmount: Paise,
    penaltyPercent: int,
    penaltyAmount: Paise,
    refundAmount: Paise)

  /** A row of `ksn_function_hall_referrals`. */
  datatype Referral = Referral(name: string, status: string)

  /** A row of `ksn_function_hall_referral_commission`. */
  datatype Commission = Commission(
    commissionId: nat,
    referralId: ReferralId,
    bookingId: BookingId,
    customerId: int,
    amount: Paise)

  /** Position of the first row that satisfies p: the row that a lookup keeping only
      the first result of `SELECT ... WHERE p` returns. */
  function FirstWhere<T>(rows: seq<T>, p: T -> bool): (r: Option<nat>)
    ensures r.Some? ==> r.value < |rows| && p(rows[r.value])
    ensures r.Some? ==> forall j :: 0 <= j < r.value ==> !p(rows[j])
    ensures r.None? ==> forall j :: 0 <= j < |rows| ==> !p(rows[j])
  {
    if |rows| == 0 then None
    else if p(rows[0]) then Some(0)
    else match FirstWhere(rows[1..], p)
      case None => None
      case Some(i) => Some(i + 1)
  }

  /** The payment row of a booking: the first row with that booking_id. */
  function PaymentOf(ps: seq<Payment>, id: BookingId): (r: Option<Payment>)
  {
    match FirstWhere(ps, (p: Payment) => p.bookingId == id)
    case None => None
    case Some(i) => Some(ps[i])
  }

  /** The cancellation record of a booking: the first row with that booking_id. */
  function CancellationOf(cs: seq<Cancellation>, id: BookingId): (r: Option<Cancellation>)
  {
    match FirstWhere(cs, (c: Cancellation) => c.bookingId == id)
    case None => None
    case Some(i) => Some(cs[i])
  }

  /** `UPDATE bookings SET booking_status = 'CANCELLED' WHERE booking_id IN (ids)`. */
  function CancelAll(bookings: map<BookingId, Booking>, ids: set<BookingId>): map<BookingId, Booking>
  {
    map id | id in bookings :: if id in ids then bookings[id].(status := Cancelled) else bookings[id]
  }

  /** Every payment row carries the model's id (its position plus one) and owes exactly what was not paid. */
  predicate PaymentsValid(ps: seq<Payment>)
  {
    forall i :: 0 <= i < |ps| ==>
      ps[i].paymentId == i + 1 && ps[i].paidAmount + ps[i].balanceAmount == ps[i].totalAmount
  }

  /** Every cancellation record splits the paid amount into penalty and refund. */
  predicate CancellationsValid(cs: seq<Cancellation>)
  {
    forall i :: 0 <= i < |cs| ==>
      cs[i].cancellationId == i + 1 && cs[i].penaltyAmount + cs[i].refundAmount == cs[i].totalAmount
  }

  predicate CommissionsValid(cs: seq<Commission>)
  {
    forall i :: 0 <= i < |cs| ==> cs[i].commissionId == i + 1
  }

  /** The database. Each controller operation is one sequential atomic step on it. */
  class Db {
    var bookings: map<BookingId, Booking>
    var payments: seq<Payment>
    var cancellations: seq<Cancellation>
    var referrals: map<ReferralId, Referral>
    var commissions: seq<Commission>

    ghost predicate Valid()
      reads this
    {
      PaymentsValid(payments) && CancellationsValid(cancellations) && CommissionsValid(commissions)
    }

    /** A store whose bookings and referrals were created outside this core. */
    constructor (bookings: map<BookingId, Booking>, referrals: map<ReferralId, Referral>)
      ensures Valid()
      ensures this.bookings == bookings && this.referrals == referrals
      ensures payments == [] && cancellations == [] && commissions == []
    {
      this.bookings := bookings;
      this.referrals := referrals;
      payments := [];
      cancellations := [];
      commissions := [];
    }
  }

  /** The first payment row of a booking is a row of that booking, no earlier row
      belongs to it, and there is none exactly when no row belongs to it. */
  lemma PaymentOfIsFirst(ps: seq<Payment>, id: BookingId)
    ensures PaymentOf(ps, id).None? <==> forall j :: 0 <= j < |ps| ==> ps[j].bookingId != id
    ensures PaymentOf(ps, id).Some? ==>
      exists i :: 0 <= i < |ps| && ps[i] == PaymentOf(ps, id).value && ps[i].bookingId == id &&
        forall j :: 0 <= j < i ==> ps[j].bookingId != id
  {
    var r := FirstWhere(ps, (p: Payment) => p.bookingId == id);
    if r.Some? {
      assert ps[r.value].bookingId == id;
    }
  }

  /** The same for the first cancellation record of a booking. */
  lemma CancellationOfIsFirst(cs: seq<Cancellation>, id: BookingId)
    ensures CancellationOf(cs, id).None? <==> forall j :: 0 <= j < |cs| ==> cs[j].bookingId != id
    ensures CancellationOf(cs, id).Some? ==>
      exists i :: 0 <= i < |cs| && cs[i] == CancellationOf(cs, id).value && cs[i].bookingId == id &&
        forall j :: 0 <= j < i ==> cs[j].bookingId != id
  {
    var r := FirstWhere(cs, (c: Cancellation) => c.bookingId == id);
    if r.Some? {
      assert cs[r.value].bookingId == id;
    }
  }

  /** Appending a row keeps the first row of a booking that already had one; for a
      booking without one, the appended row becomes its row when it belongs to it. */
  lemma CancellationOfAppend(cs: seq<Cancellation>, c: Cancellation, id: BookingId)
    ensures CancellationOf(cs, id).Some? ==> CancellationOf(cs + [c], id) == CancellationOf(cs, id)
    ensures CancellationOf(cs, id).None? && c.bookingId == id ==> CancellationOf(cs + [c], id) == Some(c)
    ensures CancellationOf(cs, id).None? && c.bookingId != id ==> CancellationOf(cs + [c], id) == None
  {
    var p := (x: Cancellation) => x.bookingId == id;
    var before := FirstWhere(cs, p);
    var after := FirstWhere(cs + [c], p);
    if before.Some? {
      assert (cs + [c])[before.value] == cs[before.value];
    } else if c.bookingId == id {
      assert p((cs + [c])[|cs|]);
    }
  }
}
