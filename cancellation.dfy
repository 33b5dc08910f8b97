/** The cancellation controller: explicit cancellation of a booking with a penalty taken
    from the cancellation rules, and the lookup of a booking's cancellation record. */
module CancellationController {
  import opened Wrappers
  import opened Money
  import opened Tables

  datatype CancelError = BookingNotFound | AlreadyCancelled | NoRule | NoPayment | InvalidPaidAmount

  datatype DetailsError = CancellationNotFound

  /** The success response of a cancellation. */
  datatype CancelSummary = CancelSummary(
    bookingId: BookingId,
    totalAmount: Paise,
    penaltyPercent: int,
    penaltyAmount: Paise,
    refundAmount: Paise)

  /** The cancellation rules: the penalty percent of the rule that applies to a day
      offset, or None when no rule applies. Which rule applies is decided by the rules
      table and its query, which are not part of this model. */
  type RuleLookup = int -> Option<int>

  const MsPerDay := 1000 * 60 * 60 * 24

  /** `Math.ceil(ms / MsPerDay)`. */
  function CeilDays(ms: int): (r: int)
    ensures (r - 1) * MsPerDay < ms <= r * MsPerDay
  {
    -((-ms) / MsPerDay)
  }

  /** Whole days from today's midnight to the midnight of the event day. */
  function DaysBefore(eventDay: Day, today: Day): (r: int)
    ensures r == eventDay - today
  {
    CeilDays(eventDay * MsPerDay - today * MsPerDay)
  }

  /** The checks made before anything is written, in the order the controller makes
      them; on success, the payment row and the penalty percent to apply. */
  function CheckCancel(bookings: map<BookingId, Booking>, payments: seq<Payment>, id: BookingId,
                       today: Day, rules: RuleLookup): (r: Result<(Payment, int), CancelError>)
    ensures r == Err(BookingNotFound) <==> id !in bookings
    ensures r == Err(AlreadyCancelled) <==> id in bookings && bookings[id].status == Cancelled
    ensures r == Err(NoRule) <==>
      id in bookings && bookings[id].status != Cancelled && rules(bookings[id].eventDay - today).None?
    ensures r == Err(NoPayment) <==>
      && id in bookings && bookings[id].status != Cancelled && rules(bookings[id].eventDay - today).Some?
      && PaymentOf(payments, id).None?
    ensures r == Err(InvalidPaidAmount) <==>
      && id in bookings && bookings[id].status != Cancelled && rules(bookings[id].eventDay - today).Some?
      && PaymentOf(payments, id).Some? && PaymentOf(payments, id).value.paidAmount <= 0
    ensures r.Ok? <==>
      && id in bookings && bookings[id].status != Cancelled && rules(bookings[id].eventDay - today).Some?
      && PaymentOf(payments, id).Some? && PaymentOf(payments, id).value.paidAmount > 0
    ensures r.Ok? ==>
      && rules(bookings[id].eventDay - today) == Some(r.value.1)
      && PaymentOf(payments, id) == Some(r.value.0)
      && r.value.0.bookingId == id && r.value.0.paidAmount > 0
  {
    if id !in bookings then Err(BookingNotFound)
    else if bookings[id].status == Cancelled then Err(AlreadyCancelled)
    else
      var rule := rules(DaysBefore(bookings[id].eventDay, today));
      if rule.None? then Err(NoRule)
      else match PaymentOf(payments, id)
        case None => Err(NoPayment)
        case Some(p) => if p.paidAmount <= 0 then Err(InvalidPaidAmount) else Ok((p, rule.value))
  }

  /** The record written for booking id with paid payment p and penalty percent pct. */
  function NewCancellation(cancellationId: nat, id: BookingId, p: Payment, pct: int): (c: Cancellation)
    ensures c.cancellationId == cancellationId && c.bookingId == id && c.paymentId == p.paymentId
    ensures c.totalAmount == p.paidAmount && c.penaltyPercent == pct
    ensures c.penaltyAmount == Penalty(p.paidAmount, pct)
    ensures c.penaltyAmount + c.refundAmount == c.totalAmount
  {
    var penalty := Penalty(p.paidAmount, pct);
    PenaltyPlusRefund(p.paidAmount, pct);
    Cancellation(cancellationId, id, p.paymentId, p.paidAmount, pct, penalty, Refund(p.paidAmount, penalty))
  }

  /** `cancelBooking`. Every error is found before the first write and leaves the store
      as it was; a cancellation writes one record and marks the booking CANCELLED. */
  method CancelBooking(db: Db, bookingId: BookingId, today: Day, rules: RuleLookup)
    returns (res: Result<CancelSummary, CancelError>)
    requires db.Valid()
    modifies db
    ensures db.Valid()
    ensures CheckCancel(old(db.bookings), old(db.payments), bookingId, today, rules).Err? ==>
      res == Err(CheckCancel(old(db.bookings), old(db.payments), bookingId, today, rules).error) && unchanged(db)
    ensures CheckCancel(old(db.bookings), old(db.payments), bookingId, today, rules).Ok? ==>
      var (p, pct) := CheckCancel(old(db.bookings), old(db.payments), bookingId, today, rules).value;
      var c := NewCancellation(|old(db.cancellations)| + 1, bookingId, p, pct);
      && res == Ok(CancelSummary(bookingId, c.totalAmount, pct, c.penaltyAmount, c.refundAmount))
      && db.cancellations == old(db.cancellations) + [c]
      && db.bookings == old(db.bookings)[bookingId := old(db.bookings)[bookingId].(status := Cancelled)]
      && db.payments == old(db.payments)
      && db.referrals == old(db.referrals)
      && db.commissions == old(db.commissions)
      && ((forall x :: x in old(db.cancellations) ==> x.bookingId != bookingId) ==>
            GetCancellationDetails(db, bookingId) == Ok(c))
  {
    if bookingId !in db.bookings {
      return Err(BookingNotFound);
    }
    var booking := db.bookings[bookingId];
    if booking.status == Cancelled {
      return Err(AlreadyCancelled);
    }

    var daysBefore := DaysBefore(booking.eventDay, today);
    var rule := rules(daysBefore);
    if rule.None? {
      return Err(NoRule);
    }

    var payment := PaymentOf(db.payments, bookingId);
    if payment.None? {
      return Err(NoPayment);
    }
    var paidAmount := payment.value.paidAmount;
    if paidAmount <= 0 {
      return Err(InvalidPaidAmount);
    }

    var penaltyAmount := Penalty(paidAmount, rule.value);
    var refundAmount := Refund(paidAmount, penaltyAmount);
    PenaltyPlusRefund(paidAmount, rule.value);

    db.cancellations := db.cancellations + [Cancellation(|db.cancellations| + 1, bookingId, payment.value.paymentId,
                                                         paidAmount, rule.value, penaltyAmount, refundAmount)];
    db.bookings := db.bookings[bookingId := booking.(status := Cancelled)];
    if forall x :: x in old(db.cancellations) ==> x.bookingId != bookingId {
      CancelThenDetails(db, old(db.cancellations), db.cancellations[|db.cancellations| - 1], bookingId);
    }
    res := Ok(CancelSummary(bookingId, paidAmount, rule.value, penaltyAmount, refundAmount));
  }

  /** `getCancellationDetails`: the booking's cancellation record, or NotFound when it has none. */
  function GetCancellationDetails(db: Db, bookingId: BookingId): (r: Result<Cancellation, DetailsError>)
    reads db
    ensures r.Ok? ==> r.value in db.cancellations && r.value.bookingId == bookingId
    ensures r.Ok? ==>
      exists i :: 0 <= i < |db.cancellations| && db.cancellations[i] == r.value &&
        forall j :: 0 <= j < i ==> db.cancellations[j].bookingId != bookingId
    ensures r.Err? <==> forall c :: c in db.cancellations ==> c.bookingId != bookingId
    ensures r.Ok? <==> CancellationOf(db.cancellations, bookingId).Some?
    ensures r.Ok? ==> Some(r.value) == CancellationOf(db.cancellations, bookingId)
  {
    CancellationOfIsFirst(db.cancellations, bookingId);
    match CancellationOf(db.cancellations, bookingId)
    case Some(c) => Ok(c)
    case None => Err(CancellationNotFound)
  }

  /** The day offset is 0 on the event day and negative after it. */
  lemma DaysBeforeSign(eventDay: Day, today: Day)
    ensures DaysBefore(eventDay, today) == 0 <==> eventDay == today
    ensures DaysBefore(eventDay, today) < 0 <==> eventDay < today
  {
  }

  /** With a rule percent between 0 and 100, an accepted cancellation charges a penalty
      between nothing and the paid amount and refunds the rest. */
  lemma CancellationAmountsBounded(bookings: map<BookingId, Booking>, payments: seq<Payment>, id: BookingId,
                                   today: Day, rules: RuleLookup, cancellationId: nat)
    requires CheckCancel(bookings, payments, id, today, rules).Ok?
    requires 0 <= CheckCancel(bookings, payments, id, today, rules).value.1 <= 100
    ensures
      var (p, pct) := CheckCancel(bookings, payments, id, today, rules).value;
      var c := NewCancellation(cancellationId, id, p, pct);
      0 < c.totalAmount && 0 <= c.penaltyAmount <= c.totalAmount && 0 <= c.refundAmount <= c.totalAmount
  {
    var (p, pct) := CheckCancel(bookings, payments, id, today, rules).value;
    PenaltyBounds(p.paidAmount, pct);
  }

  /** After a cancellation, cancelling the same booking again is refused as already cancelled. */
  lemma RepeatCancelFails(bookings: map<BookingId, Booking>, payments: seq<Payment>, id: BookingId,
                          today: Day, rules: RuleLookup)
    requires CheckCancel(bookings, payments, id, today, rules).Ok?
    ensures CheckCancel(bookings[id := bookings[id].(status := Cancelled)], payments, id, today, rules)
            == Err(AlreadyCancelled)
  {
  }

  /** A booking cancelled for the first time then has the new record as its details:
      the details lookup on the table `CancelBooking` leaves behind returns that record. */
  lemma {:induction false} CancelThenDetails(db: Db, cs: seq<Cancellation>, c: Cancellation, id: BookingId)
    requires db.cancellations == cs + [c]
    requires c.bookingId == id
    requires forall x :: x in cs ==> x.bookingId != id
    ensures GetCancellationDetails(db, id) == Ok(c)
  {
    CancellationOfAppend(cs, c, id);
  }

  /** The scenario of an advance of Rs 3000.00 cancelled ten days before the event under
      a rule of 20 % for seven or more days: penalty Rs 600.00, refund Rs 2400.00. */
  lemma CancellationScenario()
    ensures
      var b := Booking(1, 110, Advance, Some(103), 1000000, 700000);
      var p := Payment(1, 9, "ADVANCE", "CASH", 1000000, 300000, 700000, None, None, None, "SUCCESS");
      var rules := (d: int) => if d >= 7 then Some(20) else None;
      && CheckCancel(map[9 := b], [p], 9, 100, rules) == Ok((p, 20))
      && NewCancellation(1, 9, p, 20).penaltyAmount == 60000
      && NewCancellation(1, 9, p, 20).refundAmount == 240000
  {
    var p := Payment(1, 9, "ADVANCE", "CASH", 1000000, 300000, 700000, None, None, None, "SUCCESS");
    assert FirstWhere([p], (x: Payment) => x.bookingId == 9) == Some(0);
    PenaltyExample();
  }
}
