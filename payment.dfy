/** The payment controller: recording a payment, clearing the remaining balance, and
    the daily job that cancels ADVANCE bookings whose balance due date has passed. */
module PaymentController {
  import opened Wrappers
  import opened Money
  import opened Tables

  /** The body of a payment request; a field the client left out is None. */
  datatype PaymentRequest = PaymentRequest(
    bookingId: Option<BookingId>,
    paymentType: Option<string>,
    paymentMethod: Option<string>,
    paidAmount: Option<Paise>,
    balanceDays: Option<int>)

  datatype PaymentError = MissingFields | BookingNotFound | BookingCancelled

  /** The success response of a payment. */
  datatype PaymentReceipt = PaymentReceipt(
    paymentId: nat,
    balanceAmount: Paise,
    bookingStatus: BookingStatus,
    balanceDueDays: int)

  datatype BalanceError = PaymentNotFound | NoBalance

  const DefaultDueDays := 3

  /** Every required field is present and truthy: a booking id or amount of 0 and an
      empty string count as missing. */
  predicate HasRequiredFields(req: PaymentRequest)
  {
    && req.bookingId.Some? && req.bookingId.value != 0
    && req.paymentType.Some? && req.paymentType.value != ""
    && req.paymentMethod.Some? && req.paymentMethod.value != ""
    && req.paidAmount.Some? && req.paidAmount.value != 0
  }

  function UpperChar(c: char): char
  {
    if 'a' <= c <= 'z' then (c as int - 32) as char else c
  }

  /** `toUpperCase` on the ASCII letters. */
  function ToUpper(s: string): (r: string)
    ensures |r| == |s|
    ensures forall i :: 0 <= i < |s| ==> r[i] == UpperChar(s[i])
  {
    if s == [] then [] else [UpperChar(s[0])] + ToUpper(s[1..])
  }

  /** The payment type names an advance, in any letter case. */
  predicate IsAdvanceType(paymentType: string)
  {
    ToUpper(paymentType) == "ADVANCE"
  }

  /** `Number(balance_days) || 3`: None stands for an absent or non-numeric value. */
  function DueDays(balanceDays: Option<int>): int
  {
    if balanceDays.Some? && balanceDays.value != 0 then balanceDays.value else DefaultDueDays
  }

  /** The checks made before anything is written, in the order the controller makes them. */
  function CheckPayment(bookings: map<BookingId, Booking>, req: PaymentRequest): (r: Result<Booking, PaymentError>)
    ensures r.Ok? <==>
      HasRequiredFields(req) && req.bookingId.value in bookings &&
      bookings[req.bookingId.value].status != Cancelled
    ensures r.Ok? ==> r.value == bookings[req.bookingId.value]
    ensures r == Err(MissingFields) <==> !HasRequiredFields(req)
    ensures r == Err(BookingNotFound) <==> HasRequiredFields(req) && req.bookingId.value !in bookings
  {
    if !HasRequiredFields(req) then Err(MissingFields)
    else if req.bookingId.value !in bookings then Err(BookingNotFound)
    else if bookings[req.bookingId.value].status == Cancelled then Err(BookingCancelled)
    else Ok(bookings[req.bookingId.value])
  }

  /** The payment row saved for an accepted request on booking b. */
  function NewPayment(paymentId: nat, req: PaymentRequest, b: Booking): (p: Payment)
    requires HasRequiredFields(req)
    ensures p.paymentId == paymentId && p.bookingId == req.bookingId.value
    ensures p.totalAmount == b.grossTotal && p.paidAmount == req.paidAmount.value
    ensures p.paidAmount + p.balanceAmount == p.totalAmount
    ensures p.transactionStatus == "SUCCESS"
    ensures p.balancePaidAmount.None? && p.balancePaidDay.None? && p.balancePaidStatus.None?
  {
    var paid := req.paidAmount.value;
    Payment(paymentId, req.bookingId.value, req.paymentType.value, req.paymentMethod.value,
            b.grossTotal, paid, b.grossTotal - paid, None, None, None, "SUCCESS")
  }

  /** The booking row after an accepted payment made on day `today`. */
  function BookingAfterPayment(b: Booking, req: PaymentRequest, today: Day): Booking
    requires HasRequiredFields(req)
  {
    if IsAdvanceType(req.paymentType.value) then
      b.(status := Advance, balanceDueDay := Some(today + DueDays(req.balanceDays)))
    else
      b.(status := InProgress)
  }

  /** The response of an accepted payment. */
  function ReceiptFor(paymentId: nat, req: PaymentRequest, b: Booking): PaymentReceipt
    requires HasRequiredFields(req)
  {
    if IsAdvanceType(req.paymentType.value) then
      PaymentReceipt(paymentId, b.grossTotal - req.paidAmount.value, Advance, DueDays(req.balanceDays))
    else
      PaymentReceipt(paymentId, b.grossTotal - req.paidAmount.value, InProgress, 0)
  }

  /** `createPayment`, with the receipt document left out. A rejected request writes
      nothing; an accepted one inserts one payment row and updates its booking. */
  method CreatePayment(db: Db, req: PaymentRequest, today: Day) returns (res: Result<PaymentReceipt, PaymentError>)
    requires db.Valid()
    modifies db
    ensures db.Valid()
    ensures CheckPayment(old(db.bookings), req).Err? ==>
      res == Err(CheckPayment(old(db.bookings), req).error) && unchanged(db)
    ensures CheckPayment(old(db.bookings), req).Ok? ==>
      var id := req.bookingId.value;
      var b := old(db.bookings)[id];
      var paymentId := |old(db.payments)| + 1;
      && res == Ok(ReceiptFor(paymentId, req, b))
      && db.payments == old(db.payments) + [NewPayment(paymentId, req, b)]
      && db.bookings == old(db.bookings)[id := BookingAfterPayment(b, req, today)]
      && db.cancellations == old(db.cancellations)
      && db.referrals == old(db.referrals)
      && db.commissions == old(db.commissions)
  {
    if !HasRequiredFields(req) {
      return Err(MissingFields);
    }
    var id := req.bookingId.value;
    if id !in db.bookings {
      return Err(BookingNotFound);
    }
    var booking := db.bookings[id];
    if booking.status == Cancelled {
      return Err(BookingCancelled);
    }

    var totalAmount := booking.grossTotal;
    var balanceAmount := totalAmount - req.paidAmount.value;
    var paymentId := |db.payments| + 1;
    db.payments := db.payments + [Payment(paymentId, id, req.paymentType.value, req.paymentMethod.value,
                                          totalAmount, req.paidAmount.value, balanceAmount,
                                          None, None, None, "SUCCESS")];

    var newStatus := InProgress;
    var dueDays := 0;
    if IsAdvanceType(req.paymentType.value) {
      newStatus := Advance;
      dueDays := DueDays(req.balanceDays);
      db.bookings := db.bookings[id := booking.(status := newStatus, balanceDueDay := Some(today + dueDays))];
    } else {
      db.bookings := db.bookings[id := booking.(status := newStatus)];
    }
    res := Ok(PaymentReceipt(paymentId, balanceAmount, newStatus, dueDays));
  }

  /** After an advance payment the booking is ADVANCE with its balance due `dueDays` days
      from today, where dueDays is the requested count when nonzero and 3 otherwise;
      nothing but status and due date changes. */
  lemma AdvancePaymentSetsDueDate(b: Booking, req: PaymentRequest, today: Day)
    requires HasRequiredFields(req) && IsAdvanceType(req.paymentType.value)
    ensures BookingAfterPayment(b, req, today).status == Advance
    ensures req.balanceDays.Some? && req.balanceDays.value != 0 ==>
      BookingAfterPayment(b, req, today).balanceDueDay == Some(today + req.balanceDays.value)
    ensures req.balanceDays.None? || req.balanceDays.value == 0 ==>
      BookingAfterPayment(b, req, today).balanceDueDay == Some(today + 3)
    ensures BookingAfterPayment(b, req, today).(status := b.status, balanceDueDay := b.balanceDueDay) == b
    ensures ReceiptFor(0, req, b).bookingStatus == Advance && ReceiptFor(0, req, b).balanceDueDays != 0
  {
  }

  /** Any other payment type makes the booking INPROGRESS, reports 0 due days and leaves
      the balance due date as it was. */
  lemma OtherPaymentSetsInProgress(b: Booking, req: PaymentRequest, today: Day)
    requires HasRequiredFields(req) && !IsAdvanceType(req.paymentType.value)
    ensures BookingAfterPayment(b, req, today) == b.(status := InProgress)
    ensures ReceiptFor(0, req, b).bookingStatus == InProgress && ReceiptFor(0, req, b).balanceDueDays == 0
  {
  }

  /** The type is compared without regard to letter case. */
  lemma AdvanceTypeIgnoresCase()
    ensures IsAdvanceType("ADVANCE") && IsAdvanceType("advance") && IsAdvanceType("Advance")
    ensures !IsAdvanceType("FULL") && !IsAdvanceType("advance ")
  {
    assert ToUpper("advance") == "ADVANCE";
    assert ToUpper("Advance") == "ADVANCE";
  }

  /** A full payment of the whole gross total leaves no balance and no due date on a
      booking that had none. */
  lemma FullPaymentScenario(b: Booking, today: Day)
    requires b.grossTotal == 1000000 && b.balanceDueDay.None? && b.status == Created
    ensures var req := PaymentRequest(Some(7), Some("FULL"), Some("CASH"), Some(1000000), None);
      && ReceiptFor(1, req, b).balanceAmount == 0
      && BookingAfterPayment(b, req, today).status == InProgress
      && BookingAfterPayment(b, req, today).balanceDueDay.None?
  {
    var req := PaymentRequest(Some(7), Some("FULL"), Some("CASH"), Some(1000000), None);
    assert ToUpper("FULL") == "FULL";
  }

  // ---------------------------------------------------------------------------
  // Paying the remaining balance

  /** The guard of `payRemainingBalance`: the outstanding balance of the booking's
      payment row, or why there is nothing to pay. */
  function CheckBalance(ps: seq<Payment>, id: BookingId): (r: Result<Paise, BalanceError>)
    ensures r == Err(PaymentNotFound) <==> forall j :: 0 <= j < |ps| ==> ps[j].bookingId != id
    ensures r == Err(NoBalance) <==> PaymentOf(ps, id).Some? && PaymentOf(ps, id).value.balanceAmount <= 0
    ensures r.Ok? ==> PaymentOf(ps, id).Some? && r.value == PaymentOf(ps, id).value.balanceAmount > 0
  {
    PaymentOfIsFirst(ps, id);
    match PaymentOf(ps, id)
    case None => Err(PaymentNotFound)
    case Some(p) => if p.balanceAmount <= 0 then Err(NoBalance) else Ok(p.balanceAmount)
  }

  /** A payment row after its balance was paid in full on day `today`. */
  function ClearedRow(p: Payment, amount: Paise, today: Day): Payment
  {
    p.(paidAmount := p.totalAmount, balanceAmount := 0, balancePaidAmount := Some(amount),
       balancePaidDay := Some(today), balancePaidStatus := Some("clear"))
  }

  /** The payments table after `UPDATE payments SET ... WHERE booking_id = id`. */
  function ClearBalances(ps: seq<Payment>, id: BookingId, amount: Paise, today: Day): seq<Payment>
  {
    seq(|ps|, i requires 0 <= i < |ps| => if ps[i].bookingId == id then ClearedRow(ps[i], amount, today) else ps[i])
  }

  /** The bookings table after `UPDATE bookings SET booking_status = 'INPROGRESS',
      balance_due_date = NULL WHERE booking_id = id`. */
  function BookingsAfterBalance(bookings: map<BookingId, Booking>, id: BookingId): map<BookingId, Booking>
  {
    if id in bookings then bookings[id := bookings[id].(status := InProgress, balanceDueDay := None)]
    else bookings
  }

  /** `payRemainingBalance`: both guards fail without a write; otherwise every payment
      row of the booking is settled and the booking becomes INPROGRESS. */
  method PayRemainingBalance(db: Db, bookingId: BookingId, today: Day) returns (res: Result<(), BalanceError>)
    requires db.Valid()
    modifies db
    ensures db.Valid()
    ensures CheckBalance(old(db.payments), bookingId).Err? ==>
      res == Err(CheckBalance(old(db.payments), bookingId).error) && unchanged(db)
    ensures CheckBalance(old(db.payments), bookingId).Ok? ==>
      && res == Ok(())
      && db.payments == ClearBalances(old(db.payments), bookingId, CheckBalance(old(db.payments), bookingId).value, today)
      && db.bookings == BookingsAfterBalance(old(db.bookings), bookingId)
      && db.cancellations == old(db.cancellations)
      && db.referrals == old(db.referrals)
      && db.commissions == old(db.commissions)
  {
    var payment := PaymentOf(db.payments, bookingId);
    if payment.None? {
      return Err(PaymentNotFound);
    }
    if payment.value.balanceAmount <= 0 {
      return Err(NoBalance);
    }
    var balance := payment.value.balanceAmount;
    ClearBalancesValid(db.payments, bookingId, balance, today);
    db.payments := ClearBalances(db.payments, bookingId, balance, today);
    if bookingId in db.bookings {
      db.bookings := db.bookings[bookingId := db.bookings[bookingId].(status := InProgress, balanceDueDay := None)];
    }
    res := Ok(());
  }

  /** Settling keeps paid + balance == total on every row, and a settled row has been
      paid in full, with the old balance recorded as the balance payment. */
  lemma ClearBalancesValid(ps: seq<Payment>, id: BookingId, amount: Paise, today: Day)
    requires PaymentsValid(ps)
    ensures PaymentsValid(ClearBalances(ps, id, amount, today))
    ensures forall i :: 0 <= i < |ps| && ps[i].bookingId == id ==>
      var q := ClearBalances(ps, id, amount, today)[i];
      q.paidAmount == q.totalAmount == ps[i].totalAmount && q.balanceAmount == 0 &&
      q.balancePaidAmount == Some(amount) && q.balancePaidStatus == Some("clear")
    ensures forall i :: 0 <= i < |ps| && ps[i].bookingId != id ==> ClearBalances(ps, id, amount, today)[i] == ps[i]
  {
  }

  /** Once the balance is paid, paying it again finds nothing owed. */
  lemma {:induction false} SecondBalancePaymentFails(ps: seq<Payment>, id: BookingId, today: Day)
    requires CheckBalance(ps, id).Ok?
    ensures CheckBalance(ClearBalances(ps, id, CheckBalance(ps, id).value, today), id) == Err(NoBalance)
  {
    var amount := CheckBalance(ps, id).value;
    var qs := ClearBalances(ps, id, amount, today);
    var p := (x: Payment) => x.bookingId == id;
    var k := FirstWhere(ps, p);
    var k' := FirstWhere(qs, p);
    assert k.Some?;
    assert p(qs[k.value]);
    assert k'.Some?;
    assert k'.value == k.value;
    assert PaymentOf(qs, id) == Some(qs[k.value]);
  }

  /** Paying the balance does not look at the booking's status: a cancelled booking whose
      payment row still owes money is moved back to INPROGRESS. */
  lemma BalancePaymentRevivesCancelled()
    ensures
      var b := Booking(1, 100, Cancelled, Some(90), 1000000, 0);
      var p := Payment(1, 5, "ADVANCE", "UPI", 1000000, 300000, 700000, None, None, None, "SUCCESS");
      && CheckBalance([p], 5) == Ok(700000)
      && BookingsAfterBalance(map[5 := b], 5)[5].status == InProgress
  {
    var p := Payment(1, 5, "ADVANCE", "UPI", 1000000, 300000, 700000, None, None, None, "SUCCESS");
    assert FirstWhere([p], (x: Payment) => x.bookingId == 5) == Some(0);
  }

  // ---------------------------------------------------------------------------
  // The expiry job started by scheduleBookingExpiry

  /** An ADVANCE booking whose balance due date lies before `now`; a NULL due date never does. */
  predicate PastDue(b: Booking, now: Day)
  {
    b.status == Advance && b.balanceDueDay.Some? && b.balanceDueDay.value < now
  }

  /** The rows selected by the job. */
  function PastDueIds(bookings: map<BookingId, Booking>, now: Day): set<BookingId>
  {
    set id | id in bookings && PastDue(bookings[id], now)
  }

  /** The bookings table after one run of the job. */
  function ExpireBookings(bookings: map<BookingId, Booking>, now: Day): map<BookingId, Booking>
  {
    CancelAll(bookings, PastDueIds(bookings, now))
  }

  /** One run of the job body: select the past-due ADVANCE bookings and, when there are
      any, cancel them in one batch update. */
  method RunBookingExpiry(db: Db, now: Day) returns (cancelled: set<BookingId>)
    requires db.Valid()
    modifies db
    ensures db.Valid()
    ensures cancelled == PastDueIds(old(db.bookings), now)
    ensures db.bookings == ExpireBookings(old(db.bookings), now)
    ensures db.payments == old(db.payments) && db.cancellations == old(db.cancellations)
    ensures db.referrals == old(db.referrals) && db.commissions == old(db.commissions)
  {
    var rows := PastDueIds(db.bookings, now);
    if rows != {} {
      db.bookings := CancelAll(db.bookings, rows);
    } else {
      assert CancelAll(db.bookings, rows) == db.bookings;
    }
    cancelled := rows;
  }

  /** The job cancels exactly the past-due ADVANCE bookings, writes nothing else into
      them, and leaves every other booking as it was. */
  lemma BookingExpiryExact(bookings: map<BookingId, Booking>, now: Day)
    ensures ExpireBookings(bookings, now).Keys == bookings.Keys
    ensures forall id :: id in bookings && PastDue(bookings[id], now) ==>
      ExpireBookings(bookings, now)[id] == bookings[id].(status := Cancelled)
    ensures forall id :: id in bookings && !PastDue(bookings[id], now) ==>
      ExpireBookings(bookings, now)[id] == bookings[id]
  {
  }

  /** Running the job twice with the same clock is the same as running it once. */
  lemma {:induction false} BookingExpiryIdempotent(bookings: map<BookingId, Booking>, now: Day)
    ensures ExpireBookings(ExpireBookings(bookings, now), now) == ExpireBookings(bookings, now)
  {
    var once := ExpireBookings(bookings, now);
    assert PastDueIds(once, now) == {} by {
      forall id | id in once ensures !PastDue(once[id], now) {
        BookingExpiryExact(bookings, now);
      }
    }
    assert CancelAll(once, {}) == once;
  }
}
