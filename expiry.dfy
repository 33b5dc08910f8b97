/** The stand-alone auto-cancel job: every night it cancels ADVANCE bookings whose
    balance due date has passed and that still show a balance. */
module BookingExpiry {
  import opened Wrappers
  import opened Tables
  import PaymentController

  /** A booking the job selects on day `today`. */
  predicate Overdue(b: Booking, today: Day)
  {
    b.status == Advance && b.balanceDueDay.Some? && b.balanceDueDay.value < today && b.balanceAmount > 0
  }

  function OverdueIds(bookings: map<BookingId, Booking>, today: Day): set<BookingId>
  {
    set id | id in bookings && Overdue(bookings[id], today)
  }

  /** The bookings table after one run of the job. */
  function AutoCancel(bookings: map<BookingId, Booking>, today: Day): map<BookingId, Booking>
  {
    CancelAll(bookings, OverdueIds(bookings, today))
  }

  /** One run of the job body: select the overdue bookings, then update them one row at a
      time. The order of the selected rows is not specified, so the loop takes them in
      any order. */
  method RunAutoCancel(db: Db, today: Day) returns (cancelled: set<BookingId>)
    requires db.Valid()
    modifies db
    ensures db.Valid()
    ensures cancelled == OverdueIds(old(db.bookings), today)
    ensures db.bookings == AutoCancel(old(db.bookings), today)
    ensures db.payments == old(db.payments) && db.cancellations == old(db.cancellations)
    ensures db.referrals == old(db.referrals) && db.commissions == old(db.commissions)
  {
    var rows := OverdueIds(db.bookings, today);
    var pending, done := rows, {};
    assert CancelAll(db.bookings, {}) == db.bookings;
    while pending != {}
      invariant pending <= rows <= old(db.bookings).Keys
      invariant done == rows - pending
      invariant db.bookings == CancelAll(old(db.bookings), done)
      invariant db.payments == old(db.payments) && db.cancellations == old(db.cancellations)
      invariant db.referrals == old(db.referrals) && db.commissions == old(db.commissions)
      decreases pending
    {
      NonEmptyHasRow(pending);
      var id :| id in pending;
      CancelAllStep(old(db.bookings), done, id);
      db.bookings := db.bookings[id := db.bookings[id].(status := Cancelled)];
      pending, done := pending - {id}, done + {id};
    }
    cancelled := rows;
  }

  /** A nonempty set of selected rows has a row to take next. This says nothing about
      bookings; it exists only so that the `:|` step of the loop can pick a row. */
  lemma NonEmptyHasRow(rows: set<BookingId>)
    requires rows != {}
    ensures exists id :: id in rows
  {
    if forall id :: id !in rows {
      assert false;
    }
  }

  /** Cancelling one more booking of the table extends a batch cancellation by that booking. */
  lemma CancelAllStep(bookings: map<BookingId, Booking>, done: set<BookingId>, id: BookingId)
    requires id in bookings
    ensures CancelAll(bookings, done + {id}) ==
      CancelAll(bookings, done)[id := CancelAll(bookings, done)[id].(status := Cancelled)]
  {
  }

  /** The job cancels exactly the overdue bookings, writes nothing else into them, and
      leaves every other booking as it was. */
  lemma AutoCancelExact(bookings: map<BookingId, Booking>, today: Day)
    ensures AutoCancel(bookings, today).Keys == bookings.Keys
    ensures forall id :: id in bookings && Overdue(bookings[id], today) ==>
      AutoCancel(bookings, today)[id] == bookings[id].(status := Cancelled)
    ensures forall id :: id in bookings && !Overdue(bookings[id], today) ==>
      AutoCancel(bookings, today)[id] == bookings[id]
  {
  }

  /** A second run on the same day changes nothing. */
  lemma {:induction false} AutoCancelIdempotent(bookings: map<BookingId, Booking>, today: Day)
    ensures AutoCancel(AutoCancel(bookings, today), today) == AutoCancel(bookings, today)
  {
    var once := AutoCancel(bookings, today);
    assert OverdueIds(once, today) == {} by {
      forall id | id in once ensures !Overdue(once[id], today) {
        AutoCancelExact(bookings, today);
      }
    }
    assert CancelAll(once, {}) == once;
  }

  /** The auto-cancel job selects a subset of what the payment controller's expiry job
      selects on the same day: it also demands a positive balance on the booking. */
  lemma AutoCancelNarrowerThanExpiry(bookings: map<BookingId, Booking>, today: Day)
    ensures OverdueIds(bookings, today) <= PaymentController.PastDueIds(bookings, today)
    ensures forall id :: id in PaymentController.PastDueIds(bookings, today) - OverdueIds(bookings, today) ==>
      bookings[id].balanceAmount <= 0
  {
    forall id | id in OverdueIds(bookings, today)
      ensures id in PaymentController.PastDueIds(bookings, today)
    {
      assert PaymentController.PastDue(bookings[id], today);
    }
  }

  /** A past-due ADVANCE booking that shows no balance survives this job but is
      cancelled by the other expiry job. */
  lemma PaidAdvanceSurvivesAutoCancel()
    ensures
      var b := Booking(3, 120, Advance, Some(95), 500000, 0);
      && AutoCancel(map[4 := b], 100)[4] == b
      && PaymentController.ExpireBookings(map[4 := b], 100)[4].status == Cancelled
  {
    var b := Booking(3, 120, Advance, Some(95), 500000, 0);
    AutoCancelExact(map[4 := b], 100);
    PaymentController.BookingExpiryExact(map[4 := b], 100);
  }
}
