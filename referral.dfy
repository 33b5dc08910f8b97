/** The referral commission model: paying a referral its commission for a booking. */
module ReferralCommission {
  import opened Wrappers
  import opened Money
  import opened Tables

  /** Where the store raises an error inside the payout transaction, if anywhere. */
  datatype StoreFault = NoFault | InsertFails | UpdateFails | CommitFails

  const PaidStatus := "Paid"

  /** The commission table after `INSERT ... SELECT ?, ?, customer_id, ? FROM bookings
      WHERE booking_id = ?`: one row when the booking exists, none otherwise. */
  function CommissionsAfterPayout(cs: seq<Commission>, bookings: map<BookingId, Booking>,
                                  referralId: ReferralId, bookingId: BookingId, amount: Paise): seq<Commission>
  {
    if bookingId in bookings then
      cs + [Commission(|cs| + 1, referralId, bookingId, bookings[bookingId].customerId, amount)]
    else cs
  }

  /** The referrals table after `UPDATE referrals SET status = 'Paid' WHERE referral_id = ?`. */
  function ReferralsAfterPayout(referrals: map<ReferralId, Referral>, referralId: ReferralId): map<ReferralId, Referral>
  {
    if referralId in referrals then referrals[referralId := referrals[referralId].(status := PaidStatus)]
    else referrals
  }

  /** `payReferral`. On a store error the transaction is rolled back and the error is
      passed on to the caller; otherwise both writes are committed together. */
  method PayReferral(db: Db, referralId: ReferralId, bookingId: BookingId, amount: Paise, fault: StoreFault)
    returns (res: Result<(), StoreFault>)
    requires db.Valid()
    modifies db
    ensures db.Valid()
    ensures fault != NoFault ==> res == Err(fault) && unchanged(db)
    ensures fault == NoFault ==>
      && res == Ok(())
      && db.commissions == CommissionsAfterPayout(old(db.commissions), old(db.bookings), referralId, bookingId, amount)
      && db.referrals == ReferralsAfterPayout(old(db.referrals), referralId)
      && db.bookings == old(db.bookings)
      && db.payments == old(db.payments)
      && db.cancellations == old(db.cancellations)
  {
    var savedCommissions, savedReferrals := db.commissions, db.referrals;

    if fault == InsertFails {
      return Err(fault);
    }
    if bookingId in db.bookings {
      var customerId := db.bookings[bookingId].customerId;
      db.commissions := db.commissions + [Commission(|db.commissions| + 1, referralId, bookingId, customerId, amount)];
    }

    if fault == UpdateFails {
      db.commissions := savedCommissions;
      return Err(fault);
    }
    if referralId in db.referrals {
      db.referrals := db.referrals[referralId := db.referrals[referralId].(status := PaidStatus)];
    }

    if fault == CommitFails {
      db.commissions, db.referrals := savedCommissions, savedReferrals;
      return Err(fault);
    }
    res := Ok(());
  }

  /** A payout for an existing booking adds exactly one row, whose customer is the
      booking's own customer and not anything the caller supplied. */
  lemma PayoutAddsOneRow(cs: seq<Commission>, bookings: map<BookingId, Booking>,
                         referralId: ReferralId, bookingId: BookingId, amount: Paise)
    requires bookingId in bookings
    ensures var after := CommissionsAfterPayout(cs, bookings, referralId, bookingId, amount);
      && |after| == |cs| + 1 && after[..|cs|] == cs
      && after[|cs|].referralId == referralId && after[|cs|].bookingId == bookingId
      && after[|cs|].customerId == bookings[bookingId].customerId && after[|cs|].amount == amount
  {
  }

  /** Without the booking the insert adds nothing, yet the referral is still marked Paid. */
  lemma PayoutWithoutBooking(cs: seq<Commission>, bookings: map<BookingId, Booking>,
                             referrals: map<ReferralId, Referral>,
                             referralId: ReferralId, bookingId: BookingId, amount: Paise)
    requires bookingId !in bookings && referralId in referrals
    ensures CommissionsAfterPayout(cs, bookings, referralId, bookingId, amount) == cs
    ensures ReferralsAfterPayout(referrals, referralId)[referralId].status == PaidStatus
  {
  }

  /** Only the named referral changes, and only in its status. */
  lemma PayoutChangesOnlyNamedReferral(referrals: map<ReferralId, Referral>, referralId: ReferralId)
    ensures ReferralsAfterPayout(referrals, referralId).Keys == referrals.Keys
    ensures forall r :: r in referrals && r != referralId ==> ReferralsAfterPayout(referrals, referralId)[r] == referrals[r]
    ensures referralId in referrals ==>
      ReferralsAfterPayout(referrals, referralId)[referralId] == referrals[referralId].(status := PaidStatus)
  {
  }

  /** Nothing guards against paying twice: a second payout adds a second row for the
      same referral and booking, and the status stays Paid. */
  lemma {:induction false} PayoutTwice(cs: seq<Commission>, bookings: map<BookingId, Booking>,
                                       referrals: map<ReferralId, Referral>,
                                       referralId: ReferralId, bookingId: BookingId, amount: Paise)
    requires bookingId in bookings && referralId in referrals
    ensures var once := CommissionsAfterPayout(cs, bookings, referralId, bookingId, amount);
      var twice := CommissionsAfterPayout(once, bookings, referralId, bookingId, amount);
      && |twice| == |cs| + 2
      && twice[|cs|].(commissionId := 0) == twice[|cs| + 1].(commissionId := 0)
    ensures ReferralsAfterPayout(ReferralsAfterPayout(referrals, referralId), referralId)
            == ReferralsAfterPayout(referrals, referralId)
  {
    var once := CommissionsAfterPayout(cs, bookings, referralId, bookingId, amount);
    PayoutAddsOneRow(cs, bookings, referralId, bookingId, amount);
    PayoutAddsOneRow(once, bookings, referralId, bookingId, amount);
  }
}
