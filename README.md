# Booking money state machine of the KSN function hall back end

This project models how a venue booking moves between payment states and how its
money is computed: recording a payment (advance or full), settling the remaining
balance, cancelling a booking with a penalty and refund, the two nightly jobs that
cancel unpaid ADVANCE bookings, and paying a referral its commission.

The database is a class `Tables.Db` with one field per table:
- `bookings` and `referrals` are maps from their key; their rows are created outside this core.
- `payments`, `cancellations` and `commissions` are sequences in insertion order. The model
  gives each new row the id |table| + 1 (see "## Left out" for how this differs from the
  store's auto-increment).

Every SQL statement becomes an update of these fields. Each controller is a module whose
methods take the database: `PaymentController`, `CancellationController`,
`ReferralCommission` and `BookingExpiry` (the stand-alone auto-cancel job). Each state
change is stated in two places. The method's postcondition gives the whole new state in
terms of specification functions of the old state. Lemmas then prove the promised
properties about those functions. The invariant `Db.Valid()` is preserved by every
operation. It says that each payment row has `paid_amount + balance_amount ==
total_amount` and each cancellation record has `penalty_amount + refund_amount ==
total_amount`.

Conventions:
- Money is integer paise (hundredths of a rupee). `toFixed(2)` therefore rounds to a whole
  number of paise: to the nearest one, with halves away from zero (`Money.RoundHundredths`).
- Dates are integer day numbers.
- The current day (`today`, `now`) and the cancellation rules are parameters.
- The rules table is an abstract lookup from a day offset to an optional penalty percent.
- Error responses are the `Err` constructors of `Wrappers.Result`.

Where the code departs from the intended behaviour of the system, the model follows the code:
- CANCELLED is meant to be terminal, but `payRemainingBalance` never checks the booking
  status. A CANCELLED booking whose payment row still shows a balance is moved back to
  INPROGRESS. `PaymentController.BalancePaymentRevivesCancelled` shows the case.
- A non-advance payment is meant to clear `balance_due_date`, but a payment of any type
  other than ADVANCE sets INPROGRESS and leaves the due date as it was. Only the balance
  payment clears it.
- `payReferral` checks neither the booking row nor the referral row. A missing booking makes
  the `INSERT ... SELECT` insert no row; a missing referral makes the `UPDATE` change nothing;
  either way the transaction commits and the call succeeds. A failure the schema itself
  raises (a foreign-key violation, say) is what the model's `fault` parameter stands for.
- The explicit cancellation reports every error the same way (a thrown error). The model
  still tells them apart by constructor, in the order the code checks them.
- The payment controller's expiry job updates by `booking_id IN (ids)` and does not
  re-check the status at write time. In the sequential model the two readings coincide.

## Model

| member | source | states |
|---|---|---|
| `Money.RoundHundredths` | controllers/cancellationController.js:35-36 | the result is the integer nearest to n/100; an exact half rounds away from zero |
| `Money.PenaltyPlusRefund` | controllers/cancellationController.js:35-36 | penalty plus refund equals the paid amount exactly, for every percent |
| `Money.PenaltyBounds` | controllers/cancellationController.js:35-36 | for a percent in 0..100 and a non-negative paid amount, penalty and refund both lie between 0 and the paid amount |
| `Money.Penalty` | controllers/cancellationController.js:35 | specification function: round2(paid × percent / 100), in paise |
| `Money.Refund` | controllers/cancellationController.js:36 | specification function: round2(paid − penalty), in paise |
| `Money.PenaltyExample` | controllers/cancellationController.js:35-36 | Rs 3000.00 at 20 % gives a penalty of Rs 600.00 and a refund of Rs 2400.00 |
| `Tables.PaymentOf` | controllers/paymentController.js:128-134 | specification function: the first payment row whose booking_id is the given one, or None |
| `Tables.CancellationOf` | controllers/cancellationController.js:78-80 | specification function: the first cancellation record whose booking_id is the given one, or None |
| `Tables.CancelAll` | controllers/paymentController.js:105-109 | specification function: `UPDATE ... SET booking_status = 'CANCELLED' WHERE booking_id IN (ids)`; every listed booking that exists gets status CANCELLED, every other row is kept |
| `Tables.FirstWhere` | controllers/paymentController.js:128-134 | returns the position of the first row satisfying the condition (no earlier row does), or None exactly when no row does |
| `Tables.PaymentOfIsFirst` | controllers/paymentController.js:128-136 | a booking's payment is its first payment row; there is none exactly when no row has that booking_id |
| `Tables.CancellationOfIsFirst` | controllers/cancellationController.js:78-80 | a booking's cancellation record is its first record; there is none exactly when no record has that booking_id |
| `Tables.CancellationOfAppend` | controllers/cancellationController.js:78-80 | appending a record keeps an existing first record of the booking; for a booking without one, the appended record becomes its record exactly when it belongs to it |
| `PaymentController.HasRequiredFields` | controllers/paymentController.js:21 | specification predicate: booking_id, payment_type, payment_method and paid_amount are all present and truthy (not 0, not the empty string) |
| `PaymentController.IsAdvanceType` | controllers/paymentController.js:50 | specification predicate: the upper-cased payment type equals "ADVANCE" |
| `PaymentController.DueDays` | controllers/paymentController.js:52 | specification function: `Number(balance_days)` with 3 as the fallback; the given day count when present and nonzero, else 3 |
| `PaymentController.ToUpper` | controllers/paymentController.js:50 | same length as the input; each character upper-cased in place |
| `PaymentController.AdvanceTypeIgnoresCase` | controllers/paymentController.js:50 | "ADVANCE", "advance" and "Advance" are advance types; "FULL" and "advance " are not |
| `PaymentController.CheckPayment` | controllers/paymentController.js:21-30 | accepts exactly when all four fields are truthy, the booking exists and it is not CANCELLED; MissingFields exactly when a field is falsy (a paid amount of 0 included); NotFound exactly when the fields are present and the booking is missing |
| `PaymentController.NewPayment` | controllers/paymentController.js:32-44 | the saved row has total = gross_total_before_discount, paid = the requested amount, paid + balance == total, status SUCCESS and no balance-payment data |
| `PaymentController.BookingAfterPayment` | controllers/paymentController.js:47-71 | specification function: an advance payment sets status ADVANCE and the due day today + DueDays; any other type sets only the status, to INPROGRESS |
| `PaymentController.ReceiptFor` | controllers/paymentController.js:76-82 | specification function: the response carries the payment id, balance = gross total − paid, the new status and the due-day count (0 for a non-advance payment) |
| `PaymentController.CreatePayment` | controllers/paymentController.js:17-88 | a rejected request returns its error and leaves the database unchanged; an accepted one appends exactly the NewPayment row, updates only that booking, returns the receipt, and keeps Valid |
| `PaymentController.AdvancePaymentSetsDueDate` | controllers/paymentController.js:50-62 | an advance payment sets status ADVANCE and due day = today + balance_days when nonzero, else today + 3; nothing else in the booking changes; the receipt reports ADVANCE and a nonzero day count |
| `PaymentController.OtherPaymentSetsInProgress` | controllers/paymentController.js:47-71 | any other type changes only the status, to INPROGRESS, keeping the due date; the receipt reports 0 due days |
| `PaymentController.FullPaymentScenario` | controllers/paymentController.js:32-71 | a FULL payment of the whole gross total, on a booking without a due date, reports balance 0, status INPROGRESS and leaves the booking without a due date |
| `PaymentController.CheckBalance` | controllers/paymentController.js:136-144 | NotFound exactly when the booking has no payment row; NoBalance exactly when its first row's balance is at most 0; otherwise the balance of that row, which is positive |
| `PaymentController.ClearedRow` | controllers/paymentController.js:149-157 | specification function: one payment row after settling: paid = total, balance 0, balance_paid_amount = the balance read, balance_paid_date = today, status 'clear' |
| `PaymentController.ClearBalances` | controllers/paymentController.js:149-157 | specification function: every payment row of the booking becomes its ClearedRow, every other row is kept, in place |
| `PaymentController.BookingsAfterBalance` | controllers/paymentController.js:160-165 | specification function: the booking, when it exists, gets status INPROGRESS and no due date; a missing booking changes nothing |
| `PaymentController.PayRemainingBalance` | controllers/paymentController.js:119-180 | on either guard failure nothing changes; on success every payment row of the booking is settled, the booking (if present) becomes INPROGRESS with no due date, nothing else changes, and Valid is kept |
| `PaymentController.ClearBalancesValid` | controllers/paymentController.js:146-157 | settling keeps paid + balance == total on every row; each row of the booking ends with paid = total, balance 0, balance_paid_amount = the old balance and status 'clear'; other rows are untouched |
| `PaymentController.SecondBalancePaymentFails` | controllers/paymentController.js:141-157 | after a successful balance payment, a second one on the same booking yields NoBalance |
| `PaymentController.BalancePaymentRevivesCancelled` | controllers/paymentController.js:159-165 | a CANCELLED booking whose payment still owes a balance passes the guard and is set to INPROGRESS |
| `PaymentController.PastDue` | controllers/paymentController.js:96-101 | specification predicate: status ADVANCE and a due day before now; a NULL due date never qualifies |
| `PaymentController.PastDueIds` | controllers/paymentController.js:96-101 | specification function: the ids of the bookings that are PastDue |
| `PaymentController.ExpireBookings` | controllers/paymentController.js:103-109 | specification function: CancelAll of the bookings table over PastDueIds |
| `PaymentController.RunBookingExpiry` | controllers/paymentController.js:96-109 | returns exactly the ADVANCE bookings whose due day is before now; the bookings table becomes ExpireBookings of the old one; no other table changes |
| `PaymentController.BookingExpiryExact` | controllers/paymentController.js:96-109 | every selected booking is CANCELLED with no other field written; every other booking, including any not in ADVANCE, is unchanged; the set of bookings is the same |
| `PaymentController.BookingExpiryIdempotent` | controllers/paymentController.js:96-109 | running the job twice with the same clock equals running it once |
| `CancellationController.CeilDays` | controllers/cancellationController.js:22 | the result is the ceiling of ms divided by the length of a day |
| `CancellationController.DaysBefore` | controllers/cancellationController.js:19-22 | the ceiling of the difference of the two midnights, in days, is exactly eventDay - today |
| `CancellationController.DaysBeforeSign` | controllers/cancellationController.js:19-22 | the offset is 0 exactly on the event day and negative exactly after it |
| `CancellationController.CheckCancel` | controllers/cancellationController.js:14-32 | in the order the code checks them: NotFound exactly when the booking is missing; AlreadyCancelled exactly when it is CANCELLED; NoRule exactly when a live booking has no rule for its day offset; NoPayment exactly when a rule applies but the booking has no payment row; InvalidPaidAmount exactly when that row's paid amount is at most 0; success exactly when none of these holds, returning the booking's first payment row and the rule's percent |
| `CancellationController.NewCancellation` | controllers/cancellationController.js:35-48 | the record holds the booking, the payment id, total = paid amount, the rule percent, the rounded penalty, and penalty + refund == total |
| `CancellationController.CancelBooking` | controllers/cancellationController.js:6-72 | every error leaves the database unchanged; on success exactly one record is appended, only the booking's status changes (to CANCELLED), the summary repeats the record's amounts, a booking cancelled for the first time then has that record as its details, and Valid is kept |
| `CancellationController.CancellationAmountsBounded` | controllers/cancellationController.js:29-36 | with a rule percent in 0..100, an accepted cancellation has a positive total and penalty and refund each between 0 and the total |
| `CancellationController.RepeatCancelFails` | controllers/cancellationController.js:16 | after a successful cancellation, cancelling the same booking again is refused with AlreadyCancelled |
| `CancellationController.GetCancellationDetails` | controllers/cancellationController.js:75-84 | returns the first stored record of that booking (no earlier record belongs to it), or NotFound exactly when no record belongs to it |
| `CancellationController.CancelThenDetails` | controllers/cancellationController.js:78-80 | when the cancellations table is the old one plus the new record of a booking that had none, `GetCancellationDetails` returns exactly that record |
| `CancellationController.CancellationScenario` | controllers/cancellationController.js:19-36 | Rs 3000.00 paid, ten days before the event, rule "7 days or more: 20 %": accepted, penalty Rs 600.00, refund Rs 2400.00 |
| `ReferralCommission.CommissionsAfterPayout` | models/referralCommissionModel.js:42-47 | specification function: one commission row (next id, referral, booking, the booking's customer, amount) appended when the booking exists, none otherwise |
| `ReferralCommission.ReferralsAfterPayout` | models/referralCommissionModel.js:50-55 | specification function: the named referral, when it exists, gets status 'Paid'; otherwise the table is unchanged |
| `ReferralCommission.PayReferral` | models/referralCommissionModel.js:36-64 | on a store error the error is returned and nothing changes (rollback); otherwise the commission and referral tables become their after-payout values, nothing else changes, and Valid is kept |
| `ReferralCommission.PayoutAddsOneRow` | models/referralCommissionModel.js:42-47 | for an existing booking exactly one row is appended (earlier rows are kept), with the given referral, booking and amount and the booking's own customer |
| `ReferralCommission.PayoutWithoutBooking` | models/referralCommissionModel.js:42-55 | with no such booking no row is added, yet the referral is marked 'Paid' |
| `ReferralCommission.PayoutChangesOnlyNamedReferral` | models/referralCommissionModel.js:50-55 | only the named referral changes, and only its status, to 'Paid'; no referral is added or removed |
| `ReferralCommission.PayoutTwice` | models/referralCommissionModel.js:42-55 | paying twice adds two rows that differ only in their id, and the referral stays 'Paid' |
| `BookingExpiry.Overdue` | utility/bookingExpiryCorn.js:9-18 | specification predicate: status ADVANCE, a due day before today and balance_amount > 0 |
| `BookingExpiry.OverdueIds` | utility/bookingExpiryCorn.js:9-18 | specification function: the ids of the bookings that are Overdue |
| `BookingExpiry.AutoCancel` | utility/bookingExpiryCorn.js:20-26 | specification function: CancelAll of the bookings table over OverdueIds |
| `BookingExpiry.RunAutoCancel` | utility/bookingExpiryCorn.js:20-29 | returns exactly the selected bookings; after the per-row loop the bookings table is AutoCancel of the old one; no other table changes |
| `BookingExpiry.AutoCancelExact` | utility/bookingExpiryCorn.js:9-26 | exactly the ADVANCE bookings whose due day is before today and whose balance_amount is positive become CANCELLED, with no other field written; all others are unchanged |
| `BookingExpiry.AutoCancelIdempotent` | utility/bookingExpiryCorn.js:11-15 | a second run on the same day changes nothing |
| `BookingExpiry.AutoCancelNarrowerThanExpiry` | utility/bookingExpiryCorn.js:11-15 | its selection is contained in the other expiry job's selection; the bookings only the other job selects have balance_amount at most 0 |
| `BookingExpiry.PaidAdvanceSurvivesAutoCancel` | utility/bookingExpiryCorn.js:11-26 | a past-due ADVANCE booking with balance_amount 0 survives this job but is cancelled by the other one |

## Left out

- HTTP handling is not modelled. Responses are reduced to a result value; status codes, messages, `console` logging and Express routing are left out.
- `getBooking` (GET /payment/booking/:id) is left out: it only forwards a query of a booking-details model that is not part of this model.
- The PDF receipt written after a payment is left out. It is an output sink, and its failure after the writes is not modelled.
- `getAllReferrals` and the electricity-bill model and routes are left out: they are plain listing, insert and upload plumbing.
- node-cron scheduling is left out. Each job body is a method taking the current day as a parameter. Errors of the first job are caught and logged; that is not modelled.
- Concurrency between requests and jobs is left out, together with the `FOR UPDATE` row lock. Every operation is one atomic sequential step.
- The cancellation controller opens a transaction but never passes it to the model functions that write. A store failure between writing the record and updating the status would leave the record behind; the model treats the cancellation as atomic.
- `createPayment` runs without a transaction. A failure between the payment insert and the booking update (for instance a `payment_type` that is not a string, which would throw in `toUpperCase`) is not modelled, because request fields are typed strings and integers here.
- Store failures are modelled only for `payReferral`, as a `fault` parameter. Their rollback is what its source promises.
- Timestamps are reduced to day numbers. The jobs compare the due day with the current day. The time of day, the UTC date of `toISOString` against the local `NOW()`, and daylight-saving shifts that could move the ceiling of the day offset by one are not modelled.
- The booking's `balance_amount` (`Booking.balanceAmount`) feeds the auto-cancel filter (utility/bookingExpiryCorn.js:15), but no modelled operation writes it. It is taken to be maintained outside this core, and `savePayment` is taken not to touch it.
- `balance_paid_date` is recorded as the current day number.
- The commission's `payment_date` column is set by the database, not by this code, and is not modelled.
- Binary floating point is not modelled: exact paise with round-half-away-from-zero stand in for `Number(x.toFixed(2))`. Fractional `balance_days` and non-numeric amounts are left out, and penalty percents are whole numbers.
- `PaymentController.ToUpper`: folds only the ASCII letters, whereas `toUpperCase` covers all of Unicode. No non-ASCII character folds into "ADVANCE", so the ADVANCE test is unaffected.
- The models `paymentModel`, `bookingModel` and `cancellationModel` are not part of this model. `savePayment` is taken to insert the listed columns with the others NULL. `getPaymentByBookingId` and `getCancellationByBookingId` are taken to return the first row of the booking. `updateBookingStatus` is taken to write only the status. `getApplicableRule` is the abstract `rules` lookup.
- Row ids: a new row gets the id |table| + 1. This is a modelling assumption, not the store's behaviour: an auto-increment id taken by a rolled-back insert is not reused, so after a rolled-back `payReferral` the store's next commission id would be larger than the model's.
- Row order (`Tables.FirstWhere`): the booking's "first" payment or cancellation row is the first in insertion order. This is a modelling assumption: the queries have no ORDER BY, so the store promises no order, and with several rows per booking another row could come back.
