/**
 * The employer's premium tier (employer_profile/views.py): the entitlement
 * test that job_create, job_applications and the premium page each spell out
 * in full, and subscribe_premium, which turns the tier on for one calendar
 * month with dateutil's relativedelta(months=1).
 *
 * Instants are UTC date-times (timezone.now()); the time of day is kept in
 * microseconds since midnight.
 */
module Premium {
  import opened Wrappers

  const MicrosPerDay: int := 86_400_000_000
  const MaxYear: int := 9999

  datatype DateTime = DateTime(year: int, month: int, day: int, micros: int)

  predicate IsLeapYear(y: int) {
    y % 4 == 0 && (y % 100 != 0 || y % 400 == 0)
  }

  function DaysInMonth(y: int, m: int): (n: int)
    ensures 28 <= n <= 31
    ensures m == 2 ==> (n == 29 <==> IsLeapYear(y))
  {
    if m == 2 then (if IsLeapYear(y) then 29 else 28)
    else if m == 4 || m == 6 || m == 9 || m == 11 then 30
    else 31
  }

  /** A date-time Python's datetime can hold. */
  predicate Valid(t: DateTime) {
    && 1 <= t.year <= MaxYear
    && 1 <= t.month <= 12
    && 1 <= t.day <= DaysInMonth(t.year, t.month)
    && 0 <= t.micros < MicrosPerDay
  }

  /** Chronological order: year, then month, then day, then time of day. */
  predicate Before(a: DateTime, b: DateTime) {
    || a.year < b.year
    || (a.year == b.year && a.month < b.month)
    || (a.year == b.year && a.month == b.month && a.day < b.day)
    || (a.year == b.year && a.month == b.month && a.day == b.day && a.micros < b.micros)
  }

  predicate AtOrBefore(a: DateTime, b: DateTime) {
    Before(a, b) || a == b
  }

  /**
   * `t + relativedelta(months=1)`: the same day and time in the next month,
   * with the day cut down to that month's last day (31 January becomes 28 or
   * 29 February). None where the result would be past year 9999: there
   * relativedelta asks datetime.replace for year 10000, which raises
   * ValueError.
   */
  function AddOneMonth(t: DateTime): (r: Option<DateTime>)
    requires Valid(t)
    ensures r.None? <==> t.year == MaxYear && t.month == 12
    ensures r.Some? ==> Valid(r.value) && Before(t, r.value)
    ensures r.Some? ==> r.value.micros == t.micros && r.value.day <= t.day
    ensures r.Some? ==> (r.value.day == t.day <==> t.day <= DaysInMonth(r.value.year, r.value.month))
  {
    var y := if t.month == 12 then t.year + 1 else t.year;
    var m := if t.month == 12 then 1 else t.month + 1;
    if y > MaxYear then None
    else
      var last := DaysInMonth(y, m);
      Some(DateTime(y, m, if t.day <= last then t.day else last, t.micros))
  }

  /** One month on is the next month of the calendar (December wraps to January). */
  lemma {:induction false} AddOneMonthIsNextMonth(t: DateTime)
    requires Valid(t) && !(t.year == MaxYear && t.month == 12)
    ensures var r := AddOneMonth(t).value;
      12 * r.year + r.month == 12 * t.year + t.month + 1
  {
  }

  /** The premium row of one employer. */
  class EmployerPremium {
    var isSubscribed: bool
    var paymentOk: bool
    var subscribedAt: Option<DateTime>
    var subscriptionEnd: Option<DateTime>

    constructor (isSubscribed: bool, paymentOk: bool, subscribedAt: Option<DateTime>, subscriptionEnd: Option<DateTime>)
      ensures this.isSubscribed == isSubscribed && this.paymentOk == paymentOk
      ensures this.subscribedAt == subscribedAt && this.subscriptionEnd == subscriptionEnd
    {
      this.isSubscribed := isSubscribed;
      this.paymentOk := paymentOk;
      this.subscribedAt := subscribedAt;
      this.subscriptionEnd := subscriptionEnd;
    }

    /**
     * The entitlement test: subscribed, paid, an end date on record, and that
     * end not yet passed (the end instant itself still counts).
     */
    predicate ActiveAt(now: DateTime)
      reads this
    {
      isSubscribed && paymentOk && subscriptionEnd.Some? && AtOrBefore(now, subscriptionEnd.value)
    }

    /**
     * subscribe_premium: both flags on, the start recorded, and the end one
     * month after `now`. When that month would leave the calendar the view
     * raises before saving and the row keeps its old values.
     */
    method Subscribe(now: DateTime)
      requires Valid(now)
      modifies this
      ensures AddOneMonth(now).None? ==> unchanged(this)
      ensures AddOneMonth(now).Some? ==>
        && isSubscribed && paymentOk
        && subscribedAt == Some(now)
        && subscriptionEnd == AddOneMonth(now)
      ensures AddOneMonth(now).Some? ==> ActiveAt(now)
    {
      var term := AddOneMonth(now);
      if term.None? {
        return;
      }
      isSubscribed := true;
      paymentOk := true;
      subscribedAt := Some(now);
      subscriptionEnd := term;
    }
  }

  lemma BeforeTransitive(a: DateTime, b: DateTime, c: DateTime)
    requires Before(a, b) && Before(b, c)
    ensures Before(a, c)
  {
  }

  /** An entitlement that holds at some instant held at every earlier one. */
  lemma ActiveEarlier(p: EmployerPremium, earlier: DateTime, later: DateTime)
    requires p.ActiveAt(later) && AtOrBefore(earlier, later)
    ensures p.ActiveAt(earlier)
  {
    if earlier != later && later != p.subscriptionEnd.value {
      BeforeTransitive(earlier, later, p.subscriptionEnd.value);
    }
  }

  /** Once the end has passed, the entitlement is gone whatever the flags say. */
  lemma ExpiredAfterEnd(p: EmployerPremium, now: DateTime)
    requires p.subscriptionEnd.Some? && Before(p.subscriptionEnd.value, now)
    ensures !p.ActiveAt(now)
  {
  }
}
