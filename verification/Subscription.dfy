/**
 Subscription purchases. Times are milliseconds since the epoch. A purchase of n months moves the
 later of now and the old expiry by `setUTCMonth`, which keeps the day of the month and lets it
 overflow a short month.
 */
module Subscription {
  import opened Common
  import opened Calendar

  datatype Tier = FREE | PREMIUM

  datatype Account = Account(tier: Tier, planId: Option<string>, expiresAt: Option<int>)

  datatype SubscribeError = PlanNotFound | PaymentVerificationRequired | UserRecordNotFound

  /** The numbered-through month of a time, and its day of the month. */
  function MonthOf(t: int): int {
    var k := FromDay(t / MS_PER_DAY);
    12 * k.year + k.month - 1
  }

  function DayOf(t: int): int {
    FromDay(t / MS_PER_DAY).day
  }

  /** setUTCMonth(getUTCMonth() + n): MakeDate of MakeDay and the time within the day. */
  function AddMonths(t: int, n: int): int {
    var k := FromDay(t / MS_PER_DAY);
    MakeDay(k.year, k.month - 1 + n, k.day) * MS_PER_DAY + t % MS_PER_DAY
  }

  function Extend(expiresAt: Option<int>, now: int, months: nat): int {
    AddMonths(if expiresAt.Some? && expiresAt.value > now then expiresAt.value else now, months)
  }

  /** A purchase counts from now, or from the old expiry if that is later, and moves it over exactly n months. */
  lemma ExtendIsExact(expiresAt: Option<int>, now: int, n: nat)
    ensures var base := if expiresAt.Some? && now < expiresAt.value then expiresAt.value else now;
            && Extend(expiresAt, now, n) == base + 86_400_000 * (FirstDay(MonthOf(base) + n) - FirstDay(MonthOf(base)))
            && Extend(expiresAt, now, n) % 86_400_000 == base % 86_400_000
  {
    hide FirstDay, MonthOf, AddMonths;
    ExtensionLength(if expiresAt.Some? && now < expiresAt.value then expiresAt.value else now, n);
  }

  /**
   A purchase of n months advances the time by exactly the lengths of the n months crossed,
   which is between 28n and 31n days, and leaves the time of day alone.
   */
  lemma ExtensionLength(t: int, n: nat)
    ensures AddMonths(t, n) == t + MS_PER_DAY * (FirstDay(MonthOf(t) + n) - FirstDay(MonthOf(t)))
    ensures t + 28 * n * MS_PER_DAY <= AddMonths(t, n) <= t + 31 * n * MS_PER_DAY
    ensures AddMonths(t, n) % MS_PER_DAY == t % MS_PER_DAY
  {
    hide FirstDay, FromDay, Valid;
    SpanBounds(MonthOf(t), n);
  }

  /** The month and day of a time are determined by its day number. */
  lemma MonthOfDay(t: int, month: int, day: int)
    requires 1 <= day <= MonthLength(month) && t / MS_PER_DAY == FirstDay(month) + day - 1
    ensures MonthOf(t) == month && DayOf(t) == day
  {
    hide FirstDay, FromDay, MonthLength;
    KeyRoundTrip(DateKey(month / 12, month % 12 + 1, day));
  }

  lemma DayWithinMonth(t: int)
    ensures 1 <= DayOf(t) <= MonthLength(MonthOf(t)) && t / MS_PER_DAY == FirstDay(MonthOf(t)) + DayOf(t) - 1
  {
    hide FirstDay, FromDay, MonthLength;
  }

  /**
   Buying a months and then b months is buying a + b months exactly when the day of the month
   exists a months later, or when the month it overflowed is as long as the last month crossed.
   */
  lemma MonthsComposeExactly(t: int, a: nat, b: nat)
    ensures AddMonths(AddMonths(t, a), b) == AddMonths(t, a + b) <==>
            DayOf(t) <= MonthLength(MonthOf(t) + a)
            || MonthLength(MonthOf(t) + a + b) == MonthLength(MonthOf(t) + a)
  {
    hide FirstDay, FromDay, MonthLength, AddMonths, MonthOf, DayOf;
    var m, d, u := MonthOf(t), DayOf(t), AddMonths(t, a);
    DayWithinMonth(t);
    ExtensionLength(t, a);
    ExtensionLength(t, a + b);
    ExtensionLength(u, b);
    FirstDayStep(m + a);
    FirstDayStep(m + a + b);
    assert u / MS_PER_DAY == FirstDay(m + a) + d - 1;
    if d <= MonthLength(m + a) {
      MonthOfDay(u, m + a, d);
    } else {
      MonthOfDay(u, m + a + 1, d - MonthLength(m + a));
    }
  }

  /** For days up to the 28th the order and grouping of purchases never matters while the subscription is valid. */
  lemma PurchasesCombine(expiresAt: Option<int>, now: int, later: int, a: nat, b: nat)
    requires DayOf(if expiresAt.Some? && expiresAt.value > now then expiresAt.value else now) <= 28
    requires later < Extend(expiresAt, now, a)
    ensures Extend(Some(Extend(expiresAt, now, a)), later, b) == Extend(expiresAt, now, a + b)
  {
    hide FirstDay, FromDay, AddMonths, MonthOf, DayOf;
    var base := if expiresAt.Some? && expiresAt.value > now then expiresAt.value else now;
    MonthsComposeExactly(base, a, b);
  }

  /** On 31 January 2026 two purchases of one month are not one purchase of two. */
  lemma JanuaryThirtyFirst()
    ensures exists t :: AddMonths(AddMonths(t, 1), 1) != AddMonths(t, 2)
  {
    hide FirstDay, FromDay, AddMonths, MonthOf, DayOf;
    var t := (FirstDay(24312) + 30) * MS_PER_DAY;
    MonthOfDay(t, 24312, 31);
    MonthsComposeExactly(t, 1, 1);
    assert AddMonths(AddMonths(t, 1), 1) != AddMonths(t, 2);
  }

  datatype Purchase = Purchase(months: nat, now: int)

  function TotalMonths(ps: seq<Purchase>): nat {
    if ps == [] then 0 else ps[0].months + TotalMonths(ps[1..])
  }

  function ExpiryAfter(expiresAt: Option<int>, ps: seq<Purchase>): Option<int>
    decreases |ps|
  {
    if ps == [] then expiresAt else ExpiryAfter(Some(Extend(expiresAt, ps[0].now, ps[0].months)), ps[1..])
  }

  lemma OnePurchase(expiresAt: Option<int>, now: int, months: nat)
    ensures Extend(expiresAt, now, months) >= now + 28 * MS_PER_DAY * months
    ensures expiresAt.Some? ==> Extend(expiresAt, now, months) >= expiresAt.value + 28 * MS_PER_DAY * months
  {
    hide AddMonths, FirstDay, MonthOf;
    ExtensionLength(if expiresAt.Some? && expiresAt.value > now then expiresAt.value else now, months);
  }

  /**
   Over any run of paid purchases, at any times, no paid time is lost: each month adds at least 28 days
   to what was paid before, and to the time of the first purchase.
   */
  lemma {:induction false} PaidTimeIsKept(expiresAt: Option<int>, ps: seq<Purchase>)
    ensures expiresAt.Some? || ps != [] ==> ExpiryAfter(expiresAt, ps).Some?
    ensures expiresAt.Some? ==> ExpiryAfter(expiresAt, ps).value >= expiresAt.value + 28 * MS_PER_DAY * TotalMonths(ps)
    ensures ps != [] ==> ExpiryAfter(expiresAt, ps).value >= ps[0].now + 28 * MS_PER_DAY * TotalMonths(ps)
    decreases |ps|
  {
    hide Extend;
    if ps != [] {
      var p := ps[0];
      OnePurchase(expiresAt, p.now, p.months);
      PaidTimeIsKept(Some(Extend(expiresAt, p.now, p.months)), ps[1..]);
    }
  }

  /** The user table as the service sees it; the plan table and the configuration do not change. */
  class SubscriptionService {
    const planMonths: map<string, nat>
    const isProduction: bool
    const mutationsEnabled: bool
    var users: map<int, Account>

    constructor (planMonths: map<string, nat>, isProduction: bool, mutationsEnabled: bool, users: map<int, Account>)
      ensures this.planMonths == planMonths && this.isProduction == isProduction
      ensures this.mutationsEnabled == mutationsEnabled && this.users == users
    {
      this.planMonths, this.isProduction := planMonths, isProduction;
      this.mutationsEnabled, this.users := mutationsEnabled, users;
    }

    method Subscribe(userId: int, planId: string, now: int) returns (r: Result<Account, SubscribeError>)
      modifies this`users
      ensures r == Err(PlanNotFound) <==> planId !in planMonths
      ensures r == Err(PaymentVerificationRequired) <==>
              planId in planMonths && isProduction && planMonths[planId] > 0 && !mutationsEnabled
      ensures r == Err(UserRecordNotFound) ==> userId !in old(users)
      ensures r.Err? ==> users == old(users)
      ensures r.Ok? ==> userId in old(users) && users == old(users)[userId := r.value]
      ensures r.Ok? && planMonths[planId] == 0 ==> r.value == Account(FREE, None, None)
      ensures r.Ok? && planMonths[planId] > 0 ==>
              r.value == Account(PREMIUM, Some(planId),
                                 ExpiryAfter(old(users)[userId].expiresAt, [Purchase(planMonths[planId], now)]))
    {
      if planId !in planMonths {
        return Err(PlanNotFound);
      }
      var months := planMonths[planId];
      if isProduction && months > 0 && !mutationsEnabled {
        return Err(PaymentVerificationRequired);
      }
      var isFree := months == 0;
      var tier := if isFree then FREE else PREMIUM;
      var expiresAt: Option<int> := None;
      if !isFree {
        var current := if userId in users then users[userId].expiresAt else None;
        var base := if current.Some? && current.value > now then current.value else now;
        expiresAt := Some(AddMonths(base, months));
      }
      if userId !in users {
        return Err(UserRecordNotFound);
      }
      var updated := Account(tier, if isFree then None else Some(planId), expiresAt);
      users := users[userId := updated];
      return Ok(updated);
    }
  }
}
