/** The parameter rules of `create_smart_promo`: when the admin omits the
    amount, the number of uses or the lifetime of a new promo code, they are
    inferred from the shop's statistics. The statistics (the average completed
    order and the 30-day active-user count) and the clock are inputs. */
module SmartPromo {
  import opened Common

  /** The denomination ladder the inferred amount is rounded to, ascending. */
  const Ladder: seq<int> := [50, 100, 200, 500, 1000, 2000]

  /** The average used when there are no completed orders. */
  const DefaultAverage: int := 100

  /** The lifetime in days used when the caller gives none. */
  const DefaultExpiryDays: int := 30

  const SecondsPerDay: int := 86400

  function Dist(x: int, t: int): nat {
    if x >= t then x - t else t - x
  }

  /** Python `int(x)` on a float: truncation toward zero. */
  function Truncate(x: real): (n: int)
    ensures Dist(n, 0) as real <= (if x >= 0.0 then x else -x)
    ensures (if x >= 0.0 then x else -x) < Dist(n, 0) as real + 1.0
    ensures n != 0 ==> (n > 0 <==> x > 0.0)
  {
    if x >= 0.0 then x.Floor else -((-x).Floor)
  }

  /** `int(avg['a']) if avg and avg['a'] else 100`, where `avg` is the result of
      `AVG(amount)` over completed orders (None is SQL NULL: no such orders). */
  function AverageOrderAmount(avg: Option<real>): (a: int)
    ensures avg.None? || avg == Some(0.0) ==> a == DefaultAverage
    ensures avg.Some? && avg.value != 0.0 ==> a == Truncate(avg.value)
  {
    match avg
    case None => DefaultAverage
    case Some(x) => if x == 0.0 then DefaultAverage else Truncate(x)
  }

  /** The index Python's `min(xs, key=lambda x: abs(x - t))` picks: a left-to-right
      scan that replaces its candidate only on a strictly smaller distance, so the
      first of several equally near values wins. */
  function NearestIndex(xs: seq<int>, t: int): (k: nat)
    requires |xs| > 0
    ensures k < |xs|
    ensures forall j :: 0 <= j < |xs| ==> Dist(xs[k], t) <= Dist(xs[j], t)
    ensures forall j :: 0 <= j < k ==> Dist(xs[j], t) > Dist(xs[k], t)
  {
    if |xs| == 1 then 0
    else
      var k := NearestIndex(xs[..|xs| - 1], t);
      if Dist(xs[|xs| - 1], t) < Dist(xs[k], t) then |xs| - 1 else k
  }

  /** The ladder value nearest to `avg`, the lower one on a tie. */
  function LadderAmount(avg: int): (a: int)
    ensures a in Ladder
    ensures forall x :: x in Ladder ==> Dist(a, avg) <= Dist(x, avg)
    ensures forall x :: x in Ladder && Dist(x, avg) == Dist(a, avg) ==> a <= x
  {
    var k := NearestIndex(Ladder, avg);
    assert forall i, j :: 0 <= i <= j < |Ladder| ==> Ladder[i] <= Ladder[j];
    Ladder[k]
  }

  /** An average of 75 is as near to 50 as to 100, and the tie goes to 50. */
  lemma TieGoesToLowerDenomination()
    ensures LadderAmount(75) == 50 && LadderAmount(150) == 100 && LadderAmount(1500) == 1000
  {
    assert 50 in Ladder && 100 in Ladder && 1000 in Ladder;
  }

  /** With no completed orders the inferred amount is 100. */
  lemma NoOrdersGiveDefaultAmount()
    ensures LadderAmount(AverageOrderAmount(None)) == 100
    ensures LadderAmount(AverageOrderAmount(Some(0.0))) == 100
  {
    assert 100 in Ladder;
  }

  /** The usage limit stepped by the 30-day active-user count. */
  function UsesForActivity(active: int): (u: int)
    ensures u in {5, 10, 25, 50}
    ensures u == 50 <==> active > 100
    ensures u == 25 <==> 50 < active <= 100
    ensures u == 10 <==> 20 < active <= 50
    ensures u == 5 <==> active <= 20
  {
    if active > 100 then 50 else if active > 50 then 25 else if active > 20 then 10 else 5
  }

  /** More active users never give a smaller usage limit. */
  lemma UsesMonotone(a: int, b: int)
    requires a <= b
    ensures UsesForActivity(a) <= UsesForActivity(b)
  {
  }

  /** `expires_at`: none for a non-positive lifetime, otherwise `days` days after `now`
      (times are in seconds). */
  function ExpiresAt(now: int, days: int): (e: Option<int>)
    ensures e.None? <==> days <= 0
    ensures e.Some? ==> e.value > now && e.value - now == days * SecondsPerDay
  {
    if days > 0 then Some(now + days * SecondsPerDay) else None
  }

  datatype PromoParams = PromoParams(amount: int, maxUses: int, expiryDays: int, expiresAt: Option<int>)

  /** The parameters `create_smart_promo` inserts. An argument the caller gives
      (even 0) is kept; a missing one is inferred. `active` is the 30-day
      active-user count and `now` the current time. */
  function InferParams(amount: Option<int>, uses: Option<int>, expiresDays: Option<int>,
                       avg: Option<real>, active: nat, now: int): (p: PromoParams)
    ensures amount.Some? ==> p.amount == amount.value
    ensures amount.None? ==> p.amount == LadderAmount(AverageOrderAmount(avg)) && p.amount in Ladder
    ensures amount.None? && avg.None? ==> p.amount == 100
    ensures uses.Some? ==> p.maxUses == uses.value
    ensures uses.None? ==> p.maxUses == UsesForActivity(active) && p.maxUses in {5, 10, 25, 50}
    ensures expiresDays.Some? ==> p.expiryDays == expiresDays.value
    ensures expiresDays.None? ==> p.expiryDays == DefaultExpiryDays && p.expiresAt.Some?
    ensures p.expiresAt.None? <==> p.expiryDays <= 0
    ensures p.expiresAt.Some? ==> p.expiresAt.value == now + p.expiryDays * SecondsPerDay
  {
    NoOrdersGiveDefaultAmount();
    var a := if amount.Some? then amount.value else LadderAmount(AverageOrderAmount(avg));
    var u := if uses.Some? then uses.value else UsesForActivity(active);
    var d := expiresDays.GetOr(DefaultExpiryDays);
    PromoParams(a, u, d, ExpiresAt(now, d))
  }
}
