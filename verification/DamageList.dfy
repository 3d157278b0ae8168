// Damage over time (ConditionDamage in condition.cpp): how one rolled amount is
// spread over a falling list of hits.
module DamageList {

  import opened Arithmetic

  function AbsReal(x: real): real { if x < 0.0 then -x else x }

  // 1 + 2 + ... + n
  function Triangle(n: nat): nat { if n == 0 then 0 else Triangle(n - 1) + n }

  function Sum(list: seq<int>): int {
    if list == [] then 0 else Sum(list[..|list| - 1]) + list[|list| - 1]
  }

  // Sum of the entries of at least v.
  function SumFrom(list: seq<int>, v: int): int {
    if list == [] then 0
    else
      var last := list[|list| - 1];
      SumFrom(list[..|list| - 1], v) + if v <= last then last else 0
  }

  predicate NonIncreasing(list: seq<int>) {
    forall i, j | 0 <= i < j < |list| :: list[j] <= list[i]
  }

  // Total the list should have reached once the value v is used up.
  function Scheduled(amount: nat, start: int, v: int): nat
    requires 1 <= v <= start
  {
    DivideNat(start + 1 - v, amount, start);
    (start + 1 - v) * amount / start
  }

  lemma DivideNat(n: nat, amount: nat, d: nat)
    requires d > 0
    ensures 0 <= n * amount && 0 <= n * amount / d
  {
  }

  function Schedule(amount: nat, start: int): int -> int {
    v => if 1 <= v <= start then Scheduled(amount, start, v) else 0
  }

  // With the last v, the total came as close to the schedule as steps of v allow
  // (within v/2, the lower one on a tie), unless a single v already overshot it.
  ghost predicate OnSchedule(list: seq<int>, schedule: int -> int, v: int) {
    2 * schedule(v) <= 2 * SumFrom(list, v) + v &&
    (multiset(list)[v] == 1 || 2 * SumFrom(list, v) - v < 2 * schedule(v))
  }

  // ---------- The loop test, over exact rationals ----------

  lemma ScaledDistance(a: real, m: real)
    requires m > 0.0
    ensures AbsReal(1.0 - a / m) * m == AbsReal(m - a)
  {
    assert (1.0 - a / m) * m == m - a;
  }

  lemma ScaledOrder(x: real, y: real, m: real, u: real, v: real)
    requires m > 0.0 && x * m == u && y * m == v
    ensures x < y <==> u < v
  {
    assert (y - x) * m == v - u;
  }

  lemma CloserScaled(a: real, b: real, m: real)
    requires m > 0.0
    ensures AbsReal(1.0 - a / m) < AbsReal(1.0 - b / m) <==> AbsReal(m - a) < AbsReal(m - b)
  {
    ScaledDistance(a, m);
    ScaledDistance(b, m);
    ScaledOrder(AbsReal(1.0 - a / m), AbsReal(1.0 - b / m), m, AbsReal(m - a), AbsReal(m - b));
  }

  // x1 < x2: one more hit of i brings the total closer to med. For med == 0 both
  // sides are infinite and the comparison is false.
  method OneMoreIsCloser(sum: int, i: int, med: int) returns (closer: bool)
    requires 0 < i && 0 <= med && 0 < sum
    ensures closer <==> 2 * sum + i < 2 * med
  {
    if med == 0 {
      return false;
    }
    var x1 := AbsReal(1.0 - (sum + i) as real / med as real);
    var x2 := AbsReal(1.0 - sum as real / med as real);
    CloserScaled((sum + i) as real, sum as real, med as real);
    return x1 < x2;
  }

  // ---------- Arithmetic of the schedule ----------

  lemma DivisionBounds(a: nat, d: nat)
    requires d > 0
    ensures (a / d) * d <= a < (a / d) * d + d
  {
  }

  lemma Cancel(d: nat, x: int, y: int)
    requires d > 0 && d * x <= d * y
    ensures x <= y
  {
    assert d * (x - y) == d * x - d * y;
    assert 0 < x - y ==> 0 < d * (x - y);
  }

  lemma MulOrder(k: nat, x: int, y: int)
    requires x <= y
    ensures k * x <= k * y
  {
  }

  lemma Distribute(s: int, k: int, w: int, t: int)
    ensures (s - k) * w == s * w - k * w
    ensures s * (w - k * t) == s * w - k * (s * t)
  {
  }

  // The rounded-down schedule in terms of any bound on the amount.
  lemma ScheduleBelow(amount: nat, start: int, v: int, top: int)
    requires 1 <= v <= start && amount <= top && start * (start + 1) <= 2 * top
    ensures 2 * Scheduled(amount, start, v) <= 2 * top - (v - 1) * (start + 1)
  {
    var med, n, k, w := Scheduled(amount, start, v), start + 1 - v, v - 1, 2 * top;
    DivisionBounds(n * amount, start);
    MulOrder(n, 2 * amount, w);
    MulOrder(k, start * (start + 1), w);
    Distribute(start, k, w, start + 1);
    Doubled(start, n, med, amount);
    Cancel(start, 2 * med, w - k * (start + 1));
  }

  lemma Doubled(start: int, n: int, med: int, amount: int)
    requires med * start <= n * amount
    ensures start * (2 * med) <= n * (2 * amount)
  {
  }

  lemma SquareLess(v: int, start: int)
    requires 1 <= v <= start
    ensures (v - 1) * v + v - 1 <= (v - 1) * (start + 1)
  {
    assert (v - 1) * (start + 1) - (v - 1) * (v + 1) == (v - 1) * (start - v);
  }

  // A total within v/2 of the schedule leaves room, under the bound "top", for one hit
  // of each value still to come.
  ghost predicate LeavesRoom(schedule: int -> int, start: int, top: int) {
    forall v | 1 <= v <= start :: 0 <= schedule(v) && 2 * schedule(v) + v - 1 + 2 * Triangle(v - 1) <= 2 * top
  }

  lemma RoomAt(amount: nat, start: int, v: int, top: int)
    requires 1 <= v <= start && amount <= top && Triangle(start) <= top
    ensures 2 * Scheduled(amount, start, v) + v - 1 + 2 * Triangle(v - 1) <= 2 * top
  {
    TriangleTwice(start);
    TriangleTwice(v - 1);
    ScheduleBelow(amount, start, v, top);
    SquareLess(v, start);
  }

  lemma ScheduleLeavesRoom(amount: nat, start: int, top: int)
    requires amount <= top && (0 < start ==> Triangle(start) <= top)
    ensures LeavesRoom(Schedule(amount, start), start, top)
  {
    forall v | 1 <= v <= start
      ensures 0 <= Schedule(amount, start)(v)
      ensures 2 * Schedule(amount, start)(v) + v - 1 + 2 * Triangle(v - 1) <= 2 * top
    {
      RoomAt(amount, start, v, top);
    }
  }

  lemma {:induction false} TriangleTwice(n: nat)
    ensures 2 * Triangle(n) == n * (n + 1)
  {
    if n > 0 {
      TriangleTwice(n - 1);
      assert n * (n + 1) == (n - 1) * n + 2 * n;
    }
  }

  lemma ScheduleEnds(amount: nat, start: int)
    requires 1 <= start
    ensures Scheduled(amount, start, 1) == amount
  {
    var q := Scheduled(amount, start, 1);
    assert q == (start * amount) / start;
    DivisionBounds(start * amount, start);
    assert q * start == start * q && start * (amount - 1 - q) == start * amount - start - q * start;
    Cancel(start, q, amount);
    Cancel(start, amount, q + 1);
  }

  lemma {:induction false} SumFromAll(list: seq<int>, v: int)
    requires forall k | 0 <= k < |list| :: v <= list[k]
    ensures SumFrom(list, v) == Sum(list)
  {
    if list != [] {
      SumFromAll(list[..|list| - 1], v);
    }
  }

  // Every value above i is used up, and nothing below i is in the list yet.
  ghost predicate SpentDownTo(list: seq<int>, schedule: int -> int, start: int, i: int)
    requires 1 <= i <= start
  {
    NonIncreasing(list) &&
    (forall k | 0 <= k < |list| :: i <= list[k] <= start) &&
    (forall v | i < v <= start :: v in list && OnSchedule(list, schedule, v))
  }

  // One more hit of i leaves everything about the values above i as it was.
  lemma AddHit(was: seq<int>, schedule: int -> int, start: int, i: int)
    requires 1 <= i <= start && SpentDownTo(was, schedule, start, i)
    ensures SpentDownTo(was + [i], schedule, start, i)
    ensures Sum(was + [i]) == Sum(was) + i
    ensures multiset(was + [i])[i] == multiset(was)[i] + 1
  {
    var list := was + [i];
    assert list[..|list| - 1] == was;
    forall v | i < v <= start
      ensures v in list && OnSchedule(list, schedule, v)
    {
      assert v in was && OnSchedule(was, schedule, v);
      assert SumFrom(list, v) == SumFrom(was, v);
    }
  }

  // ---------- generateDamageList ----------

  // The inner do-while loop: hits of i until one more would not come closer to med.
  method AddHits(before: seq<int>, sum0: int, i: int, med: int, ghost schedule: int -> int, ghost start: int)
    returns (list: seq<int>, sum: int)
    requires 1 <= i <= start && med == schedule(i) && 0 <= med
    requires sum0 == Sum(before) && 0 <= sum0
    requires SpentDownTo(before, schedule, start, i) && multiset(before)[i] == 0
    ensures SpentDownTo(list, schedule, start, i) && i in list
    ensures sum == Sum(list)
    ensures OnSchedule(list, schedule, i)
    ensures sum == sum0 + i || (sum0 + i < sum && 2 * sum - i < 2 * med)
  {
    list, sum := before + [i], sum0 + i;
    AddHit(before, schedule, start, i);
    var closer := OneMoreIsCloser(sum, i, med);
    while closer
      invariant closer <==> 2 * sum + i < 2 * med
      invariant SpentDownTo(list, schedule, start, i) && sum == Sum(list)
      invariant 1 <= multiset(list)[i] && sum0 + i <= sum
      invariant multiset(list)[i] == 1 <==> sum == sum0 + i
      invariant multiset(list)[i] == 1 || 2 * sum - i < 2 * med
      decreases 2 * med - 2 * sum
    {
      AddHit(list, schedule, start, i);
      list, sum := list + [i], sum + i;
      closer := OneMoreIsCloser(sum, i, med);
    }
    assert i in multiset(list);
    SumFromAll(list, i);
  }

  // The outer loop over i = start, ..., 1, where schedule(i) is the "med" of each round.
  method SpreadHits(schedule: int -> int, start: int, ghost top: int) returns (list: seq<int>)
    requires 0 < start && Triangle(start) <= top && LeavesRoom(schedule, start, top)
    ensures SpentDownTo(list, schedule, start, 1) && 1 in list && OnSchedule(list, schedule, 1)
    ensures Triangle(start) <= Sum(list) <= top
  {
    var sum := 0;
    list := [];
    var i := start;
    while i > 0
      invariant 0 <= i <= start
      invariant 0 < i ==> SpentDownTo(list, schedule, start, i) && i !in list
      invariant i == 0 ==> SpentDownTo(list, schedule, start, 1) && 1 in list && OnSchedule(list, schedule, 1)
      invariant sum == Sum(list) && 0 <= sum
      invariant sum + Triangle(i) <= top && Triangle(start) <= sum + Triangle(i)
    {
      assert multiset(list)[i] == 0;
      list, sum := AddHits(list, sum, i, schedule(i), schedule, start);
      i := i - 1;
    }
  }

  // Spreads |amount| over hits of start, start - 1, ..., 1.
  method GenerateDamageList(amount0: int, start: int) returns (list: seq<int>)
    ensures start <= 0 ==> list == []
    ensures NonIncreasing(list)
    ensures forall k | 0 <= k < |list| :: 1 <= list[k] <= start
    ensures forall v | 1 <= v <= start :: v in list && OnSchedule(list, Schedule(Abs(amount0), start), v)
    ensures 0 < start ==> Sum(list) == Max(Abs(amount0), Triangle(start))
  {
    var amount := Abs(amount0);
    if start <= 0 {
      return [];
    }
    ghost var top := Max(amount, Triangle(start));
    ScheduleLeavesRoom(amount, start, top);
    list := SpreadHits(Schedule(amount, start), start, top);
    ScheduleEnds(amount, start);
    SumFromAll(list, 1);
  }

  // ---------- ConditionDamage: init, addDamage, getTotalDamage ----------

  datatype IntervalInfo = IntervalInfo(timeLeft: int, value: int, interval: int)

  const EVENT_CREATURE_THINK_INTERVAL := 1000

  function Values(list: seq<IntervalInfo>): seq<int> {
    seq(|list|, i requires 0 <= i < |list| => list[i].value)
  }

  function Intervals(list: seq<IntervalInfo>): seq<int> {
    seq(|list|, i requires 0 <= i < |list| => list[i].interval)
  }

  function Negated(list: seq<int>): seq<int> {
    seq(|list|, i requires 0 <= i < |list| => -list[i])
  }

  lemma {:induction false} SumNegated(list: seq<int>)
    ensures Sum(Negated(list)) == -Sum(list)
  {
    if list != [] {
      assert Negated(list)[..|list| - 1] == Negated(list[..|list| - 1]);
      SumNegated(list[..|list| - 1]);
    }
  }

  // Division in C++, towards zero
  function HalfTruncated(n: int): int { if n < 0 then -(-n / 2) else n / 2 }

  // std::ceil(amount / 20.0)
  function CeilDiv20(n: int): int { -(-n / 20) }

  // The first hit init uses for a rolled amount.
  function FirstHit(startDamage: int, maxDamage: int, amount: int): int {
    if maxDamage < startDamage then maxDamage
    else if startDamage == 0 then Max(1, CeilDiv20(amount))
    else startDamage
  }

  // The midpoint of the reported total lies halfway, rounded towards the lower end of the range,
  // whichever of the two that is.
  lemma HalfIsTruncated(n: int)
    ensures var h := HalfTruncated(n);
      (n >= 0 ==> 0 <= 2 * h <= n < 2 * h + 2) && (n < 0 ==> 2 * h - 2 < n <= 2 * h <= 0)
  {
  }

  // The first hit is the given start, but no more than the greatest damage; without a start it is
  // the least number of which twenty hits make up the amount.
  lemma FirstHitExactly(startDamage: nat, maxDamage: nat, amount: nat)
    requires 0 < amount
    ensures var first := FirstHit(startDamage, maxDamage, amount);
      (startDamage > 0 ==> first == if startDamage <= maxDamage then startDamage else maxDamage) &&
      (startDamage == 0 ==> first >= 1 && 20 * first >= amount && 20 * (first - 1) < amount)
  {
  }

  class ConditionDamage {
    var minDamage: int
    var maxDamage: int
    var startDamage: int
    var periodDamage: int
    var tickInterval: int
    var ticks: int
    var damageList: seq<IntervalInfo>

    // addDamage with one round, as init calls it
    method AddDamage(time0: int, value: int) returns (r: bool)
      requires periodDamage <= 0
      modifies `damageList, `ticks
      ensures r
      ensures var time := Max(time0, EVENT_CREATURE_THINK_INTERVAL);
        damageList == old(damageList) + [IntervalInfo(time, value, time)] &&
        ticks == if old(ticks) == -1 then -1 else old(ticks) + time
    {
      var time := Max(time0, EVENT_CREATURE_THINK_INTERVAL);
      damageList := damageList + [IntervalInfo(time, value, time)];
      if ticks != -1 {
        ticks := ticks + time;
      }
      return true;
    }

    method GetTotalDamage() returns (r: int)
      ensures r == Abs(if damageList != [] then Sum(Values(damageList))
                       else minDamage + HalfTruncated(maxDamage - minDamage))
    {
      var result := 0;
      if damageList != [] {
        for i := 0 to |damageList|
          invariant result == Sum(Values(damageList)[..i])
        {
          assert Values(damageList)[..i + 1][..i] == Values(damageList)[..i];
          result := result + damageList[i].value;
        }
        assert Values(damageList)[..|damageList|] == Values(damageList);
      } else {
        result := minDamage + HalfTruncated(maxDamage - minDamage);
      }
      return Abs(result);
    }

    // "amount" is the outcome of uniform_random(minDamage, maxDamage).
    method Init(amount: int) returns (r: bool)
      requires minDamage <= amount <= maxDamage || maxDamage <= amount <= minDamage
      requires 0 <= minDamage && 0 <= maxDamage && 0 <= startDamage
      modifies `damageList, `ticks, `startDamage
      ensures r <==> periodDamage != 0 || damageList != []
      ensures periodDamage != 0 || old(damageList) != [] ==>
        damageList == old(damageList) && ticks == old(ticks) && startDamage == old(startDamage)
      ensures periodDamage == 0 && old(damageList) == [] ==>
        var first := FirstHit(old(startDamage), maxDamage, amount);
        var time := Max(tickInterval, EVENT_CREATURE_THINK_INTERVAL);
        (damageList == [] <==> amount == 0 || first == 0) &&
        (damageList != [] ==> -Sum(Values(damageList)) == Max(amount, Triangle(first))) &&
        (forall k | 0 <= k < |damageList| ::
          damageList[k].interval == damageList[k].timeLeft == time && -first <= Values(damageList)[k] < 0) &&
        ticks == Sum(Intervals(damageList))
    {
      if periodDamage != 0 {
        return true;
      }
      if damageList == [] {
        ticks := 0;
        if amount != 0 {
          if startDamage > maxDamage {
            startDamage := maxDamage;
          } else if startDamage == 0 {
            startDamage := Max(1, CeilDiv20(amount));
          }
          var list := GenerateDamageList(amount, startDamage);
          AddAll(list);
          SumNegated(list);
          if 0 < startDamage {
            assert startDamage in list;
          }
        }
      }
      return damageList != [];
    }

    // The loop of init over the generated list
    method AddAll(list: seq<int>)
      requires periodDamage == 0 && damageList == [] && ticks == 0
      modifies `damageList, `ticks
      ensures Values(damageList) == Negated(list)
      ensures var time := Max(tickInterval, EVENT_CREATURE_THINK_INTERVAL);
        forall k | 0 <= k < |damageList| :: damageList[k].interval == damageList[k].timeLeft == time
      ensures ticks == Sum(Intervals(damageList))
    {
      ghost var time := Max(tickInterval, EVENT_CREATURE_THINK_INTERVAL);
      for i := 0 to |list|
        invariant Values(damageList) == Negated(list[..i])
        invariant forall k | 0 <= k < |damageList| :: damageList[k].interval == damageList[k].timeLeft == time
        invariant ticks == Sum(Intervals(damageList)) && 0 <= ticks
      {
        ghost var was := damageList;
        var _ := AddDamage(tickInterval, -list[i]);
        assert Values(damageList) == Values(was) + [-list[i]];
        assert Negated(list[..i + 1]) == Negated(list[..i]) + [-list[i]];
        assert Intervals(damageList) == Intervals(was) + [time];
        assert Intervals(damageList)[..|was|] == Intervals(was);
      }
      assert list[..|list|] == list;
    }
  }

  // ---------- When the total is the rolled amount ----------

  // A list totals the rolled amount exactly when one hit of every value fits into it.
  lemma ExactTotal(amount: nat, first: nat)
    ensures Max(amount, Triangle(first)) == amount <==> first * (first + 1) <= 2 * amount
  {
    TriangleTwice(first);
  }

  lemma Pronic(k: int)
    requires 1 <= k
    ensures k <= 38 ==> k * (k + 1) <= 40 * k - 38
    ensures k == 39 ==> k * (k + 1) == 1560
    ensures 40 <= k ==> 41 * k <= k * (k + 1)
  {
    assert 40 * k - 38 - k * (k + 1) == (k - 1) * (38 - k);
    assert k <= 38 ==> 0 <= (k - 1) * (38 - k);
    assert k * (k + 1) - 41 * k == k * (k - 40);
  }

  // With the start value init derives from the amount, this is so for every amount up
  // to 760, for 780, and for no other amount.
  lemma ExactWithDefaultStart(amount: int, maxDamage: int)
    requires 0 < amount && 0 <= maxDamage
    ensures Max(amount, Triangle(FirstHit(0, maxDamage, amount))) == amount <==> amount <= 760 || amount == 780
  {
    var k := FirstHit(0, maxDamage, amount);
    ExactTotal(amount, k);
    assert 20 * (k - 1) < amount <= 20 * k;
    Pronic(k);
  }
}
