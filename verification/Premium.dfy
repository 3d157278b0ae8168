// Premium days (updatePremium in game.cpp).
module Premium {

  const DAY: nat := 86400
  const ENDLESS: nat := 65535 // the largest 16-bit number: premium without end

  type Days = d: int | 0 <= d <= ENDLESS witness 0

  // Seconds, as far as days since then still fit a signed 32-bit number
  type Time = t: int | 0 <= t < 86400 * 2147483648 witness 0

  datatype Stamp = Stamp(premiumDays: Days, lastDay: Time)

  // Whole days from one time to another: the division rounds towards zero, and the result
  // becomes an unsigned 32-bit number.
  function WholeDays(start: Time, end: Time): nat {
    if end >= start then (end - start) / DAY % 4294967296 else -((start - end) / DAY) % 4294967296
  }

  // What one update at that time leaves
  function Updated(a: Stamp, timeNow: Time): Stamp {
    if a.premiumDays != 0 && a.premiumDays != ENDLESS then
      if a.lastDay == 0 then a.(lastDay := timeNow)
      else
        var days := WholeDays(a.lastDay, timeNow);
        if days == 0 then a
        else if days >= a.premiumDays then Stamp(0, 0)
        else
          PassedDays(a.lastDay, timeNow);
          Stamp(a.premiumDays - days, timeNow - (timeNow - a.lastDay) % DAY)
    else a.(lastDay := 0)
  }

  lemma PassedDays(start: Time, end: Time)
    ensures end >= start ==> WholeDays(start, end) == (end - start) / DAY
    ensures end < start ==>
      WholeDays(start, end) == if start - end < DAY then 0 else 4294967296 - (start - end) / DAY
    ensures 0 < WholeDays(start, end) < ENDLESS ==> end >= start && 0 <= end - (end - start) % DAY
  {
    if end < start {
      var d := (start - end) / DAY;
      assert 0 <= d < 2147483648;
      assert d > 0 ==> -d % 4294967296 == 4294967296 - d;
    }
  }

  // A clock that is set back by less than a day changes nothing; set back by more, it ends
  // the premium time.
  lemma ClockSetBack(a: Stamp, timeNow: Time)
    requires Started(a) && timeNow < a.lastDay
    ensures Updated(a, timeNow) == if a.lastDay - timeNow < DAY then a else Stamp(0, 0)
  {
    PassedDays(a.lastDay, timeNow);
  }

  // Times that do not go back, starting no earlier than `start`
  predicate NonDecreasing(times: seq<Time>, start: Time) {
    times == [] || (start <= times[0] && NonDecreasing(times[1..], times[0]))
  }

  // Updates at one time after the other
  function Run(a: Stamp, times: seq<Time>): Stamp
    requires NonDecreasing(times, a.lastDay)
    decreases |times|
  {
    if times == [] then a
    else
      StampIsPast(a, times[0]);
      StillNonDecreasing(times[1..], times[0], Updated(a, times[0]).lastDay);
      Run(Updated(a, times[0]), times[1..])
  }

  lemma StampIsPast(a: Stamp, timeNow: Time)
    requires timeNow >= a.lastDay
    ensures Updated(a, timeNow).lastDay <= timeNow
  {
    PassedDays(a.lastDay, timeNow);
  }

  lemma StillNonDecreasing(times: seq<Time>, start: Time, earlier: Time)
    requires NonDecreasing(times, start) && earlier <= start
    ensures NonDecreasing(times, earlier)
  {
  }

  lemma {:induction false} LastIsLatest(times: seq<Time>, start: Time)
    requires NonDecreasing(times, start) && times != []
    ensures start <= times[|times| - 1]
    decreases |times|
  {
    if |times| > 1 {
      LastIsLatest(times[1..], times[0]);
      assert times[1..][|times| - 2] == times[|times| - 1];
    }
  }

  // An account whose premium time is running
  predicate Started(a: Stamp) {
    0 < a.premiumDays < ENDLESS && a.lastDay > 0
  }

  lemma DaysAddUp(a: nat, b: nat, c: nat)
    requires a <= b <= c
    ensures var stamp := a + (b - a) / DAY * DAY;
      stamp <= b && (c - a) / DAY == (b - a) / DAY + (c - stamp) / DAY && (c - stamp) % DAY == (c - a) % DAY
  {
  }

  // In closed form: the whole days that have passed are taken off, and the stamp moves on
  // by as many days, so that no part of a day is lost.
  lemma UpdatedIs(a: Stamp, timeNow: Time)
    requires Started(a) && timeNow >= a.lastDay
    ensures var days := (timeNow - a.lastDay) / DAY;
      Updated(a, timeNow) ==
      if days >= a.premiumDays then Stamp(0, 0) else Stamp(a.premiumDays - days, a.lastDay + days * DAY)
  {
    PassedDays(a.lastDay, timeNow);
  }

  // An update in between changes nothing.
  lemma TwoUpdatesAreOne(a: Stamp, between: Time, timeNow: Time)
    requires Started(a) && a.lastDay <= between <= timeNow
    ensures Updated(a, between).lastDay <= timeNow
    ensures Updated(Updated(a, between), timeNow) == Updated(a, timeNow)
  {
    var b := Updated(a, between);
    UpdatedIs(a, between);
    UpdatedIs(a, timeNow);
    DaysAddUp(a.lastDay, between, timeNow);
    if b.premiumDays > 0 {
      UpdatedIs(b, timeNow);
    }
  }

  lemma {:induction false} SpentStaysSpent(times: seq<Time>)
    requires NonDecreasing(times, 0)
    ensures Run(Stamp(0, 0), times) == Stamp(0, 0)
    decreases |times|
  {
    if times != [] {
      StillNonDecreasing(times[1..], times[0], 0);
      SpentStaysSpent(times[1..]);
    }
  }

  // However often and whenever a running account is updated, the last update alone would
  // have left the same.
  lemma {:induction false} OnlyTheLastUpdateCounts(a: Stamp, times: seq<Time>)
    requires Started(a) && times != [] && NonDecreasing(times, a.lastDay)
    ensures a.lastDay <= times[|times| - 1] && Run(a, times) == Updated(a, times[|times| - 1])
    decreases |times|
  {
    var last := times[|times| - 1];
    LastIsLatest(times, a.lastDay);
    if |times| == 1 {
      assert times[1..] == [];
    } else {
      var b, rest := Updated(a, times[0]), times[1..];
      StampIsPast(a, times[0]);
      StillNonDecreasing(rest, times[0], b.lastDay);
      LastIsLatest(rest, times[0]);
      assert rest[|rest| - 1] == last;
      TwoUpdatesAreOne(a, times[0], last);
      UpdatedIs(a, times[0]);
      if b.premiumDays > 0 {
        OnlyTheLastUpdateCounts(b, rest);
      } else {
        SpentStaysSpent(rest);
      }
    }
  }

  // An account that has not been started starts at its first update; without days, or with
  // endless ones, it is only wiped of its stamp.
  lemma OtherwiseTheFirst(a: Stamp, times: seq<Time>)
    requires !Started(a) && times != [] && NonDecreasing(times, a.lastDay)
    ensures a.lastDay <= times[0] <= times[|times| - 1]
    ensures 0 < a.premiumDays < ENDLESS && times[0] > 0 ==>
      Run(a, times) == Updated(a.(lastDay := times[0]), times[|times| - 1])
    ensures a.premiumDays == 0 || a.premiumDays == ENDLESS ==> Run(a, times) == a.(lastDay := 0)
  {
    var b, rest := Updated(a, times[0]), times[1..];
    LastIsLatest(times, times[0]);
    StampIsPast(a, times[0]);
    StillNonDecreasing(rest, times[0], b.lastDay);
    if 0 < a.premiumDays < ENDLESS && times[0] > 0 {
      if rest == [] {
        assert times[|times| - 1] == times[0];
      } else {
        assert rest[|rest| - 1] == times[|times| - 1];
        OnlyTheLastUpdateCounts(b, rest);
      }
    } else if a.premiumDays == 0 || a.premiumDays == ENDLESS {
      WipedStaysWiped(b, rest);
    }
  }

  lemma {:induction false} WipedStaysWiped(a: Stamp, times: seq<Time>)
    requires (a.premiumDays == 0 || a.premiumDays == ENDLESS) && a.lastDay == 0 && NonDecreasing(times, 0)
    ensures Run(a, times) == a
    decreases |times|
  {
    if times != [] {
      StillNonDecreasing(times[1..], times[0], 0);
      WipedStaysWiped(a, times[1..]);
    }
  }

  class Account {
    var premiumDays: Days
    var lastDay: Time

    constructor (premiumDays: Days, lastDay: Time)
      ensures State() == Stamp(premiumDays, lastDay)
    {
      this.premiumDays := premiumDays;
      this.lastDay := lastDay;
    }

    function State(): Stamp
      reads this
    {
      Stamp(premiumDays, lastDay)
    }

    // What is to be saved is exactly what has changed, except that an account starting at
    // time zero is saved unchanged.
    method UpdatePremium(timeNow: Time) returns (save: bool)
      modifies this
      ensures State() == Updated(old(State()), timeNow)
      ensures State() != old(State()) ==> save
      ensures save && timeNow > 0 ==> State() != old(State())
    {
      save := false;
      if premiumDays != 0 && premiumDays != ENDLESS {
        if lastDay == 0 {
          lastDay := timeNow;
          save := true;
        } else {
          var days := WholeDays(lastDay, timeNow);
          PassedDays(lastDay, timeNow);
          if days > 0 {
            if days >= premiumDays {
              premiumDays := 0;
              lastDay := 0;
            } else {
              premiumDays := premiumDays - days;
              var remainder := (timeNow - lastDay) % DAY;
              lastDay := timeNow - remainder;
            }
            save := true;
          }
        }
      } else if lastDay != 0 {
        lastDay := 0;
        save := true;
      }
    }
  }
}
