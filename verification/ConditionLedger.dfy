// The conditions of a creature and what they add to its speed, skills and stats
// (addCondition, removeCondition and executeConditions in creature.cpp, ConditionSpeed
// and ConditionAttributes in condition.cpp, changeSpeed in game.cpp).
module ConditionLedger {

  import opened Arithmetic
  import opened ConditionTypes

  type Skills = s: seq<int> | |s| == SKILLS witness [0, 0, 0, 0, 0, 0, 0, 0, 0, 0, 0, 0, 0]
  type Stats = s: seq<int> | |s| == STATS witness [0, 0, 0, 0, 0]

  predicate IsSpeed(ctype: nat) { ctype == HASTE || ctype == PARALYZE }

  // ---------- Conditions and creatures as values ----------

  datatype Cond = Cond(
    ctype: nat, id: int, subId: nat,
    ticks: int, endTime: int,
    delta: int, // speedDelta
    skills: Skills, skillsPercent: Skills, stats: Stats, statsPercent: Stats)

  datatype Body = Body(isPlayer: bool, conds: seq<Cond>, speed: int, skills: Skills, stats: Stats)

  // What a formula, a draw or a percentage of the player's own values comes to
  datatype Rolls = Rolls(speed: int, skills: Skills, stats: Stats)

  // The moment at which something is done to a creature: the time, whether the creature
  // is still delayed by its last step, and what it does not notice
  datatype Moment = Moment(now: int, delayed: bool, suppressed: set<nat>)

  function Plus(a: seq<int>, b: seq<int>): (r: seq<int>)
    requires |a| == |b|
    ensures |r| == |a| && forall i | 0 <= i < |a| :: r[i] == a[i] + b[i]
  {
    seq(|a|, i requires 0 <= i < |a| => a[i] + b[i])
  }

  function Minus(a: seq<int>, b: seq<int>): (r: seq<int>)
    requires |a| == |b|
    ensures |r| == |a| && forall i | 0 <= i < |a| :: r[i] == a[i] - b[i]
  {
    seq(|a|, i requires 0 <= i < |a| => a[i] - b[i])
  }

  // Percentages, where there are any, take the place of the fixed values.
  function Recomputed(values: seq<int>, percents: seq<int>, rolled: seq<int>): (r: seq<int>)
    requires |values| == |percents| == |rolled|
    ensures |r| == |values| && forall i | 0 <= i < |r| :: r[i] == if percents[i] == 0 then values[i] else rolled[i]
  {
    seq(|values|, i requires 0 <= i < |values| => if percents[i] == 0 then values[i] else rolled[i])
  }

  function Apply(b: Body, c: Cond): Body {
    if IsSpeed(c.ctype) then b.(speed := b.speed + c.delta)
    else if c.ctype == ATTRIBUTES && b.isPlayer then
      b.(skills := Plus(b.skills, c.skills), stats := Plus(b.stats, c.stats))
    else b
  }

  function Unapply(b: Body, c: Cond): Body {
    if IsSpeed(c.ctype) then b.(speed := b.speed - c.delta)
    else if c.ctype == ATTRIBUTES && b.isPlayer then
      b.(skills := Minus(b.skills, c.skills), stats := Minus(b.stats, c.stats))
    else b
  }

  function WithPercents(c: Cond, r: Rolls): Cond {
    c.(skills := Recomputed(c.skills, c.skillsPercent, r.skills), stats := Recomputed(c.stats, c.statsPercent, r.stats))
  }

  // The condition as startCondition leaves it
  function Prepared(c: Cond, isPlayer: bool, now: int, r: Rolls): Cond {
    var timed := if c.ticks > 0 then c.(endTime := c.ticks + now) else c;
    if IsSpeed(c.ctype) then (if c.delta == 0 then timed.(delta := r.speed) else timed)
    else if c.ctype == ATTRIBUTES && isPlayer then WithPercents(timed, r)
    else timed
  }

  function Begin(b: Body, c: Cond, now: int, r: Rolls): Body {
    var p := Prepared(c, b.isPlayer, now, r);
    Apply(b, p).(conds := b.conds + [p])
  }

  // updateCondition: an endless condition yields to no timed one, and a longer one to no
  // shorter one.
  predicate Updates(listed: Cond, added: Cond, now: int) {
    !(listed.ticks == -1 && added.ticks > 0) && !(added.ticks >= 0 && listed.endTime > now + added.ticks)
  }

  // What the condition already listed becomes when another one like it is added
  function Merged(listed: Cond, added: Cond, isPlayer: bool, now: int, r: Rolls): Cond {
    var timed := listed.(ticks := added.ticks, endTime := added.ticks + now);
    if IsSpeed(listed.ctype) then
      if listed.ticks == -1 && added.ticks > 0 then listed
      else timed.(delta := if added.delta == 0 then r.speed else added.delta)
    else if !Updates(listed, added, now) then listed
    else if listed.ctype == ATTRIBUTES then
      var copied := timed.(skills := added.skills, skillsPercent := added.skillsPercent,
                           stats := added.stats, statsPercent := added.statsPercent);
      if isPlayer then WithPercents(copied, r) else copied
    else timed
  }

  function Extend(b: Body, i: nat, added: Cond, now: int, r: Rolls): Body
    requires i < |b.conds|
  {
    var c := Merged(b.conds[i], added, b.isPlayer, now, r);
    Apply(Unapply(b, b.conds[i]), c).(conds := b.conds[i := c])
  }

  function Erased(s: seq<Cond>, i: nat): seq<Cond>
    requires i < |s|
  {
    s[..i] + s[i + 1..]
  }

  function RemoveAt(b: Body, i: nat): Body
    requires i < |b.conds|
  {
    Unapply(b, b.conds[i]).(conds := Erased(b.conds, i))
  }

  // Which conditions a removal is after: a type, and perhaps an id
  datatype Aim = Aim(ctype: nat, anyId: bool, id: int)

  predicate Hits(a: Aim, c: Cond) {
    c.ctype == a.ctype && (a.anyId || c.id == a.id)
  }

  // A paralysed creature keeps its paralysis until its step is over, unless forced.
  predicate Held(a: Aim, force: bool, m: Moment) {
    !force && a.ctype == PARALYZE && m.delayed
  }

  function RemoveFrom(b: Body, i: nat, a: Aim, force: bool, m: Moment): Body
    requires i <= |b.conds|
    decreases |b.conds| - i
  {
    if i == |b.conds| then b
    else if !Hits(a, b.conds[i]) then RemoveFrom(b, i + 1, a, force, m)
    else if Held(a, force, m) then b
    else RemoveFrom(RemoveAt(b, i), i, a, force, m)
  }

  function Remove(b: Body, a: Aim, force: bool, m: Moment): Body {
    RemoveFrom(b, 0, a, force, m)
  }

  predicate Noticed(c: Cond, ctype: nat, subId: nat, now: int) {
    c.ctype == ctype && c.subId == subId && (c.endTime >= now || c.ticks == -1)
  }

  predicate Has(b: Body, ctype: nat, subId: nat, m: Moment) {
    ctype !in m.suppressed && exists i :: 0 <= i < |b.conds| && Noticed(b.conds[i], ctype, subId, m.now)
  }

  predicate SameKey(c: Cond, d: Cond) {
    c.ctype == d.ctype && c.id == d.id && c.subId == d.subId
  }

  // The first listed condition with the same type, id and sub-id, or the list's length
  function Find(s: seq<Cond>, c: Cond): (i: nat)
    ensures i <= |s| && (i < |s| ==> SameKey(s[i], c)) && forall j | 0 <= j < i :: !SameKey(s[j], c)
  {
    if s == [] then 0 else if SameKey(s[0], c) then 0 else Find(s[1..], c) + 1
  }

  function OnAdd(b: Body, ctype: nat, m: Moment): Body {
    if ctype == PARALYZE && Has(b, HASTE, 0, m) then Remove(b, Aim(HASTE, true, 0), false, m)
    else if ctype == HASTE && Has(b, PARALYZE, 0, m) then Remove(b, Aim(PARALYZE, true, 0), false, m)
    else b
  }

  // `starts` is what startCondition answers for the kinds that can refuse to start.
  function Add(b: Body, c: Cond, force: bool, starts: bool, m: Moment, r: Rolls): Body {
    if !force && c.ctype == HASTE && Has(b, PARALYZE, 0, m) && m.delayed then b
    else
      var i := Find(b.conds, c);
      if i < |b.conds| then Extend(b, i, c, m.now, r)
      else if starts || IsSpeed(c.ctype) || c.ctype == ATTRIBUTES then OnAdd(Begin(b, c, m.now, r), c.ctype, m)
      else b
  }

  function Aged(c: Cond, interval: nat): Cond {
    if c.ticks == -1 then c else c.(ticks := Max(0, c.ticks - interval))
  }

  // executeConditions: conditions age, and end when their time is over.
  function ExecuteFrom(b: Body, i: nat, interval: nat, now: int): Body
    requires i <= |b.conds|
    decreases |b.conds| - i
  {
    if i == |b.conds| then b
    else
      var c := Aged(b.conds[i], interval);
      var v := b.(conds := b.conds[i := c]);
      if c.ticks == -1 || c.endTime >= now then ExecuteFrom(v, i + 1, interval, now)
      else ExecuteFrom(RemoveAt(v, i), i, interval, now)
  }

  // ---------- The ledger ----------

  function SpeedOf(c: Cond): int { if IsSpeed(c.ctype) then c.delta else 0 }

  function SkillOf(c: Cond, k: nat): int
    requires k < SKILLS
  {
    if c.ctype == ATTRIBUTES then c.skills[k] else 0
  }

  function StatOf(c: Cond, k: nat): int
    requires k < STATS
  {
    if c.ctype == ATTRIBUTES then c.stats[k] else 0
  }

  function SpeedSum(s: seq<Cond>): int {
    if s == [] then 0 else SpeedOf(s[0]) + SpeedSum(s[1..])
  }

  function SkillSum(s: seq<Cond>, k: nat): int
    requires k < SKILLS
  {
    if s == [] then 0 else SkillOf(s[0], k) + SkillSum(s[1..], k)
  }

  function StatSum(s: seq<Cond>, k: nat): int
    requires k < STATS
  {
    if s == [] then 0 else StatOf(s[0], k) + StatSum(s[1..], k)
  }

  lemma {:induction false} SumsOfConcat(s: seq<Cond>, t: seq<Cond>)
    ensures SpeedSum(s + t) == SpeedSum(s) + SpeedSum(t)
    ensures forall k | 0 <= k < SKILLS :: SkillSum(s + t, k) == SkillSum(s, k) + SkillSum(t, k)
    ensures forall k | 0 <= k < STATS :: StatSum(s + t, k) == StatSum(s, k) + StatSum(t, k)
  {
    if s == [] {
      assert s + t == t;
    } else {
      assert (s + t)[1..] == s[1..] + t;
      SumsOfConcat(s[1..], t);
    }
  }

  lemma SumsOfOne(c: Cond)
    ensures SpeedSum([c]) == SpeedOf(c)
    ensures forall k | 0 <= k < SKILLS :: SkillSum([c], k) == SkillOf(c, k)
    ensures forall k | 0 <= k < STATS :: StatSum([c], k) == StatOf(c, k)
  {
    assert [c][1..] == [];
  }

  lemma SumsOfWithout(s: seq<Cond>, i: nat)
    requires i < |s|
    ensures SpeedSum(s) == SpeedSum(Erased(s, i)) + SpeedOf(s[i])
    ensures forall k | 0 <= k < SKILLS :: SkillSum(s, k) == SkillSum(Erased(s, i), k) + SkillOf(s[i], k)
    ensures forall k | 0 <= k < STATS :: StatSum(s, k) == StatSum(Erased(s, i), k) + StatOf(s[i], k)
  {
    assert s == s[..i] + ([s[i]] + s[i + 1..]);
    SumsOfConcat(s[..i], [s[i]] + s[i + 1..]);
    SumsOfConcat([s[i]], s[i + 1..]);
    SumsOfConcat(s[..i], s[i + 1..]);
    SumsOfOne(s[i]);
  }

  lemma SumsOfUpdate(s: seq<Cond>, i: nat, c: Cond)
    requires i < |s|
    ensures SpeedSum(s[i := c]) == SpeedSum(s) - SpeedOf(s[i]) + SpeedOf(c)
    ensures forall k | 0 <= k < SKILLS :: SkillSum(s[i := c], k) == SkillSum(s, k) - SkillOf(s[i], k) + SkillOf(c, k)
    ensures forall k | 0 <= k < STATS :: StatSum(s[i := c], k) == StatSum(s, k) - StatOf(s[i], k) + StatOf(c, k)
  {
    SumsOfWithout(s, i);
    SumsOfWithout(s[i := c], i);
    assert Erased(s[i := c], i) == Erased(s, i);
  }

  // What the creature has that does not come from conditions
  datatype Other = Other(speed: int, skills: Skills, stats: Stats)

  ghost predicate Balanced(b: Body, o: Other) {
    b.speed == o.speed + SpeedSum(b.conds) &&
    (forall k | 0 <= k < SKILLS :: b.skills[k] == o.skills[k] + if b.isPlayer then SkillSum(b.conds, k) else 0) &&
    (forall k | 0 <= k < STATS :: b.stats[k] == o.stats[k] + if b.isPlayer then StatSum(b.conds, k) else 0)
  }

  ghost predicate KeysDiffer(s: seq<Cond>) {
    forall i, j | 0 <= i < j < |s| :: !SameKey(s[i], s[j])
  }

  ghost predicate Inv(b: Body, o: Other) {
    Balanced(b, o) && KeysDiffer(b.conds)
  }

  lemma RemoveAtKeepsInv(b: Body, i: nat, o: Other)
    requires Inv(b, o) && i < |b.conds|
    ensures Inv(RemoveAt(b, i), o)
  {
    SumsOfWithout(b.conds, i);
  }

  lemma BeginKeepsInv(b: Body, c: Cond, now: int, r: Rolls, o: Other)
    requires Inv(b, o) && Find(b.conds, c) == |b.conds|
    ensures Inv(Begin(b, c, now, r), o)
  {
    var p := Prepared(c, b.isPlayer, now, r);
    SumsOfConcat(b.conds, [p]);
    SumsOfOne(p);
  }

  lemma ExtendKeepsInv(b: Body, i: nat, added: Cond, now: int, r: Rolls, o: Other)
    requires Inv(b, o) && i < |b.conds| && SameKey(b.conds[i], added)
    ensures Inv(Extend(b, i, added, now, r), o)
  {
    var c := Merged(b.conds[i], added, b.isPlayer, now, r);
    SumsOfUpdate(b.conds, i, c);
  }

  lemma {:induction false} RemoveFromKeepsInv(b: Body, i: nat, a: Aim, force: bool, m: Moment, o: Other)
    requires Inv(b, o) && i <= |b.conds|
    ensures Inv(RemoveFrom(b, i, a, force, m), o) && RemoveFrom(b, i, a, force, m).isPlayer == b.isPlayer
    decreases |b.conds| - i
  {
    if i < |b.conds| {
      if !Hits(a, b.conds[i]) {
        RemoveFromKeepsInv(b, i + 1, a, force, m, o);
      } else if !Held(a, force, m) {
        RemoveAtKeepsInv(b, i, o);
        RemoveFromKeepsInv(RemoveAt(b, i), i, a, force, m, o);
      }
    }
  }

  lemma AgedKeepsInv(b: Body, i: nat, interval: nat, o: Other)
    requires Inv(b, o) && i < |b.conds|
    ensures Inv(b.(conds := b.conds[i := Aged(b.conds[i], interval)]), o)
  {
    SumsOfUpdate(b.conds, i, Aged(b.conds[i], interval));
  }

  lemma {:induction false} ExecuteKeepsInv(b: Body, i: nat, interval: nat, now: int, o: Other)
    requires Inv(b, o) && i <= |b.conds|
    ensures Inv(ExecuteFrom(b, i, interval, now), o) && ExecuteFrom(b, i, interval, now).isPlayer == b.isPlayer
    decreases |b.conds| - i
  {
    if i < |b.conds| {
      var c := Aged(b.conds[i], interval);
      var v := b.(conds := b.conds[i := c]);
      AgedKeepsInv(b, i, interval, o);
      if c.ticks == -1 || c.endTime >= now {
        ExecuteKeepsInv(v, i + 1, interval, now, o);
      } else {
        RemoveAtKeepsInv(v, i, o);
        ExecuteKeepsInv(RemoveAt(v, i), i, interval, now, o);
      }
    }
  }

  lemma AddKeepsInv(b: Body, c: Cond, force: bool, starts: bool, m: Moment, r: Rolls, o: Other)
    requires Inv(b, o)
    ensures Inv(Add(b, c, force, starts, m, r), o) && Add(b, c, force, starts, m, r).isPlayer == b.isPlayer
  {
    var i := Find(b.conds, c);
    if i < |b.conds| {
      ExtendKeepsInv(b, i, c, m.now, r, o);
    } else {
      var v := Begin(b, c, m.now, r);
      BeginKeepsInv(b, c, m.now, r, o);
      RemoveFromKeepsInv(v, 0, Aim(HASTE, true, 0), false, m, o);
      RemoveFromKeepsInv(v, 0, Aim(PARALYZE, true, 0), false, m, o);
    }
  }

  // ---------- What a removal removes ----------

  function Missed(s: seq<Cond>, a: Aim): seq<Cond> {
    if s == [] then [] else (if Hits(a, s[0]) then [] else [s[0]]) + Missed(s[1..], a)
  }

  lemma {:induction false} MissedHasNoHits(s: seq<Cond>, a: Aim, c: Cond)
    ensures c in Missed(s, a) <==> c in s && !Hits(a, c)
  {
    if s != [] {
      MissedHasNoHits(s[1..], a, c);
      assert c in s <==> c == s[0] || c in s[1..];
    }
  }

  // A removal takes out exactly the conditions it is after, in place, unless the creature
  // has to wait with it, and then it takes out nothing.
  lemma {:induction false} RemoveIsExact(b: Body, i: nat, a: Aim, force: bool, m: Moment)
    requires i <= |b.conds|
    ensures RemoveFrom(b, i, a, force, m).conds ==
      if Held(a, force, m) then b.conds else b.conds[..i] + Missed(b.conds[i..], a)
    decreases |b.conds| - i
  {
    if i < |b.conds| {
      var rest := b.conds[i..];
      assert rest[1..] == b.conds[i + 1..];
      if !Hits(a, b.conds[i]) {
        RemoveIsExact(b, i + 1, a, force, m);
        assert b.conds[..i + 1] == b.conds[..i] + [b.conds[i]];
      } else if !Held(a, force, m) {
        RemoveIsExact(RemoveAt(b, i), i, a, force, m);
        assert Erased(b.conds, i)[..i] == b.conds[..i];
        assert Erased(b.conds, i)[i..] == b.conds[i + 1..];
      }
    }
  }

  // What stays listed: everything of another type, or, if an id is asked for, with another id,
  // and everything if the creature has to wait.
  lemma StaysExactly(b: Body, a: Aim, force: bool, m: Moment, c: Cond)
    ensures c in Remove(b, a, force, m).conds <==>
      c in b.conds &&
      ((!force && a.ctype == PARALYZE && m.delayed) || c.ctype != a.ctype || (!a.anyId && c.id != a.id))
  {
    RemoveIsExact(b, 0, a, force, m);
    assert b.conds[0..] == b.conds;
    MissedHasNoHits(b.conds, a, c);
  }

  // A creature has a condition if one with that type and sub-id is listed that is endless or
  // whose end is not past, and it notices that type.
  lemma HasExactly(b: Body, ctype: nat, subId: nat, m: Moment)
    ensures Has(b, ctype, subId, m) <==>
      ctype !in m.suppressed &&
      exists c :: c in b.conds && c.ctype == ctype && c.subId == subId && (c.ticks == -1 || c.endTime >= m.now)
  {
    if ctype !in m.suppressed {
      if c :| c in b.conds && c.ctype == ctype && c.subId == subId && (c.ticks == -1 || c.endTime >= m.now) {
        var i :| 0 <= i < |b.conds| && b.conds[i] == c;
        assert Noticed(b.conds[i], ctype, subId, m.now);
      }
    }
  }

  lemma RemovedIsNotNoticed(b: Body, ctype: nat, m: Moment)
    ensures Has(Remove(b, Aim(ctype, true, 0), false, m), ctype, 0, m) <==>
      Has(b, ctype, 0, m) && ctype == PARALYZE && m.delayed
  {
    var a := Aim(ctype, true, 0);
    RemoveIsExact(b, 0, a, false, m);
    assert b.conds[0..] == b.conds;
    if !Held(a, false, m) {
      forall i | 0 <= i < |Missed(b.conds, a)|
        ensures !Noticed(Missed(b.conds, a)[i], ctype, 0, m.now)
      {
        MissedHasNoHits(b.conds, a, Missed(b.conds, a)[i]);
      }
    }
  }

  lemma HasAfterBegin(b: Body, c: Cond, ctype: nat, m: Moment, r: Rolls)
    requires c.ctype != ctype
    ensures Has(Begin(b, c, m.now, r), ctype, 0, m) <==> Has(b, ctype, 0, m)
  {
    var v := Begin(b, c, m.now, r);
    assert forall i | 0 <= i < |b.conds| :: v.conds[i] == b.conds[i];
    assert !Noticed(v.conds[|b.conds|], ctype, 0, m.now);
  }

  // A new paralysis ends every haste there is.
  lemma ParalysisEndsHaste(b: Body, c: Cond, force: bool, starts: bool, m: Moment, r: Rolls)
    requires c.ctype == PARALYZE && Find(b.conds, c) == |b.conds| && HASTE !in m.suppressed
    ensures !Has(Add(b, c, force, starts, m, r), HASTE, 0, m)
  {
    RemovedIsNotNoticed(Begin(b, c, m.now, r), HASTE, m);
  }

  // A new haste ends paralysis exactly when the creature is not delayed by its last step;
  // otherwise it waits, or, if forced, stands beside the paralysis.
  lemma HasteEndsParalysisExactly(b: Body, c: Cond, force: bool, starts: bool, m: Moment, r: Rolls)
    requires c.ctype == HASTE && Find(b.conds, c) == |b.conds|
    ensures Has(Add(b, c, force, starts, m, r), PARALYZE, 0, m) <==> Has(b, PARALYZE, 0, m) && m.delayed
    ensures Add(b, c, force, starts, m, r) == b <==> Has(b, PARALYZE, 0, m) && m.delayed && !force
  {
    var v := Begin(b, c, m.now, r);
    HasAfterBegin(b, c, PARALYZE, m, r);
    RemovedIsNotNoticed(v, PARALYZE, m);
    NewestStays(b, c, m, r);
  }

  lemma NewestStays(b: Body, c: Cond, m: Moment, r: Rolls)
    requires c.ctype == HASTE && Find(b.conds, c) == |b.conds|
    ensures OnAdd(Begin(b, c, m.now, r), HASTE, m) != b
  {
    var p := Prepared(c, b.isPlayer, m.now, r);
    NewKeyIsNotListed(b.conds, c, p);
    NewestIsMissed(Begin(b, c, m.now, r), p, m);
  }

  lemma NewestIsMissed(v: Body, p: Cond, m: Moment)
    requires p.ctype == HASTE && v.conds != [] && v.conds[|v.conds| - 1] == p
    ensures p in OnAdd(v, HASTE, m).conds
  {
    var a := Aim(PARALYZE, true, 0);
    RemoveIsExact(v, 0, a, false, m);
    assert v.conds[0..] == v.conds;
    MissedHasNoHits(v.conds, a, p);
  }

  lemma NewKeyIsNotListed(s: seq<Cond>, c: Cond, p: Cond)
    requires Find(s, c) == |s| && SameKey(p, c)
    ensures p !in s
  {
    forall i | 0 <= i < |s|
      ensures s[i] != p
    {
      assert !SameKey(s[i], c);
    }
  }

  // ---------- What a new or a renewed condition gives ----------

  lemma {:induction false} FindIs(s: seq<Cond>, c: Cond, j: nat)
    requires KeysDiffer(s) && j < |s| && SameKey(s[j], c)
    ensures Find(s, c) == j
  {
    if j > 0 {
      assert !SameKey(s[0], s[j]);
      FindIs(s[1..], c, j - 1);
    }
  }

  // A haste waits while the creature is paralysed and delayed by its last step.
  predicate Waits(b: Body, c: Cond, force: bool, m: Moment) {
    !force && c.ctype == HASTE && m.delayed && Has(b, PARALYZE, 0, m)
  }

  // A speed condition that is listed gives what the added one says, from now on and for as long
  // as that one lasts, unless it is endless and the added one is not.
  lemma SpeedRenewed(b: Body, j: nat, c: Cond, force: bool, starts: bool, m: Moment, r: Rolls)
    requires KeysDiffer(b.conds) && j < |b.conds| && SameKey(b.conds[j], c) && IsSpeed(c.ctype)
    requires !Waits(b, c, force, m)
    ensures var v, was := Add(b, c, force, starts, m, r), b.conds[j];
      var delta := if c.delta == 0 then r.speed else c.delta;
      if was.ticks == -1 && c.ticks > 0 then v == b
      else
        v.speed == b.speed + delta - was.delta && v.skills == b.skills && v.stats == b.stats &&
        v.conds == b.conds[j := was.(delta := delta, ticks := c.ticks, endTime := m.now + c.ticks)]
  {
    FindIs(b.conds, c, j);
    assert b.conds[j := b.conds[j]] == b.conds;
  }

  // So do attributes, if the added condition does not end earlier either.
  lemma AttributesRenewed(b: Body, j: nat, c: Cond, force: bool, starts: bool, m: Moment, r: Rolls)
    requires KeysDiffer(b.conds) && j < |b.conds| && SameKey(b.conds[j], c) && c.ctype == ATTRIBUTES && b.isPlayer
    ensures var v, was := Add(b, c, force, starts, m, r), b.conds[j];
      if (was.ticks == -1 && c.ticks > 0) || (c.ticks >= 0 && was.endTime > m.now + c.ticks) then v == b
      else
        v.speed == b.speed && |v.conds| == |b.conds| &&
        (forall i | 0 <= i < |b.conds| && i != j :: v.conds[i] == b.conds[i]) &&
        v.conds[j].ticks == c.ticks && v.conds[j].endTime == m.now + c.ticks &&
        (forall k | 0 <= k < SKILLS ::
           var now := if c.skillsPercent[k] == 0 then c.skills[k] else r.skills[k];
           v.conds[j].skills[k] == now && v.skills[k] == b.skills[k] + now - was.skills[k]) &&
        (forall k | 0 <= k < STATS ::
           var now := if c.statsPercent[k] == 0 then c.stats[k] else r.stats[k];
           v.conds[j].stats[k] == now && v.stats[k] == b.stats[k] + now - was.stats[k])
  {
    FindIs(b.conds, c, j);
    assert b.conds[j := b.conds[j]] == b.conds;
    GiveAndTake(b.skills, b.conds[j].skills);
    GiveAndTake(b.stats, b.conds[j].stats);
  }

  // Of other conditions the time is renewed, under the same terms, and nothing else.
  lemma TimeRenewed(b: Body, j: nat, c: Cond, force: bool, starts: bool, m: Moment, r: Rolls)
    requires KeysDiffer(b.conds) && j < |b.conds| && SameKey(b.conds[j], c)
    requires !IsSpeed(c.ctype) && c.ctype != ATTRIBUTES
    ensures var v, was := Add(b, c, force, starts, m, r), b.conds[j];
      if (was.ticks == -1 && c.ticks > 0) || (c.ticks >= 0 && was.endTime > m.now + c.ticks) then v == b
      else v == b.(conds := b.conds[j := was.(ticks := c.ticks, endTime := m.now + c.ticks)])
  {
    FindIs(b.conds, c, j);
    assert b.conds[j := b.conds[j]] == b.conds;
  }

  // A condition that is not listed joins the list at its end, with its time running from now
  // on, and gives what it says.
  lemma NewIsBegun(b: Body, c: Cond, force: bool, starts: bool, m: Moment, r: Rolls)
    requires starts || c.ctype in {HASTE, PARALYZE, ATTRIBUTES}
    requires (forall i | 0 <= i < |b.conds| :: !SameKey(b.conds[i], c)) && !Waits(b, c, force, m)
    requires c.ctype == HASTE ==> !Has(b, PARALYZE, 0, m)
    requires c.ctype == PARALYZE ==> !Has(b, HASTE, 0, m)
    ensures var v := Add(b, c, force, starts, m, r);
      |v.conds| == |b.conds| + 1 && v.conds[..|b.conds|] == b.conds &&
      var p := v.conds[|b.conds|];
      SameKey(p, c) && p.ticks == c.ticks && p.endTime == (if c.ticks > 0 then m.now + c.ticks else c.endTime) &&
      (IsSpeed(c.ctype) ==>
         p.delta == (if c.delta == 0 then r.speed else c.delta) && v.speed == b.speed + p.delta &&
         v.skills == b.skills && v.stats == b.stats) &&
      (c.ctype == ATTRIBUTES && b.isPlayer ==>
         v.speed == b.speed &&
         (forall k | 0 <= k < SKILLS ::
            v.skills[k] == b.skills[k] + if c.skillsPercent[k] == 0 then c.skills[k] else r.skills[k]) &&
         (forall k | 0 <= k < STATS ::
            v.stats[k] == b.stats[k] + if c.statsPercent[k] == 0 then c.stats[k] else r.stats[k])) &&
      (!IsSpeed(c.ctype) && (c.ctype != ATTRIBUTES || !b.isPlayer) ==>
         v.speed == b.speed && v.skills == b.skills && v.stats == b.stats)
  {
    if c.ctype == HASTE {
      HasAfterBegin(b, c, PARALYZE, m, r);
    } else if c.ctype == PARALYZE {
      HasAfterBegin(b, c, HASTE, m, r);
    }
  }

  // One of the other kinds that refuses to start changes nothing.
  lemma RefusedStaysOut(b: Body, c: Cond, force: bool, m: Moment, r: Rolls)
    requires c.ctype !in {HASTE, PARALYZE, ATTRIBUTES} && forall i | 0 <= i < |b.conds| :: !SameKey(b.conds[i], c)
    ensures Add(b, c, force, false, m, r) == b
  {
  }

  // ---------- When conditions end ----------

  // What is left of a list when the time is `now`, aged
  function Lasting(s: seq<Cond>, interval: nat, now: int): seq<Cond> {
    if s == [] then []
    else
      (if s[0].ticks == -1 || s[0].endTime >= now then [Aged(s[0], interval)] else []) +
      Lasting(s[1..], interval, now)
  }

  // Executing the conditions keeps, in their order, exactly those that are endless or whose time
  // is not over.
  lemma {:induction false} ExecuteIsExact(b: Body, i: nat, interval: nat, now: int)
    requires i <= |b.conds|
    ensures ExecuteFrom(b, i, interval, now).conds == b.conds[..i] + Lasting(b.conds[i..], interval, now)
    decreases |b.conds| - i
  {
    if i < |b.conds| {
      var c := Aged(b.conds[i], interval);
      var v := b.(conds := b.conds[i := c]);
      assert b.conds[i..][1..] == b.conds[i + 1..];
      if c.ticks == -1 || c.endTime >= now {
        ExecuteIsExact(v, i + 1, interval, now);
        assert v.conds[..i + 1] == b.conds[..i] + [c] && v.conds[i + 1..] == b.conds[i + 1..];
      } else {
        ExecuteIsExact(RemoveAt(v, i), i, interval, now);
        assert RemoveAt(v, i).conds[..i] == b.conds[..i] && RemoveAt(v, i).conds[i..] == b.conds[i + 1..];
      }
    }
  }

  lemma {:induction false} LastingIs(s: seq<Cond>, interval: nat, now: int, d: Cond)
    ensures d in Lasting(s, interval, now) <==>
      exists c :: c in s && d == Aged(c, interval) && (c.ticks == -1 || c.endTime >= now)
  {
    if s != [] {
      LastingIs(s[1..], interval, now, d);
      assert forall c :: c in s <==> c == s[0] || c in s[1..];
    }
  }

  predicate Lists(b: Body, c: Cond) { exists d :: d in b.conds && SameKey(d, c) }

  datatype Tick = Tick(interval: nat, now: int)

  function ExecuteAll(b: Body, ticks: seq<Tick>): Body
    decreases |ticks|
  {
    if ticks == [] then b else ExecuteAll(ExecuteFrom(b, 0, ticks[0].interval, ticks[0].now), ticks[1..])
  }

  lemma StaysListed(b: Body, interval: nat, now: int, c: Cond)
    requires c in b.conds && (c.ticks == -1 || c.endTime >= now)
    ensures Aged(c, interval) in ExecuteFrom(b, 0, interval, now).conds
  {
    ExecuteIsExact(b, 0, interval, now);
    assert b.conds[0..] == b.conds;
    LastingIs(b.conds, interval, now, Aged(c, interval));
  }

  lemma WasListed(b: Body, interval: nat, now: int, d: Cond) returns (c: Cond)
    requires d in ExecuteFrom(b, 0, interval, now).conds
    ensures c in b.conds && d == Aged(c, interval) && (c.ticks == -1 || c.endTime >= now)
  {
    ExecuteIsExact(b, 0, interval, now);
    assert b.conds[0..] == b.conds;
    LastingIs(b.conds, interval, now, d);
    c :| c in b.conds && d == Aged(c, interval) && (c.ticks == -1 || c.endTime >= now);
  }

  lemma {:induction false} UnlistedStays(b: Body, c: Cond, ticks: seq<Tick>)
    requires !Lists(b, c)
    ensures !Lists(ExecuteAll(b, ticks), c)
    decreases |ticks|
  {
    if ticks != [] {
      var v := ExecuteFrom(b, 0, ticks[0].interval, ticks[0].now);
      forall d | d in v.conds
        ensures !SameKey(d, c)
      {
        var e := WasListed(b, ticks[0].interval, ticks[0].now, d);
        assert !SameKey(e, c);
      }
      UnlistedStays(v, c, ticks[1..]);
    }
  }

  // However often conditions are executed, one with an end stays listed exactly as long as the
  // time is not past it.
  lemma {:induction false} EndsOnTime(b: Body, c: Cond, ticks: seq<Tick>)
    requires c in b.conds && c.ticks != -1 && forall d | d in b.conds && SameKey(d, c) :: d == c
    ensures Lists(ExecuteAll(b, ticks), c) <==> forall t | t in ticks :: t.now <= c.endTime
    decreases |ticks|
  {
    if ticks != [] {
      var interval, now := ticks[0].interval, ticks[0].now;
      var v, aged := ExecuteFrom(b, 0, interval, now), Aged(c, interval);
      assert forall t :: t in ticks <==> t == ticks[0] || t in ticks[1..];
      forall d | d in v.conds && SameKey(d, c)
        ensures d == aged && now <= c.endTime
      {
        var e := WasListed(b, interval, now, d);
      }
      if now <= c.endTime {
        StaysListed(b, interval, now, c);
        EndsOnTime(v, aged, ticks[1..]);
        SameLists(ExecuteAll(b, ticks), c, aged);
      } else {
        UnlistedStays(v, c, ticks[1..]);
      }
    }
  }

  lemma SameLists(b: Body, c: Cond, d: Cond)
    requires SameKey(c, d)
    ensures Lists(b, c) <==> Lists(b, d)
  {
    assert forall e: Cond :: SameKey(e, c) <==> SameKey(e, d);
  }

  function Elapsed(ticks: seq<Tick>): nat { if ticks == [] then 0 else ticks[0].interval + Elapsed(ticks[1..]) }

  // As long as it stays, its ticks run down, to 0 at least, those of an endless one do not, and
  // nothing else of it changes.
  lemma {:induction false} TicksRunDown(b: Body, c: Cond, ticks: seq<Tick>)
    requires c in b.conds && c.ticks >= -1 && (c.ticks == -1 || forall t | t in ticks :: t.now <= c.endTime)
    ensures c.(ticks := if c.ticks == -1 then -1 else Max(0, c.ticks - Elapsed(ticks))) in ExecuteAll(b, ticks).conds
    decreases |ticks|
  {
    if ticks != [] {
      var interval, now := ticks[0].interval, ticks[0].now;
      var aged := c.(ticks := if c.ticks == -1 then -1 else Max(0, c.ticks - interval));
      assert forall t :: t in ticks <==> t == ticks[0] || t in ticks[1..];
      StaysListed(b, interval, now, c);
      TicksRunDown(ExecuteFrom(b, 0, interval, now), aged, ticks[1..]);
    }
  }

  // A new condition for a time stays exactly until that time has passed.
  lemma StartedEndsOnTime(b: Body, c: Cond, force: bool, m: Moment, r: Rolls, ticks: seq<Tick>)
    requires (forall i | 0 <= i < |b.conds| :: !SameKey(b.conds[i], c)) && !Waits(b, c, force, m) && c.ticks > 0
    requires c.ctype == HASTE ==> !Has(b, PARALYZE, 0, m)
    requires c.ctype == PARALYZE ==> !Has(b, HASTE, 0, m)
    ensures Lists(ExecuteAll(Add(b, c, force, true, m, r), ticks), c) <==>
      forall t | t in ticks :: t.now <= m.now + c.ticks
  {
    NewIsBegun(b, c, force, true, m, r);
    var v := Add(b, c, force, true, m, r);
    var p := v.conds[|b.conds|];
    assert v.conds == b.conds + [p];
    forall d | d in v.conds && SameKey(d, p)
      ensures d == p
    {
      var i :| 0 <= i < |v.conds| && v.conds[i] == d;
      assert i == |b.conds|;
    }
    EndsOnTime(v, p, ticks);
    SameLists(ExecuteAll(v, ticks), c, p);
  }

  // ---------- Runs ----------

  datatype Event =
    | AddCondition(c: Cond, force: bool, starts: bool, m: Moment, r: Rolls)
    | RemoveConditions(a: Aim, force: bool, m: Moment)
    | RemoveOne(i: nat, force: bool, m: Moment)
    | Execute(interval: nat, now: int)
    | ChangeOther(speed: int, skills: Skills, stats: Stats)

  datatype Scene = Scene(body: Body, other: Other)

  function Step(s: Scene, e: Event): Scene {
    var b := s.body;
    match e
    case AddCondition(c, force, starts, m, r) => s.(body := Add(b, c, force, starts, m, r))
    case RemoveConditions(a, force, m) => s.(body := Remove(b, a, force, m))
    case RemoveOne(i, force, m) =>
      if i >= |b.conds| then s
      else if !force && b.conds[i].ctype == PARALYZE && m.delayed then s
      else s.(body := RemoveAt(b, i))
    case Execute(interval, now) => s.(body := ExecuteFrom(b, 0, interval, now))
    case ChangeOther(speed, skills, stats) =>
      Scene(b.(speed := b.speed + speed, skills := Plus(b.skills, skills), stats := Plus(b.stats, stats)),
            Other(s.other.speed + speed, Plus(s.other.skills, skills), Plus(s.other.stats, stats)))
  }

  function Run(s: Scene, es: seq<Event>): Scene
    decreases |es|
  {
    if es == [] then s else Run(Step(s, es[0]), es[1..])
  }

  lemma StepKeepsInv(s: Scene, e: Event)
    requires Inv(s.body, s.other)
    ensures Inv(Step(s, e).body, Step(s, e).other) && Step(s, e).body.isPlayer == s.body.isPlayer
  {
    var b := s.body;
    match e
    case AddCondition(c, force, starts, m, r) => AddKeepsInv(b, c, force, starts, m, r, s.other);
    case RemoveConditions(a, force, m) => RemoveFromKeepsInv(b, 0, a, force, m, s.other);
    case RemoveOne(i, force, m) =>
      if i < |b.conds| {
        RemoveAtKeepsInv(b, i, s.other);
      }
    case Execute(interval, now) => ExecuteKeepsInv(b, 0, interval, now, s.other);
    case ChangeOther(_, _, _) =>
  }

  // Whatever is added, extended, removed or runs out, and whatever else changes them, the
  // creature's speed, skills and stats are what they would be without conditions plus what
  // the listed conditions say; and no two listed conditions are of the same kind.
  lemma {:induction false} EveryRunIsBalanced(s: Scene, es: seq<Event>)
    requires Inv(s.body, s.other)
    ensures Inv(Run(s, es).body, Run(s, es).other) && Run(s, es).body.isPlayer == s.body.isPlayer
    decreases |es|
  {
    if es != [] {
      StepKeepsInv(s, es[0]);
      EveryRunIsBalanced(Step(s, es[0]), es[1..]);
    }
  }

  // What conditions have given they have taken back once they are gone.
  lemma NothingIsLeftBehind(s: Scene, es: seq<Event>)
    requires Inv(s.body, s.other) && Run(s, es).body.conds == []
    ensures var v := Run(s, es);
      v.body.speed == v.other.speed && v.body.skills == v.other.skills && v.body.stats == v.other.stats
  {
    EveryRunIsBalanced(s, es);
  }

  // ---------- The objects and their methods ----------

  class Condition {
    const ctype: nat
    const id: int
    const subId: nat
    var ticks: int
    var endTime: int
    var speedDelta: int
    var skills: Skills
    var skillsPercent: Skills
    var stats: Stats
    var statsPercent: Stats

    constructor (c: Cond)
      ensures Picture() == c
    {
      ctype, id, subId := c.ctype, c.id, c.subId;
      ticks, endTime, speedDelta := c.ticks, c.endTime, c.delta;
      skills, skillsPercent, stats, statsPercent := c.skills, c.skillsPercent, c.stats, c.statsPercent;
    }

    function Picture(): Cond
      reads this
    {
      Cond(ctype, id, subId, ticks, endTime, speedDelta, skills, skillsPercent, stats, statsPercent)
    }

    method SetTicks(newTicks: int, now: int)
      modifies `ticks, `endTime
      ensures ticks == newTicks && endTime == newTicks + now
    {
      ticks := newTicks;
      endTime := ticks + now;
    }

    method UpdatePercentSkills(rolled: Skills)
      modifies `skills
      ensures skills == Recomputed(old(skills), skillsPercent, rolled)
    {
      for i := 0 to SKILLS
        invariant forall k | 0 <= k < SKILLS ::
          skills[k] == if k < i && skillsPercent[k] != 0 then rolled[k] else old(skills)[k]
      {
        if skillsPercent[i] != 0 {
          skills := skills[i := rolled[i]];
        }
      }
    }

    method UpdatePercentStats(rolled: Stats)
      modifies `stats
      ensures stats == Recomputed(old(stats), statsPercent, rolled)
    {
      for i := 0 to STATS
        invariant forall k | 0 <= k < STATS ::
          stats[k] == if k < i && statsPercent[k] != 0 then rolled[k] else old(stats)[k]
      {
        if statsPercent[i] != 0 {
          stats := stats[i := rolled[i]];
        }
      }
    }

    method UpdateSkills(player: Creature)
      modifies player`varSkills
      ensures player.varSkills == Plus(old(player.varSkills), skills)
    {
      for i := 0 to SKILLS
        invariant forall k | 0 <= k < SKILLS ::
          player.varSkills[k] == old(player.varSkills)[k] + if k < i then skills[k] else 0
      {
        if skills[i] != 0 {
          player.SetVarSkill(i, skills[i]);
        }
      }
    }

    method UpdateStats(player: Creature)
      modifies player`varStats
      ensures player.varStats == Plus(old(player.varStats), stats)
    {
      for i := 0 to STATS
        invariant forall k | 0 <= k < STATS ::
          player.varStats[k] == old(player.varStats)[k] + if k < i then stats[k] else 0
      {
        if stats[i] != 0 {
          player.SetVarStats(i, stats[i]);
        }
      }
    }

    method ApplyAttributes(player: Creature, r: Rolls)
      modifies `skills, `stats, player`varSkills, player`varStats
      ensures Picture() == WithPercents(old(Picture()), r)
      ensures player.varSkills == Plus(old(player.varSkills), skills)
      ensures player.varStats == Plus(old(player.varStats), stats)
    {
      UpdatePercentSkills(r.skills);
      UpdateSkills(player);
      UpdatePercentStats(r.stats);
      UpdateStats(player);
    }

    method StartCondition(creature: Creature, now: int, r: Rolls)
      modifies this, creature`varSpeed, creature`varSkills, creature`varStats
      ensures Picture() == Prepared(old(Picture()), creature.isPlayer, now, r)
      ensures creature.Bare() == Apply(old(creature.Bare()), Picture())
    {
      if ticks > 0 {
        endTime := ticks + now;
      }
      if IsSpeed(ctype) {
        if speedDelta == 0 {
          speedDelta := r.speed;
        }
        creature.ChangeSpeed(speedDelta);
      } else if ctype == ATTRIBUTES && creature.isPlayer {
        ApplyAttributes(creature, r);
      }
    }

    method RevokeAttributes(player: Creature)
      modifies player`varSkills, player`varStats
      ensures player.varSkills == Minus(old(player.varSkills), skills)
      ensures player.varStats == Minus(old(player.varStats), stats)
    {
      for i := 0 to SKILLS
        invariant forall k | 0 <= k < SKILLS ::
          player.varSkills[k] == old(player.varSkills)[k] - if k < i then skills[k] else 0
        invariant player.varStats == old(player.varStats)
      {
        if skills[i] != 0 || skillsPercent[i] != 0 {
          player.SetVarSkill(i, -skills[i]);
        }
      }
      for i := 0 to STATS
        invariant forall k | 0 <= k < STATS ::
          player.varStats[k] == old(player.varStats)[k] - if k < i then stats[k] else 0
        invariant player.varSkills == Minus(old(player.varSkills), skills)
      {
        if stats[i] != 0 {
          player.SetVarStats(i, -stats[i]);
        }
      }
    }

    method EndCondition(creature: Creature)
      modifies creature`varSpeed, creature`varSkills, creature`varStats
      ensures creature.Bare() == Unapply(old(creature.Bare()), Picture())
    {
      if IsSpeed(ctype) {
        creature.ChangeSpeed(-speedDelta);
      } else if ctype == ATTRIBUTES && creature.isPlayer {
        RevokeAttributes(creature);
      }
    }

    predicate UpdateCondition(added: Condition, now: int)
      reads this, added
    {
      if ticks == -1 && added.ticks > 0 then false
      else if added.ticks >= 0 && endTime > now + added.ticks then false
      else true
    }

    method AddSpeed(creature: Creature, added: Condition, now: int, r: Rolls)
      requires IsSpeed(ctype) && added != this
      modifies this, creature`varSpeed
      ensures Picture() == Merged(old(Picture()), added.Picture(), creature.isPlayer, now, r)
      ensures creature.Bare() == Apply(Unapply(old(creature.Bare()), old(Picture())), Picture())
    {
      if ticks == -1 && added.ticks > 0 {
        return;
      }
      SetTicks(added.ticks, now);
      var oldSpeedDelta := speedDelta;
      speedDelta := added.speedDelta;
      if speedDelta == 0 {
        speedDelta := r.speed;
      }
      var newSpeedChange := speedDelta - oldSpeedDelta;
      if newSpeedChange != 0 {
        creature.ChangeSpeed(newSpeedChange);
      }
    }

    method AddAttributes(creature: Creature, added: Condition, now: int, r: Rolls)
      requires ctype == ATTRIBUTES && added != this
      modifies this, creature`varSkills, creature`varStats, creature`varSpeed
      ensures Picture() == Merged(old(Picture()), added.Picture(), creature.isPlayer, now, r)
      ensures creature.Bare() == Apply(Unapply(old(creature.Bare()), old(Picture())), Picture())
    {
      if UpdateCondition(added, now) {
        SetTicks(added.ticks, now);
        EndCondition(creature);
        skills, skillsPercent := added.skills, added.skillsPercent;
        stats, statsPercent := added.stats, added.statsPercent;
        if creature.isPlayer {
          ApplyAttributes(creature, r);
        }
      } else if creature.isPlayer {
        GiveAndTake(creature.varSkills, skills);
        GiveAndTake(creature.varStats, stats);
      }
    }

    method AddCondition(creature: Creature, added: Condition, now: int, r: Rolls)
      requires added != this
      modifies this, creature`varSkills, creature`varStats, creature`varSpeed
      ensures Picture() == Merged(old(Picture()), added.Picture(), creature.isPlayer, now, r)
      ensures creature.Bare() == Apply(Unapply(old(creature.Bare()), old(Picture())), Picture())
    {
      if IsSpeed(ctype) {
        AddSpeed(creature, added, now, r);
      } else if ctype == ATTRIBUTES {
        AddAttributes(creature, added, now, r);
      } else if UpdateCondition(added, now) {
        SetTicks(added.ticks, now);
      }
    }

    method ExecuteCondition(interval: nat, now: int) returns (goesOn: bool)
      modifies `ticks
      ensures Picture() == Aged(old(Picture()), interval) && (goesOn <==> ticks == -1 || endTime >= now)
    {
      if ticks == -1 {
        return true;
      }
      ticks := Max(0, ticks - interval);
      return endTime >= now;
    }
  }

  lemma GiveAndTake(a: seq<int>, b: seq<int>)
    requires |a| == |b|
    ensures Plus(Minus(a, b), b) == a
  {
  }

  ghost function Pictures(s: seq<Condition>): (r: seq<Cond>)
    reads s
    ensures |r| == |s| && forall i | 0 <= i < |s| :: r[i] == s[i].Picture()
  {
    seq(|s|, i requires 0 <= i < |s| reads s => s[i].Picture())
  }

  class Creature {
    const isPlayer: bool
    var conditions: seq<Condition>
    var varSpeed: int
    var varSkills: Skills
    var varStats: Stats

    constructor (isPlayer: bool)
      ensures Valid() && State() == Body(isPlayer, [], 0, seq(SKILLS, _ => 0), seq(STATS, _ => 0))
    {
      this.isPlayer := isPlayer;
      conditions := [];
      varSpeed := 0;
      varSkills := seq(SKILLS, _ => 0);
      varStats := seq(STATS, _ => 0);
    }

    // The creature without its list of conditions
    function Bare(): Body
      reads `varSpeed, `varSkills, `varStats
    {
      Body(isPlayer, [], varSpeed, varSkills, varStats)
    }

    ghost predicate Valid()
      reads `conditions
    {
      forall i, j | 0 <= i < j < |conditions| :: conditions[i] != conditions[j]
    }

    ghost function Listed(): seq<Cond>
      reads `conditions, conditions
    {
      Pictures(conditions)
    }

    ghost function State(): Body
      reads this, conditions
    {
      Bare().(conds := Listed())
    }

    method SetVarSkill(skill: nat, modifier: int)
      requires skill < SKILLS
      modifies `varSkills
      ensures varSkills == old(varSkills)[skill := old(varSkills)[skill] + modifier]
    {
      varSkills := varSkills[skill := varSkills[skill] + modifier];
    }

    method SetVarStats(stat: nat, modifier: int)
      requires stat < STATS
      modifies `varStats
      ensures varStats == old(varStats)[stat := old(varStats)[stat] + modifier]
    {
      varStats := varStats[stat := varStats[stat] + modifier];
    }

    method ChangeSpeed(varSpeedDelta: int)
      modifies `varSpeed
      ensures varSpeed == old(varSpeed) + varSpeedDelta
    {
      varSpeed := varSpeed + varSpeedDelta;
    }

    method GetCondition(condition: Condition) returns (i: nat)
      ensures i == Find(Listed(), condition.Picture())
    {
      i := 0;
      while i < |conditions|
        invariant i <= |conditions|
        invariant Find(Listed(), condition.Picture()) == i + Find(Listed()[i..], condition.Picture())
      {
        var c := conditions[i];
        assert Listed()[i..][0] == c.Picture() && Listed()[i..][1..] == Listed()[i + 1..];
        if c.ctype == condition.ctype && c.id == condition.id && c.subId == condition.subId {
          return i;
        }
        i := i + 1;
      }
    }

    method HasCondition(ctype: nat, subId: nat, m: Moment) returns (found: bool)
      ensures found <==> Has(State(), ctype, subId, m)
    {
      if ctype in m.suppressed {
        return false;
      }
      var i := 0;
      while i < |conditions|
        invariant 0 <= i <= |conditions|
        invariant forall j | 0 <= j < i :: !Noticed(Listed()[j], ctype, subId, m.now)
      {
        var c := conditions[i];
        assert Listed()[i] == c.Picture();
        if c.ctype == ctype && c.subId == subId && (c.endTime >= m.now || c.ticks == -1) {
          assert Noticed(State().conds[i], ctype, subId, m.now);
          return true;
        }
        i := i + 1;
      }
      return false;
    }

    // Erases a condition from the list and ends it
    method EraseAndEnd(i: nat)
      requires Valid() && i < |conditions|
      modifies this
      ensures Valid() && conditions == old(conditions)[..i] + old(conditions)[i + 1..]
      ensures State() == RemoveAt(old(State()), i)
    {
      var condition := conditions[i];
      conditions := conditions[..i] + conditions[i + 1..];
      assert Listed() == Erased(old(Listed()), i);
      condition.EndCondition(this);
    }
  
    method RemoveConditions(a: Aim, force: bool, m: Moment)
      requires Valid()
      modifies this
      ensures Valid() && forall c | c in conditions :: c in old(conditions)
      ensures State() == Remove(old(State()), a, force, m)
    {
      ghost var b := State();
      var i := 0;
      while i < |conditions|
        invariant 0 <= i <= |conditions| && Valid() && forall c | c in conditions :: c in old(conditions)
        invariant RemoveFrom(State(), i, a, force, m) == Remove(b, a, force, m)
        decreases |conditions| - i
      {
        var condition := conditions[i];
        assert State().conds[i] == condition.Picture();
        if condition.ctype != a.ctype || (!a.anyId && condition.id != a.id) {
          i := i + 1;
          continue;
        }
        if !force && a.ctype == PARALYZE && m.delayed {
          return;
        }
        EraseAndEnd(i);
      }
    }

    method OnAddCondition(ctype: nat, m: Moment)
      requires Valid()
      modifies this
      ensures Valid() && State() == OnAdd(old(State()), ctype, m)
    {
      var hasHaste := HasCondition(HASTE, 0, m);
      var hasParalyze := HasCondition(PARALYZE, 0, m);
      if ctype == PARALYZE && hasHaste {
        RemoveConditions(Aim(HASTE, true, 0), false, m);
      } else if ctype == HASTE && hasParalyze {
        RemoveConditions(Aim(PARALYZE, true, 0), false, m);
      }
    }

    method PushBack(condition: Condition)
      requires Valid() && condition !in conditions
      modifies `conditions
      ensures Valid() && conditions == old(conditions) + [condition]
      ensures State() == old(State()).(conds := old(State()).conds + [condition.Picture()])
    {
      conditions := conditions + [condition];
    }

    method ExtendCondition(i: nat, condition: Condition, now: int, r: Rolls)
      requires Valid() && i < |conditions| && condition !in conditions
      modifies this, conditions
      ensures Valid() && conditions == old(conditions)
      ensures State() == Extend(old(State()), i, condition.Picture(), now, r)
    {
      var prevCond := conditions[i];
      prevCond.AddCondition(this, condition, now, r);
      assert Listed() == old(Listed())[i := prevCond.Picture()];
    }

    method BeginCondition(condition: Condition, now: int, r: Rolls)
      requires Valid() && condition !in conditions
      modifies this, condition
      ensures Valid() && State() == Begin(old(State()), old(condition.Picture()), now, r)
    {
      condition.StartCondition(this, now, r);
      assert Listed() == old(Listed());
      PushBack(condition);
    }

    // `condition` is a condition of its own: nobody else lists it yet.
    method AddCondition(condition: Condition, force: bool, starts: bool, m: Moment, r: Rolls)
      requires Valid() && condition !in conditions
      modifies this, conditions, condition
      ensures Valid() && State() == Add(old(State()), old(condition.Picture()), force, starts, m, r)
    {
      var hasParalyze := HasCondition(PARALYZE, 0, m);
      if !force && condition.ctype == HASTE && hasParalyze {
        if m.delayed {
          return;
        }
      }
      var i := GetCondition(condition);
      if i < |conditions| {
        ExtendCondition(i, condition, m.now, r);
        return;
      }
      if starts || IsSpeed(condition.ctype) || condition.ctype == ATTRIBUTES {
        BeginCondition(condition, m.now, r);
        OnAddCondition(condition.ctype, m);
      }
    }

    method RemoveCondition(i: nat, force: bool, m: Moment)
      requires Valid() && i < |conditions|
      modifies this
      ensures Valid()
      ensures State() == Step(Scene(old(State()), Other(0, varSkills, varStats)), RemoveOne(i, force, m)).body
    {
      assert Listed()[i] == conditions[i].Picture();
      if !force && conditions[i].ctype == PARALYZE {
        if m.delayed {
          return;
        }
      }
      EraseAndEnd(i);
    }

    // One turn of the loop of ExecuteConditions
    method ExecuteAt(i: nat, interval: nat, now: int) returns (next: nat)
      requires Valid() && i < |conditions|
      modifies this, conditions[i]
      ensures Valid() && i <= next <= |conditions| && |conditions| - next < |old(conditions)| - i
      ensures forall c | c in conditions :: c in old(conditions)
      ensures ExecuteFrom(State(), next, interval, now) == ExecuteFrom(old(State()), i, interval, now)
    {
      var condition := conditions[i];
      ghost var v := State();
      var goesOn := condition.ExecuteCondition(interval, now);
      assert Listed() == v.conds[i := condition.Picture()];
      if !goesOn {
        EraseAndEnd(i);
        return i;
      }
      return i + 1;
    }

    method ExecuteConditions(interval: nat, now: int)
      requires Valid()
      modifies this, conditions
      ensures Valid() && State() == ExecuteFrom(old(State()), 0, interval, now)
    {
      ghost var b := State();
      var i := 0;
      while i < |conditions|
        invariant 0 <= i <= |conditions| && Valid() && forall c | c in conditions :: c in old(conditions)
        invariant ExecuteFrom(State(), i, interval, now) == ExecuteFrom(b, 0, interval, now)
        decreases |conditions| - i
      {
        assert conditions[i] in conditions;
        i := ExecuteAt(i, interval, now);
      }
    }
  }
}
