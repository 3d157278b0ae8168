// How the experience of a dead creature is shared out (addDamagePoints, getDamageRatio,
// getGainedExperience and onDeath in creature.cpp), with exact ratios.
module Experience {

  type Id = nat

  type Points = map<Id, nat>

  // ---------- Sums over the entries of a map ----------

  ghost function SumOver(s: set<Id>, f: Points): nat
    requires s <= f.Keys
  {
    if s == {} then 0
    else
      var k :| k in s;
      f[k] + SumOver(s - {k}, f)
  }

  ghost function Total(f: Points): nat { SumOver(f.Keys, f) }

  // The order of the entries does not matter.
  lemma {:induction false} TakeOne(s: set<Id>, f: Points, k: Id)
    requires s <= f.Keys && k in s
    ensures SumOver(s, f) == f[k] + SumOver(s - {k}, f)
    decreases |s|
  {
    var j :| j in s && SumOver(s, f) == f[j] + SumOver(s - {j}, f);
    if j != k {
      TakeOne(s - {j}, f, k);
      TakeOne(s - {k}, f, j);
      assert s - {j} - {k} == s - {k} - {j};
    }
  }

  lemma {:induction false} SameValues(s: set<Id>, f: Points, g: Points)
    requires s <= f.Keys && s <= g.Keys && forall k | k in s :: f[k] == g[k]
    ensures SumOver(s, f) == SumOver(s, g)
    decreases |s|
  {
    if s != {} {
      var k :| k in s;
      TakeOne(s, f, k);
      TakeOne(s, g, k);
      SameValues(s - {k}, f, g);
    }
  }

  lemma {:induction false} PartIsLess(s: set<Id>, t: set<Id>, f: Points)
    requires s <= t <= f.Keys
    ensures SumOver(s, f) <= SumOver(t, f)
    decreases |s|
  {
    if s != {} {
      var k :| k in s;
      TakeOne(s, f, k);
      TakeOne(t, f, k);
      PartIsLess(s - {k}, t - {k}, f);
    }
  }

  // Raising one entry raises the total.
  lemma TotalOfUpdate(f: Points, k: Id, v: nat)
    ensures Total(f[k := v]) == Total(f) - (if k in f then f[k] else 0) + v
  {
    var g := f[k := v];
    TakeOne(g.Keys, g, k);
    SameValues(f.Keys - {k}, f, g);
    assert g.Keys - {k} == f.Keys - {k};
    if k in f {
      TakeOne(f.Keys, f, k);
    } else {
      assert f.Keys - {k} == f.Keys;
    }
  }

  // ---------- Shares ----------

  function DamageRatio(damage: nat, total: nat): real {
    if total == 0 then 0.0 else damage as real / total as real
  }

  // getGainedExperience: the ratio of what was lost, rounded down
  function Gain(damage: nat, total: nat, lost: nat): int {
    (DamageRatio(damage, total) * lost as real).Floor
  }

  lemma RealProduct(a: int, b: int)
    ensures (a * b) as real == a as real * b as real
  {
  }

  lemma RealOrder(a: real, b: real, t: real)
    requires t > 0.0
    ensures (a <= b ==> a * t <= b * t) && (a < b ==> a * t < b * t)
  {
  }

  lemma RatioTimesTotal(damage: nat, total: nat, lost: nat)
    requires total > 0
    ensures DamageRatio(damage, total) * lost as real * total as real == (damage * lost) as real
  {
    RealProduct(damage, lost);
    var r, l, t := DamageRatio(damage, total), lost as real, total as real;
    assert r * t == damage as real;
    assert r * l * t == r * t * l;
  }

  lemma BelowProduct(a: int, t: nat, x: real, p: int)
    requires t > 0 && x * t as real == p as real
    ensures a as real <= x ==> a * t <= p
    ensures x < a as real ==> p < a * t
  {
    RealOrder(a as real, x, t as real);
    RealOrder(x, a as real, t as real);
    RealProduct(a, t);
  }

  lemma FloorBounds(x: real, t: nat, p: int)
    requires t > 0 && x * t as real == p as real
    ensures x.Floor * t <= p < (x.Floor + 1) * t
  {
    BelowProduct(x.Floor, t, x, p);
    BelowProduct(x.Floor + 1, t, x, p);
  }

  // The share is the largest whole number that does not exceed the ratio.
  lemma GainIsTheShare(damage: nat, total: nat, lost: nat)
    requires total > 0
    ensures 0 <= Gain(damage, total, lost)
    ensures total * Gain(damage, total, lost) <= damage * lost < total * (Gain(damage, total, lost) + 1)
  {
    RatioTimesTotal(damage, total, lost);
    FloorBounds(DamageRatio(damage, total) * lost as real, total, damage * lost);
    Commute(Gain(damage, total, lost), total);
    Commute(Gain(damage, total, lost) + 1, total);
    assert DamageRatio(damage, total) >= 0.0;
  }

  lemma Commute(a: int, b: int)
    ensures a * b == b * a
  {
  }

  // What each of those who did damage is due
  ghost function Gains(damage: Points, lost: nat): Points {
    var total := Total(damage);
    map k | k in damage :: if total > 0 then GainOf(damage[k], total, lost) else 0
  }

  function GainOf(damage: nat, total: nat, lost: nat): nat
    requires total > 0
  {
    GainIsTheShare(damage, total, lost);
    Gain(damage, total, lost)
  }

  // Summed up, the shares of some are at most their part of the whole, and short of it by
  // less than one point each.
  lemma {:induction false} SharesBound(s: set<Id>, damage: Points, gains: Points, total: nat, lost: nat)
    requires s <= damage.Keys && s <= gains.Keys && total > 0
    requires forall k | k in s :: gains[k] == GainOf(damage[k], total, lost)
    ensures total * SumOver(s, gains) <= SumOver(s, damage) * lost
    ensures SumOver(s, damage) * lost <= total * (SumOver(s, gains) + |s|)
    ensures s != {} ==> SumOver(s, damage) * lost < total * (SumOver(s, gains) + |s|)
    decreases |s|
  {
    if s != {} {
      var k :| k in s;
      TakeOne(s, damage, k);
      TakeOne(s, gains, k);
      SharesBound(s - {k}, damage, gains, total, lost);
      GainIsTheShare(damage[k], total, lost);
      var d, g, n := SumOver(s - {k}, damage), SumOver(s - {k}, gains), |s - {k}|;
      Distribute(damage[k], d, lost);
      Distribute(gains[k], g, total);
      Distribute(gains[k] + 1, g + n, total);
      assert |s| == n + 1;
    }
  }

  lemma Distribute(a: nat, b: nat, c: nat)
    ensures (a + b) * c == a * c + b * c == c * (a + b) == c * a + c * b
  {
  }

  lemma CancelLess(t: nat, a: nat, b: nat)
    requires t > 0 && t * a <= t * b
    ensures a <= b
  {
  }

  lemma CancelLessStrictly(t: nat, a: nat, b: nat)
    requires t * a < t * b
    ensures a < b
  {
  }

  // Whoever of them is there to receive it, no more is handed out than was lost.
  lemma NeverMoreThanLost(damage: Points, receivers: set<Id>, lost: nat)
    requires receivers <= damage.Keys
    ensures SumOver(receivers, Gains(damage, lost)) <= lost
  {
    var gains, total := Gains(damage, lost), Total(damage);
    if total > 0 {
      SharesBound(receivers, damage, gains, total, lost);
      PartIsLess(receivers, damage.Keys, damage);
      MultiplyLess(SumOver(receivers, damage), total, lost);
      CancelLess(total, SumOver(receivers, gains), lost);
    } else {
      NothingGained(receivers, gains);
    }
  }

  lemma MultiplyLess(a: nat, b: nat, c: nat)
    requires a <= b
    ensures a * c <= b * c
  {
  }

  lemma {:induction false} NothingGained(s: set<Id>, f: Points)
    requires s <= f.Keys && forall k | k in s :: f[k] == 0
    ensures SumOver(s, f) == 0
    decreases |s|
  {
    if s != {} {
      var k :| k in s;
      TakeOne(s, f, k);
      NothingGained(s - {k}, f);
    }
  }

  // If all who did damage are there, less than one point for each of them is withheld.
  lemma ShortByLessThanAttackers(damage: Points, lost: nat)
    requires Total(damage) > 0
    ensures SumOver(damage.Keys, Gains(damage, lost)) + |damage.Keys| > lost
  {
    var gains, total := Gains(damage, lost), Total(damage);
    assert damage.Keys != {};
    SharesBound(damage.Keys, damage, gains, total, lost);
    CancelLessStrictly(total, lost, SumOver(damage.Keys, gains) + |damage.Keys|);
  }

  // ---------- The creature ----------

  class Creature {
    const id: Id
    var damageMap: Points
    var lastHitCreatureId: Id

    constructor (id: Id)
      ensures damageMap == map[] && this.id == id
    {
      this.id := id;
      damageMap := map[];
      lastHitCreatureId := 0;
    }

    // Damage counts for the attacker it came from, and only if there was any.
    method AddDamagePoints(attackerId: Id, damagePoints: int)
      modifies this
      ensures damagePoints <= 0 ==> damageMap == old(damageMap) && lastHitCreatureId == old(lastHitCreatureId)
      ensures damagePoints > 0 ==>
        damageMap ==
        old(damageMap)[attackerId :=
          damagePoints + if attackerId in old(damageMap) then old(damageMap)[attackerId] else 0] &&
        lastHitCreatureId == attackerId
      ensures Total(damageMap) == Total(old(damageMap)) + if damagePoints > 0 then damagePoints else 0
    {
      if damagePoints <= 0 {
        return;
      }
      if attackerId !in damageMap {
        TotalOfUpdate(damageMap, attackerId, damagePoints);
        damageMap := damageMap[attackerId := damagePoints];
      } else {
        TotalOfUpdate(damageMap, attackerId, damageMap[attackerId] + damagePoints);
        damageMap := damageMap[attackerId := damageMap[attackerId] + damagePoints];
      }
      lastHitCreatureId := attackerId;
    }

    method GetDamageRatio(attacker: Id) returns (ratio: real)
      ensures ratio == DamageRatio(if attacker in damageMap then damageMap[attacker] else 0, Total(damageMap))
    {
      var totalDamage, attackerDamage := 0, 0;
      var rest := damageMap.Keys;
      while rest != {}
        invariant rest <= damageMap.Keys
        invariant totalDamage + SumOver(rest, damageMap) == Total(damageMap)
        invariant attackerDamage == if attacker in damageMap && attacker !in rest then damageMap[attacker] else 0
        decreases |rest|
      {
        var k :| k in rest;
        TakeOne(rest, damageMap, k);
        totalDamage := totalDamage + damageMap[k];
        if k == attacker {
          attackerDamage := attackerDamage + damageMap[k];
        }
        rest := rest - {k};
      }
      if totalDamage == 0 {
        return 0.0;
      }
      return attackerDamage as real / totalDamage as real;
    }

    method GetGainedExperience(attacker: Id, lost: nat) returns (gain: nat)
      requires attacker in damageMap
      ensures gain == Gains(damageMap, lost)[attacker]
    {
      var ratio := GetDamageRatio(attacker);
      if Total(damageMap) > 0 {
        GainIsTheShare(damageMap[attacker], Total(damageMap), lost);
      } else {
        assert ratio * lost as real == 0.0;
      }
      gain := (ratio * lost as real).Floor;
    }

    // Those who are there to receive a share: known to the game, and not the dead one
    function Receivers(known: set<Id>): set<Id>
      reads this
    {
      (damageMap.Keys * known) - {id}
    }

    // The part of onDeath that fills the experience map. `leaders` names those whose party
    // shares experience, with the party's leader.
    method ShareExperience(lost: nat, known: set<Id>, leaders: map<Id, Id>) returns (experienceMap: Points)
      ensures Total(experienceMap) == SumOver(Receivers(known), Gains(damageMap, lost))
      ensures Total(experienceMap) <= lost
      ensures Receivers(known) == damageMap.Keys && Total(damageMap) > 0 ==>
        Total(experienceMap) + |damageMap.Keys| > lost
      ensures ByHeir(experienceMap, Receivers(known), leaders, Gains(damageMap, lost))
    {
      experienceMap := map[];
      ghost var gains, receivers := Gains(damageMap, lost), Receivers(known);
      var rest := damageMap.Keys;
      ghost var done: set<Id> := {};
      SharedAmongNone(leaders, gains);
      while rest != {}
        invariant rest <= damageMap.Keys && Gone(done, receivers, rest)
        invariant SharedAmong(experienceMap, done, leaders, gains)
        decreases |rest|
      {
        var attacker :| attacker in rest;
        NextGone(done, receivers, rest, attacker);
        rest := rest - {attacker};
        if attacker in known && attacker != id {
          var gainExp := GetGainedExperience(attacker, lost);
          experienceMap := Credit(experienceMap, attacker, gainExp, leaders, done, gains);
          done := done + {attacker};
        }
      }
      assert done == receivers;
      SharedByHeir(experienceMap, receivers, leaders, gains);
      NeverMoreThanLost(damageMap, receivers, lost);
      if receivers == damageMap.Keys && Total(damageMap) > 0 {
        ShortByLessThanAttackers(damageMap, lost);
      }
    }

    // An attacker's share is added to its heir's.
    static method Credit(experienceMap: Points, attacker: Id, gainExp: nat, leaders: map<Id, Id>,
        ghost done: set<Id>, ghost gains: Points) returns (credited: Points)
      requires SharedAmong(experienceMap, done, leaders, gains)
      requires attacker in gains && gains[attacker] == gainExp && attacker !in done
      ensures SharedAmong(credited, done + {attacker}, leaders, gains)
    {
      var heir := if attacker in leaders then leaders[attacker] else attacker;
      if heir !in experienceMap {
        credited := experienceMap[heir := gainExp];
      } else {
        credited := experienceMap[heir := experienceMap[heir] + gainExp];
      }
      ShareOne(experienceMap, done, attacker, leaders, gains, credited);
    }
  }

  // Those of the receivers that are no longer waiting
  ghost predicate Gone(done: set<Id>, receivers: set<Id>, rest: set<Id>) {
    forall k :: k in done <==> k in receivers && k !in rest
  }

  lemma NextGone(done: set<Id>, receivers: set<Id>, rest: set<Id>, next: Id)
    requires Gone(done, receivers, rest) && next in rest
    ensures next !in done
    ensures Gone(if next in receivers then done + {next} else done, receivers, rest - {next})
  {
  }

  // The experience map holds the shares of those in `done`, by heir.
  ghost predicate SharedAmong(experienceMap: Points, done: set<Id>, leaders: map<Id, Id>, gains: Points) {
    done <= gains.Keys && Total(experienceMap) == SumOver(done, gains) &&
    (forall k | k in done :: Heir(k, leaders) in experienceMap) &&
    (forall r | r in experienceMap :: exists k :: k in done && Heir(k, leaders) == r) &&
    forall r | r in experienceMap :: experienceMap[r] == SumOver(WithHeir(done, leaders, r), gains)
  }

  // Every receiver's share falls to an entry, that of its party's leader or else its own, and every
  // entry holds the sum of the shares that fall to it, of which there is at least one.
  ghost predicate ByHeir(experienceMap: Points, receivers: set<Id>, leaders: map<Id, Id>, gains: Points) {
    receivers <= gains.Keys &&
    (forall k | k in receivers && k in leaders :: leaders[k] in experienceMap) &&
    (forall k | k in receivers && k !in leaders :: k in experienceMap) &&
    forall r | r in experienceMap ::
      WithHeir(receivers, leaders, r) != {} && experienceMap[r] == SumOver(WithHeir(receivers, leaders, r), gains)
  }

  lemma SharedByHeir(experienceMap: Points, receivers: set<Id>, leaders: map<Id, Id>, gains: Points)
    requires SharedAmong(experienceMap, receivers, leaders, gains)
    ensures ByHeir(experienceMap, receivers, leaders, gains)
  {
    forall k | k in receivers
      ensures if k in leaders then leaders[k] in experienceMap else k in experienceMap
    {
      assert Heir(k, leaders) in experienceMap;
    }
    forall r | r in experienceMap
      ensures WithHeir(receivers, leaders, r) != {}
    {
      var k :| k in receivers && Heir(k, leaders) == r;
      assert k in WithHeir(receivers, leaders, r);
    }
  }

  lemma SharedAmongNone(leaders: map<Id, Id>, gains: Points)
    ensures SharedAmong(map[], {}, leaders, gains)
  {
    var none: Points := map[];
    assert none.Keys == {};
  }

  lemma ShareOneTotal(experienceMap: Points, done: set<Id>, attacker: Id, heir: Id, gains: Points)
    requires done <= gains.Keys && Total(experienceMap) == SumOver(done, gains)
    requires attacker in gains && attacker !in done
    ensures
      Total(experienceMap[heir := (if heir in experienceMap then experienceMap[heir] else 0) + gains[attacker]]) ==
      SumOver(done + {attacker}, gains)
  {
    TotalOfUpdate(experienceMap, heir, (if heir in experienceMap then experienceMap[heir] else 0) + gains[attacker]);
    TakeOne(done + {attacker}, gains, attacker);
    assert done + {attacker} - {attacker} == done;
  }

  lemma ShareOne(experienceMap: Points, done: set<Id>, attacker: Id, leaders: map<Id, Id>, gains: Points, after: Points)
    requires SharedAmong(experienceMap, done, leaders, gains) && attacker in gains && attacker !in done
    requires var heir := Heir(attacker, leaders);
      after == experienceMap[heir := (if heir in experienceMap then experienceMap[heir] else 0) + gains[attacker]]
    ensures SharedAmong(after, done + {attacker}, leaders, gains)
  {
    ShareOneTotal(experienceMap, done, attacker, Heir(attacker, leaders), gains);
    forall r | r in after
      ensures after[r] == SumOver(WithHeir(done + {attacker}, leaders, r), gains)
    {
      Inherited(done, attacker, leaders, gains, experienceMap, r);
    }
  }

  // Who receives an attacker's share
  function Heir(attacker: Id, leaders: map<Id, Id>): Id {
    if attacker in leaders then leaders[attacker] else attacker
  }

  // Those whose share falls to the same heir: those whose party it leads, and itself unless it is
  // in such a party
  function WithHeir(s: set<Id>, leaders: map<Id, Id>, heir: Id): set<Id> {
    set k | k in s && (k in leaders ==> leaders[k] == heir) && (k !in leaders ==> k == heir)
  }

  // One more attacker's share falls to its heir, and to no one else.
  lemma Inherited(done: set<Id>, attacker: Id, leaders: map<Id, Id>, gains: Points, experienceMap: Points, r: Id)
    requires SharedAmong(experienceMap, done, leaders, gains) && attacker in gains && attacker !in done
    requires r == Heir(attacker, leaders) || r in experienceMap
    ensures SumOver(WithHeir(done + {attacker}, leaders, r), gains) ==
      (if r in experienceMap then experienceMap[r] else 0) + if r == Heir(attacker, leaders) then gains[attacker] else 0
  {
    var before := WithHeir(done, leaders, r);
    var after := WithHeir(done + {attacker}, leaders, r);
    if r == Heir(attacker, leaders) {
      assert after == before + {attacker};
      TakeOne(after, gains, attacker);
      assert after - {attacker} == before;
      if r !in experienceMap {
        assert before == {};
      }
    } else {
      assert after == before;
    }
  }
}
