// The decay wheel of the game (startDecay, checkDecay, cleanup in game.cpp): four buckets,
// one of which is looked at every 250 milliseconds.
module DecayWheel {

  import opened Arithmetic
  import opened Sequences

  type Item = nat

  const INTERVAL := 250 // EVENT_DECAYINTERVAL
  const BUCKETS := 4 // EVENT_DECAY_BUCKETS
  const ROUND := 1000 // INTERVAL * BUCKETS

  // What the wheel sees of an item: canDecay, DECAYING_TRUE, the duration in
  // milliseconds, and the references the wheel itself has taken.
  datatype Info = Info(canDecay: bool, decaying: bool, duration: nat, references: int)

  datatype Wheel = Wheel(
    buckets: seq<seq<Item>>,
    last: nat,
    waiting: seq<Item>, // toDecayItems
    toRelease: seq<Item>, // ToReleaseItems
    info: map<Item, Info>,
    decayed: seq<Item>) // history: items handed to internalDecayItem

  // ---------- Steps as functions ----------

  function Without(s: seq<Item>, x: Item): seq<Item> {
    if s == [] then [] else (if s[0] == x then [] else [s[0]]) + Without(s[1..], x)
  }

  function Put(w: Wheel, b: nat, x: Item): Wheel
    requires b < |w.buckets|
  {
    w.(buckets := w.buckets[b := w.buckets[b] + [x]])
  }

  function Take(w: Wheel, b: nat, x: Item): Wheel
    requires b < |w.buckets|
  {
    w.(buckets := w.buckets[b := Without(w.buckets[b], x)])
  }

  function Decay(w: Wheel, x: Item): Wheel {
    w.(decayed := w.decayed + [x], toRelease := w.toRelease + [x])
  }

  // One item of the bucket that is being looked at
  function Look(w: Wheel, b: nat, x: Item): Wheel
    requires b < |w.buckets| == BUCKETS && x in w.info
  {
    var i := w.info[x];
    if !i.canDecay then
      var v := Take(w, b, x);
      v.(info := v.info[x := i.(decaying := false)], toRelease := v.toRelease + [x])
    else
      var left := i.duration - Min(ROUND, i.duration);
      Move(w.(info := w.info[x := i.(duration := left)]), b, x, left)
  }

  // The bucket for what is left, counted from the bucket that is being looked at
  function Slot(b: nat, left: nat): (s: nat)
    ensures s < BUCKETS
  {
    (b + (left + INTERVAL / 2) / 1000) % BUCKETS
  }

  function Move(w: Wheel, b: nat, x: Item, left: nat): Wheel
    requires b < |w.buckets| == BUCKETS
  {
    if left == 0 then Decay(Take(w, b, x), x)
    else if left >= ROUND then w
    else if Slot(b, left) == b then Decay(Take(w, b, x), x)
    else Put(Take(w, b, x), Slot(b, left), x)
  }

  function LookAll(w: Wheel, b: nat, s: seq<Item>): (v: Wheel)
    requires b < |w.buckets| == BUCKETS && forall x | x in s :: x in w.info
    ensures |v.buckets| == BUCKETS && v.info.Keys == w.info.Keys && v.last == w.last && v.waiting == w.waiting
    decreases |s|
  {
    if s == [] then w else LookAll(Look(w, b, s[0]), b, s[1..])
  }

  // cleanup: pending releases are carried out and waiting items enter the wheel.
  function Release(w: Wheel): Wheel {
    w.(info := map x | x in w.info :: w.info[x].(references := w.info[x].references - Count(w.toRelease, x)),
       toRelease := [])
  }

  function Entry(w: Wheel, x: Item): nat
    requires x in w.info
  {
    if w.info[x].duration >= ROUND then w.last % BUCKETS
    else (w.last + 1 + w.info[x].duration / 1000) % BUCKETS
  }

  function Enter(w: Wheel): Wheel
    requires |w.buckets| == BUCKETS && forall x | x in w.waiting :: x in w.info
    decreases |w.waiting|
  {
    if w.waiting == [] then w
    else Enter(EnterFirst(w))
  }

  function Cleanup(w: Wheel): Wheel
    requires |w.buckets| == BUCKETS && forall x | x in w.waiting :: x in w.info
  {
    Enter(Release(w))
  }

  // The loop of checkDecay: the next bucket is looked at, item by item, and becomes the
  // last one. checkDecay ends with a cleanup.
  function Looked(w: Wheel): (v: Wheel)
    requires Sane(w)
    ensures |v.buckets| == BUCKETS && v.info.Keys == w.info.Keys && v.last == (w.last + 1) % BUCKETS
    ensures v.waiting == w.waiting
  {
    var b := (w.last + 1) % BUCKETS;
    LookAll(w, b, w.buckets[b]).(last := b)
  }

  // startDecay
  function Start(w: Wheel, x: Item): Wheel
    requires x in w.info
  {
    var i := w.info[x];
    if !i.canDecay || i.decaying then w
    else if i.duration > 0 then
      w.(info := w.info[x := i.(decaying := true, references := i.references + 1)], waiting := [x] + w.waiting)
    else
      w.(decayed := w.decayed + [x])
  }

  predicate Sane(w: Wheel) {
    |w.buckets| == BUCKETS && w.last < BUCKETS &&
    (forall b, x | 0 <= b < BUCKETS && x in w.buckets[b] :: x in w.info) &&
    (forall x | x in w.waiting :: x in w.info)
  }

  // ---------- The wheel as one item sees it ----------

  // How often the item stands in each bucket, among the waiting, among the releases to
  // be carried out, and among the decayed
  datatype Spot = Spot(at: seq<nat>, waiting: nat, releases: nat, decays: nat, info: Info)

  type Place = p: Spot | |p.at| == BUCKETS witness Spot([0, 0, 0, 0], 0, 0, 0, Info(false, false, 0, 0))

  function Count(s: seq<Item>, x: Item): nat {
    if s == [] then 0 else (if s[0] == x then 1 else 0) + Count(s[1..], x)
  }

  lemma {:induction false} CountAppend(s: seq<Item>, y: Item, x: Item)
    ensures Count(s + [y], x) == Count(s, x) + if x == y then 1 else 0
  {
    if s == [] {
      assert s + [y] == [y];
    } else {
      assert (s + [y])[1..] == s[1..] + [y];
      CountAppend(s[1..], y, x);
    }
  }

  lemma {:induction false} CountIn(s: seq<Item>, x: Item)
    ensures x in s <==> Count(s, x) > 0
  {
    if s != [] {
      CountIn(s[1..], x);
      assert x in s <==> x == s[0] || x in s[1..];
    }
  }

  lemma {:induction false} CountOnce(s: seq<Item>)
    requires forall x | x in s :: Count(s, x) <= 1
    ensures NoRepeats(s)
  {
    if s != [] {
      CountIn(s[1..], s[0]);
      assert s[0] in s;
      forall x | x in s[1..]
        ensures Count(s[1..], x) <= 1
      {
        assert x in s;
      }
      CountOnce(s[1..]);
      forall i, j | 0 <= i < j < |s|
        ensures s[i] != s[j]
      {
        assert s[j] == s[1..][j - 1] && (i > 0 ==> s[i] == s[1..][i - 1]);
      }
    }
  }

  function SpotOf(w: Wheel, x: Item): Place
    requires |w.buckets| == BUCKETS && x in w.info
  {
    Spot(seq(BUCKETS, b requires 0 <= b < BUCKETS => Count(w.buckets[b], x)),
         Count(w.waiting, x), Count(w.toRelease, x), Count(w.decayed, x), w.info[x])
  }

  function Listed(p: Place): nat {
    p.at[0] + p.at[1] + p.at[2] + p.at[3] + p.waiting
  }

  // Listed once at most; what is listed is marked as decaying; one reference for being
  // listed and one for each release still to be carried out.
  predicate Tidy(p: Place) {
    Listed(p) <= 1 && (Listed(p) == 1 ==> p.info.decaying) && p.info.references == Listed(p) + p.releases
  }

  ghost predicate Inv(w: Wheel) {
    Sane(w) && forall x | x in w.info :: Tidy(SpotOf(w, x))
  }

  function TakeAt(p: Place, b: nat): Place
    requires b < BUCKETS
  {
    p.(at := p.at[b := 0])
  }

  function PutAt(p: Place, b: nat): Place
    requires b < BUCKETS
  {
    p.(at := p.at[b := p.at[b] + 1])
  }

  function DecayAt(p: Place): Place {
    p.(decays := p.decays + 1, releases := p.releases + 1)
  }

  function LookSpot(p: Place, b: nat): Place
    requires b < BUCKETS
  {
    var i := p.info;
    if !i.canDecay then
      var q := TakeAt(p, b);
      q.(info := i.(decaying := false), releases := q.releases + 1)
    else
      var left := i.duration - Min(ROUND, i.duration);
      MoveSpot(p.(info := i.(duration := left)), b, left)
  }

  function MoveSpot(p: Place, b: nat, left: nat): Place
    requires b < BUCKETS
  {
    if left == 0 then DecayAt(TakeAt(p, b))
    else if left >= ROUND then p
    else if Slot(b, left) == b then DecayAt(TakeAt(p, b))
    else PutAt(TakeAt(p, b), Slot(b, left))
  }

  function CleanSpot(p: Place, last: nat): Place
    requires last < BUCKETS
  {
    var q := p.(info := p.info.(references := p.info.references - p.releases), releases := 0);
    EnterSpot(q, if q.info.duration >= ROUND then last else (last + 1 + q.info.duration / 1000) % BUCKETS)
  }

  function EnterSpot(p: Place, b: nat): Place
    requires b < BUCKETS
  {
    p.(at := p.at[b := p.at[b] + p.waiting], waiting := 0)
  }

  function LookedSpot(p: Place, last: nat): Place
    requires last < BUCKETS
  {
    var b := (last + 1) % BUCKETS;
    if p.at[b] > 0 then LookSpot(p, b) else p
  }

  function StartSpot(p: Place): Place {
    var i := p.info;
    if !i.canDecay || i.decaying then p
    else if i.duration > 0 then
      p.(info := i.(decaying := true, references := i.references + 1), waiting := p.waiting + 1)
    else p.(decays := p.decays + 1)
  }

  lemma {:induction false} WithoutCount(s: seq<Item>, x: Item, y: Item)
    ensures Count(Without(s, x), y) == if y == x then 0 else Count(s, y)
    ensures y in Without(s, x) <==> y in s && y != x
  {
    if s != [] {
      WithoutCount(s[1..], x, y);
      var rest := Without(s[1..], x);
      assert Without(s, x) == if s[0] == x then rest else [s[0]] + rest;
      assert ([s[0]] + rest)[1..] == rest;
      assert y in s <==> y == s[0] || y in s[1..];
    }
  }

  lemma SameSpot(p: Place, q: Place)
    requires p.at[0] == q.at[0] && p.at[1] == q.at[1] && p.at[2] == q.at[2] && p.at[3] == q.at[3]
    requires p.waiting == q.waiting && p.releases == q.releases && p.decays == q.decays && p.info == q.info
    ensures p == q
  {
    assert p.at == q.at;
  }

  lemma TakeSpotOf(w: Wheel, b: nat, y: Item, x: Item)
    requires |w.buckets| == BUCKETS && b < BUCKETS && x in w.info
    ensures SpotOf(Take(w, b, y), x) == if x == y then TakeAt(SpotOf(w, x), b) else SpotOf(w, x)
  {
    WithoutCount(w.buckets[b], y, x);
    SameSpot(SpotOf(Take(w, b, y), x), if x == y then TakeAt(SpotOf(w, x), b) else SpotOf(w, x));
  }

  lemma PutSpotOf(w: Wheel, b: nat, y: Item, x: Item)
    requires |w.buckets| == BUCKETS && b < BUCKETS && x in w.info
    ensures SpotOf(Put(w, b, y), x) == if x == y then PutAt(SpotOf(w, x), b) else SpotOf(w, x)
  {
    CountAppend(w.buckets[b], y, x);
    SameSpot(SpotOf(Put(w, b, y), x), if x == y then PutAt(SpotOf(w, x), b) else SpotOf(w, x));
  }

  lemma DecaySpotOf(w: Wheel, y: Item, x: Item)
    requires |w.buckets| == BUCKETS && x in w.info
    ensures SpotOf(Decay(w, y), x) == if x == y then DecayAt(SpotOf(w, x)) else SpotOf(w, x)
  {
    CountAppend(w.decayed, y, x);
    CountAppend(w.toRelease, y, x);
    SameSpot(SpotOf(Decay(w, y), x), if x == y then DecayAt(SpotOf(w, x)) else SpotOf(w, x));
  }

  lemma DropSpotOf(w: Wheel, b: nat, y: Item, x: Item)
    requires |w.buckets| == BUCKETS && b < BUCKETS && y in w.info && x in w.info && !w.info[y].canDecay
    ensures SpotOf(Look(w, b, y), x) == if x == y then LookSpot(SpotOf(w, x), b) else SpotOf(w, x)
  {
    TakeSpotOf(w, b, y, x);
    CountAppend(w.toRelease, y, x);
    SameSpot(SpotOf(Look(w, b, y), x), if x == y then LookSpot(SpotOf(w, x), b) else SpotOf(w, x));
  }

  lemma ShortenSpotOf(w: Wheel, y: Item, x: Item, left: nat)
    requires |w.buckets| == BUCKETS && y in w.info && x in w.info
    ensures var v := w.(info := w.info[y := w.info[y].(duration := left)]);
      SpotOf(v, x) == if x == y then SpotOf(w, x).(info := w.info[y].(duration := left)) else SpotOf(w, x)
  {
    var v := w.(info := w.info[y := w.info[y].(duration := left)]);
    SameSpot(SpotOf(v, x), if x == y then SpotOf(w, x).(info := w.info[y].(duration := left)) else SpotOf(w, x));
  }

  lemma MoveSpotOf(w: Wheel, b: nat, y: Item, x: Item, left: nat)
    requires |w.buckets| == BUCKETS && b < BUCKETS && x in w.info
    ensures SpotOf(Move(w, b, y, left), x) == if x == y then MoveSpot(SpotOf(w, x), b, left) else SpotOf(w, x)
  {
    TakeSpotOf(w, b, y, x);
    DecaySpotOf(Take(w, b, y), y, x);
    PutSpotOf(Take(w, b, y), Slot(b, left), y, x);
  }

  // Looking at y does to y what LookSpot says and nothing to anything else.
  lemma LookSpotOf(w: Wheel, b: nat, y: Item, x: Item)
    requires |w.buckets| == BUCKETS && b < BUCKETS && y in w.info && x in w.info
    ensures SpotOf(Look(w, b, y), x) == if x == y then LookSpot(SpotOf(w, x), b) else SpotOf(w, x)
  {
    var i := w.info[y];
    if !i.canDecay {
      DropSpotOf(w, b, y, x);
    } else {
      var left := i.duration - Min(ROUND, i.duration);
      ShortenSpotOf(w, y, x, left);
      var u := w.(info := w.info[y := i.(duration := left)]);
      MoveSpotOf(u, b, y, x, left);
      assert Look(w, b, y) == Move(u, b, y, left);
      assert x == y ==> LookSpot(SpotOf(w, x), b) == MoveSpot(SpotOf(u, x), b, left);
    }
  }

  lemma LookKeepsOthers(w: Wheel, b: nat, y: Item, x: Item)
    requires |w.buckets| == BUCKETS && b < BUCKETS && y in w.info && x != y && x in w.buckets[b]
    ensures x in Look(w, b, y).buckets[b]
  {
    WithoutCount(w.buckets[b], y, x);
  }

  lemma {:induction false} LookAllSpotOf(w: Wheel, b: nat, s: seq<Item>, x: Item)
    requires |w.buckets| == BUCKETS && b < BUCKETS && x in w.info && NoRepeats(s)
    requires forall y | y in s :: y in w.info && y in w.buckets[b]
    ensures SpotOf(LookAll(w, b, s), x) == if x in s then LookSpot(SpotOf(w, x), b) else SpotOf(w, x)
    decreases |s|
  {
    if s != [] {
      var v := Look(w, b, s[0]);
      LookSpotOf(w, b, s[0], x);
      forall y | y in s[1..]
        ensures y in v.info && y in v.buckets[b]
      {
        LookSpotOf(w, b, s[0], y);
        assert y in s && y != s[0];
        LookKeepsOthers(w, b, s[0], y);
      }
      LookAllSpotOf(v, b, s[1..], x);
    }
  }

  lemma ReleaseSpotOf(w: Wheel, x: Item)
    requires |w.buckets| == BUCKETS && x in w.info
    ensures var p := SpotOf(w, x);
      SpotOf(Release(w), x) == p.(info := p.info.(references := p.info.references - p.releases), releases := 0)
  {
    var p := SpotOf(w, x);
    SameSpot(SpotOf(Release(w), x), p.(info := p.info.(references := p.info.references - p.releases), releases := 0));
  }

  // The first waiting item enters the wheel.
  function EnterFirst(w: Wheel): Wheel
    requires |w.buckets| == BUCKETS && w.waiting != [] && w.waiting[0] in w.info
  {
    var x := w.waiting[0];
    Put(w.(waiting := w.waiting[1..]), Entry(w, x), x)
  }

  lemma EnterFirstSpotOf(w: Wheel, x: Item)
    requires |w.buckets| == BUCKETS && w.waiting != [] && w.waiting[0] in w.info && x in w.info
    ensures EnterSpot(SpotOf(EnterFirst(w), x), Entry(w, x)) == EnterSpot(SpotOf(w, x), Entry(w, x))
  {
    var p, y := SpotOf(w, x), w.waiting[0];
    var u := w.(waiting := w.waiting[1..]);
    SameSpot(SpotOf(u, x), if x == y then p.(waiting := p.waiting - 1) else p);
    PutSpotOf(u, Entry(w, y), y, x);
    if x == y {
      SameSpot(EnterSpot(PutAt(p.(waiting := p.waiting - 1), Entry(w, x)), Entry(w, x)), EnterSpot(p, Entry(w, x)));
    }
  }

  lemma {:induction false} EnterSpotOf(w: Wheel, x: Item)
    requires |w.buckets| == BUCKETS && w.last < BUCKETS && x in w.info
    requires forall y | y in w.waiting :: y in w.info
    ensures |Enter(w).buckets| == BUCKETS && Enter(w).info == w.info
    ensures Enter(w).last == w.last && Enter(w).waiting == []
    ensures SpotOf(Enter(w), x) == EnterSpot(SpotOf(w, x), Entry(w, x))
    decreases |w.waiting|
  {
    if w.waiting == [] {
      SameSpot(SpotOf(w, x), EnterSpot(SpotOf(w, x), Entry(w, x)));
    } else {
      EnterFirstSpotOf(w, x);
      EnterSpotOf(EnterFirst(w), x);
    }
  }

  lemma CleanIsReleaseAndEnter(w: Wheel, x: Item)
    requires |w.buckets| == BUCKETS && w.last < BUCKETS && x in w.info
    ensures var p := SpotOf(w, x);
      var q := p.(info := p.info.(references := p.info.references - p.releases), releases := 0);
      Entry(Release(w), x) < BUCKETS && CleanSpot(p, w.last) == EnterSpot(q, Entry(Release(w), x))
  {
  }

  lemma CleanupSpotOf(w: Wheel, x: Item)
    requires |w.buckets| == BUCKETS && w.last < BUCKETS && x in w.info
    requires forall y | y in w.waiting :: y in w.info
    ensures var v := Cleanup(w);
      |v.buckets| == BUCKETS && v.info.Keys == w.info.Keys && v.last == w.last &&
      SpotOf(v, x) == CleanSpot(SpotOf(w, x), w.last)
  {
    ReleaseSpotOf(w, x);
    CleanIsReleaseAndEnter(w, x);
    EnterSpotOf(Release(w), x);
  }

  lemma LookedSpotOf(w: Wheel, x: Item)
    requires Sane(w) && x in w.info && NoRepeats(w.buckets[(w.last + 1) % BUCKETS])
    ensures SpotOf(Looked(w), x) == LookedSpot(SpotOf(w, x), w.last)
  {
    var b := (w.last + 1) % BUCKETS;
    LookAllSpotOf(w, b, w.buckets[b], x);
    CountIn(w.buckets[b], x);
    SpotIgnoresLast(LookAll(w, b, w.buckets[b]), b, x);
  }

  lemma SpotIgnoresLast(w: Wheel, last: nat, x: Item)
    requires |w.buckets| == BUCKETS && x in w.info
    ensures SpotOf(w.(last := last), x) == SpotOf(w, x)
  {
    SameSpot(SpotOf(w.(last := last), x), SpotOf(w, x));
  }

  lemma BucketsHaveNoRepeats(w: Wheel, b: nat)
    requires Inv(w) && b < BUCKETS
    ensures NoRepeats(w.buckets[b])
  {
    forall x | x in w.buckets[b]
      ensures Count(w.buckets[b], x) <= 1
    {
      assert Tidy(SpotOf(w, x)) && SpotOf(w, x).at[b] == Count(w.buckets[b], x);
    }
    CountOnce(w.buckets[b]);
  }

  lemma StartSpotOf(w: Wheel, y: Item, x: Item)
    requires |w.buckets| == BUCKETS && x in w.info && y in w.info
    ensures SpotOf(Start(w, y), x) == if x == y then StartSpot(SpotOf(w, x)) else SpotOf(w, x)
  {
    CountAppend(w.decayed, y, x);
    assert ([y] + w.waiting)[1..] == w.waiting;
    SameSpot(SpotOf(Start(w, y), x), if x == y then StartSpot(SpotOf(w, x)) else SpotOf(w, x));
  }

  // ---------- When an item decays ----------

  // Ticks until bucket b is looked at
  function Distance(last: nat, b: nat): (n: nat)
    requires last < BUCKETS && b < BUCKETS
    ensures 1 <= n <= BUCKETS
  {
    (b + BUCKETS - last - 1) % BUCKETS + 1
  }

  // Ticks an item goes on for after its bucket is looked at
  function Further(duration: nat): nat {
    if duration < 1875 then 0 else if duration < 2 * ROUND then 1 else BUCKETS + Further(duration - ROUND)
  }

  // In the wheel: once in bucket b, nowhere else, and still decayable
  predicate InBucket(p: Place, b: nat) {
    b < BUCKETS && p.at[b] == 1 && Listed(p) == 1 && p.info.canDecay
  }

  function TicksLeft(p: Place, b: nat, last: nat): nat
    requires last < BUCKETS && b < BUCKETS
  {
    Distance(last, b) + Further(p.info.duration)
  }

  // The tick, counted from the cleanup that put it into the wheel, at which an item decays
  function DecayTick(duration: nat): nat {
    if duration < ROUND then 1 else BUCKETS + Further(duration)
  }

  lemma {:induction false} DecayTickBounds(duration: nat)
    requires duration > 0
    ensures duration as int - 875 < INTERVAL * DecayTick(duration) < duration + INTERVAL
    ensures DecayTick(duration) ==
      if duration < ROUND then 1 else BUCKETS * (duration / ROUND) + (if duration % ROUND >= 875 then 1 else 0)
    decreases duration
  {
    if duration >= 2 * ROUND {
      DecayTickBounds(duration - ROUND);
    }
  }

  ghost predicate DecaysIn(p: Place, k: nat, last: nat) {
    last < BUCKETS && exists b :: InBucket(p, b) && TicksLeft(p, b, last) == k
  }

  // A cleanup moves nothing that is in the wheel.
  lemma CleanSpotStays(p: Place, last: nat)
    requires last < BUCKETS && p.waiting == 0
    ensures CleanSpot(p, last) == p.(info := p.info.(references := p.info.references - p.releases), releases := 0)
  {
    SameSpot(CleanSpot(p, last), p.(info := p.info.(references := p.info.references - p.releases), releases := 0));
  }

  // A look at an item's bucket that does not decay it
  lemma LookSpotHere(p: Place, b: nat)
    requires InBucket(p, b) && p.info.duration >= 1875
    ensures var q, d := LookSpot(p, b), p.info.duration;
      q.decays == p.decays && q.info.duration == d - ROUND &&
      InBucket(q, if d < 2 * ROUND then (b + 1) % BUCKETS else b)
  {
  }

  // A look at an item's bucket that decays it
  lemma LookSpotLast(p: Place, b: nat)
    requires InBucket(p, b) && p.info.duration < 1875
    ensures LookSpot(p, b) == DecayAt(TakeAt(p.(info := LookSpot(p, b).info), b))
    ensures LookSpot(p, b).info.references == p.info.references && LookSpot(p, b).info.decaying == p.info.decaying
  {
    assert Slot(b, p.info.duration - Min(ROUND, p.info.duration)) == b;
  }

  lemma DistanceCloser(last: nat, b: nat)
    requires last < BUCKETS && b < BUCKETS
    ensures var last' := (last + 1) % BUCKETS;
      (b == last' <==> Distance(last, b) == 1) && (b != last' ==> Distance(last', b) == Distance(last, b) - 1) &&
      Distance(b, (b + 1) % BUCKETS) == 1 && Distance(b, b) == BUCKETS
  {
  }

  // One look brings an item in the wheel one look closer, and the last one decays it.
  lemma LookedSpotCloser(p: Place, k: nat, last: nat)
    requires DecaysIn(p, k, last) && Tidy(p)
    ensures k > 0
    ensures var q := LookedSpot(p, last);
      if k == 1 then q.decays == p.decays + 1 && Listed(q) == 0 && q.info.decaying
      else q.decays == p.decays && DecaysIn(q, k - 1, (last + 1) % BUCKETS)
  {
    var q := LookedSpot(p, last);
    var last': nat := (last + 1) % BUCKETS;
    var b: nat :| InBucket(p, b) && TicksLeft(p, b, last) == k;
    DistanceCloser(last, b);
    if b != last' {
      assert InBucket(q, b) && TicksLeft(q, b, last') == k - 1;
    } else if p.info.duration < 1875 {
      LookSpotLast(p, b);
    } else {
      LookSpotHere(p, b);
      var b': nat := if p.info.duration < 2 * ROUND then (b + 1) % BUCKETS else b;
      assert InBucket(q, b') && TicksLeft(q, b', last') == k - 1;
    }
  }

  lemma CleanSpotTidy(p: Place, last: nat)
    requires last < BUCKETS && Tidy(p)
    ensures Tidy(CleanSpot(p, last)) && CleanSpot(p, last).info.references == Listed(CleanSpot(p, last)) == Listed(p)
  {
  }

  lemma LookSpotTidy(p: Place, b: nat)
    requires b < BUCKETS && Tidy(p) && p.at[b] > 0
    ensures Tidy(LookSpot(p, b)) && LookSpot(p, b).waiting == p.waiting
  {
  }

  lemma LookedSpotTidy(p: Place, last: nat)
    requires last < BUCKETS && Tidy(p)
    ensures Tidy(LookedSpot(p, last)) && LookedSpot(p, last).waiting == p.waiting
  {
    if p.at[(last + 1) % BUCKETS] > 0 {
      LookSpotTidy(p, (last + 1) % BUCKETS);
    }
  }

  lemma StartSpotTidy(p: Place)
    requires Tidy(p)
    ensures Tidy(StartSpot(p))
    ensures p.info.decaying || !p.info.canDecay ==> StartSpot(p) == p
  {
  }

  // An item that enters the wheel decays DecayTick ticks later.
  lemma EnteringSpot(p: Place, last: nat)
    requires last < BUCKETS && Tidy(p) && p.waiting == 1 && p.info.canDecay && p.info.duration > 0
    ensures var q := CleanSpot(p, last);
      q.decays == p.decays && DecaysIn(q, DecayTick(p.info.duration), last)
  {
    var q := CleanSpot(p, last);
    var b := if p.info.duration >= ROUND then last else (last + 1 + p.info.duration / 1000) % BUCKETS;
    assert InBucket(q, b) && TicksLeft(q, b, last) == DecayTick(p.info.duration);
  }

  // ---------- Runs ----------

  // checkDecay is a LookRound, any StartDecay of what the decayed items have turned into,
  // and a Sweep; Rewrite is a change made to an item by the rest of the game.
  datatype Event =
    | StartDecay(item: Item)
    | LookRound
    | Sweep
    | Rewrite(item: Item, canDecay: bool, decaying: bool, duration: nat)

  // The rest of the game does not take the decaying mark off a listed item.
  predicate Guard(w: Wheel, e: Event)
    requires Sane(w)
  {
    match e
    case StartDecay(x) => x in w.info
    case Rewrite(x, _, decaying, _) => x in w.info && (decaying || Listed(SpotOf(w, x)) == 0)
    case LookRound => true
    case Sweep => true
  }

  function Step(w: Wheel, e: Event): (v: Wheel)
    requires Sane(w) && Guard(w, e)
    ensures Sane(v)
  {
    StepSane(w, e);
    Bare(w, e)
  }

  function Bare(w: Wheel, e: Event): Wheel
    requires Sane(w) && Guard(w, e)
  {
    match e
    case StartDecay(x) => Start(w, x)
    case LookRound => Looked(w)
    case Sweep => Cleanup(w)
    case Rewrite(x, canDecay, decaying, duration) =>
      w.(info := w.info[x := Info(canDecay, decaying, duration, w.info[x].references)])
  }

  // Sanity is asked of the start only; every step is shown to keep it.
  predicate CanRun(w: Wheel, es: seq<Event>)
    requires Sane(w)
    decreases |es|
  {
    es == [] || (Guard(w, es[0]) && CanRun(Step(w, es[0]), es[1..]))
  }

  function Run(w: Wheel, es: seq<Event>): Wheel
    requires Sane(w) && CanRun(w, es)
    decreases |es|
  {
    if es == [] then w else Run(Step(w, es[0]), es[1..])
  }

  // A step as one item sees it
  function StepSpot(p: Place, e: Event, x: Item, last: nat): Place
    requires last < BUCKETS
  {
    match e
    case StartDecay(y) => if x == y then StartSpot(p) else p
    case LookRound => LookedSpot(p, last)
    case Sweep => CleanSpot(p, last)
    case Rewrite(y, canDecay, decaying, duration) =>
      if x == y then p.(info := Info(canDecay, decaying, duration, p.info.references)) else p
  }

  function LastAfter(last: nat, e: Event): nat {
    if e == LookRound then (last + 1) % BUCKETS else last
  }

  lemma RewriteSpotOf(w: Wheel, y: Item, x: Item, i: Info)
    requires |w.buckets| == BUCKETS && x in w.info && y in w.info
    ensures SpotOf(w.(info := w.info[y := i]), x) == if x == y then SpotOf(w, x).(info := i) else SpotOf(w, x)
  {
    SameSpot(SpotOf(w.(info := w.info[y := i]), x), if x == y then SpotOf(w, x).(info := i) else SpotOf(w, x));
  }

  lemma StepSpotOf(w: Wheel, e: Event, x: Item)
    requires Inv(w) && Guard(w, e) && x in w.info
    ensures var v := Step(w, e);
      |v.buckets| == BUCKETS && v.info.Keys == w.info.Keys && v.last == LastAfter(w.last, e) &&
      SpotOf(v, x) == StepSpot(SpotOf(w, x), e, x, w.last)
  {
    match e
    case StartDecay(y) => StartSpotOf(w, y, x);
    case LookRound =>
      BucketsHaveNoRepeats(w, (w.last + 1) % BUCKETS);
      LookedSpotOf(w, x);
    case Sweep => CleanupSpotOf(w, x);
    case Rewrite(y, canDecay, decaying, duration) =>
      RewriteSpotOf(w, y, x, Info(canDecay, decaying, duration, w.info[y].references));
  }

  lemma StepSpotTidy(p: Place, e: Event, x: Item, last: nat)
    requires last < BUCKETS && Tidy(p)
    requires e.Rewrite? && e.item == x ==> e.decaying || Listed(p) == 0
    ensures Tidy(StepSpot(p, e, x, last))
  {
    match e
    case StartDecay(_) => StartSpotTidy(p);
    case LookRound => LookedSpotTidy(p, last);
    case Sweep => CleanSpotTidy(p, last);
    case Rewrite(_, _, _, _) =>
  }

  predicate Members(w: Wheel) {
    forall b, x | 0 <= b < |w.buckets| && x in w.buckets[b] :: x in w.info
  }

  lemma TakeMembers(w: Wheel, b: nat, x: Item)
    requires b < |w.buckets| && Members(w)
    ensures Members(Take(w, b, x))
  {
    forall y | y in Without(w.buckets[b], x)
      ensures y in w.info
    {
      WithoutCount(w.buckets[b], x, y);
    }
  }

  lemma LookMembers(w: Wheel, b: nat, x: Item)
    requires b < |w.buckets| == BUCKETS && x in w.info && Members(w)
    ensures Members(Look(w, b, x))
  {
    var i := w.info[x];
    TakeMembers(w, b, x);
    if i.canDecay {
      var left := i.duration - Min(ROUND, i.duration);
      var u := w.(info := w.info[x := i.(duration := left)]);
      TakeMembers(u, b, x);
      assert Look(w, b, x) == Move(u, b, x, left);
    }
  }

  lemma {:induction false} LookAllMembers(w: Wheel, b: nat, s: seq<Item>)
    requires b < |w.buckets| == BUCKETS && Members(w) && forall x | x in s :: x in w.info
    ensures Members(LookAll(w, b, s))
    decreases |s|
  {
    if s != [] {
      LookMembers(w, b, s[0]);
      LookAllMembers(Look(w, b, s[0]), b, s[1..]);
    }
  }

  lemma {:induction false} EnterMembers(w: Wheel)
    requires |w.buckets| == BUCKETS && w.last < BUCKETS && Members(w) && forall x | x in w.waiting :: x in w.info
    ensures Members(Enter(w)) && |Enter(w).buckets| == BUCKETS && Enter(w).last == w.last && Enter(w).waiting == []
    decreases |w.waiting|
  {
    if w.waiting != [] {
      EnterMembers(EnterFirst(w));
    }
  }

  lemma StepSane(w: Wheel, e: Event)
    requires Sane(w) && Guard(w, e)
    ensures Sane(Bare(w, e)) && Bare(w, e).info.Keys == w.info.Keys
  {
    match e
    case StartDecay(_) =>
    case LookRound => LookedSane(w);
    case Sweep => CleanupSane(w);
    case Rewrite(_, _, _, _) =>
  }

  lemma LookedSane(w: Wheel)
    requires Sane(w)
    ensures Sane(Looked(w)) && Looked(w).info.Keys == w.info.Keys
  {
    var b := (w.last + 1) % BUCKETS;
    LookAllMembers(w, b, w.buckets[b]);
  }

  lemma CleanupSane(w: Wheel)
    requires Sane(w)
    ensures Sane(Cleanup(w)) && Cleanup(w).info.Keys == w.info.Keys
  {
    EnterMembers(Release(w));
    EnterInfo(Release(w));
  }

  lemma {:induction false} EnterInfo(w: Wheel)
    requires |w.buckets| == BUCKETS && w.last < BUCKETS && forall x | x in w.waiting :: x in w.info
    ensures Enter(w).info == w.info
    decreases |w.waiting|
  {
    if w.waiting != [] {
      EnterInfo(EnterFirst(w));
    }
  }

  // Every step keeps the invariant.
  lemma StepKeepsInv(w: Wheel, e: Event)
    requires Inv(w) && Guard(w, e)
    ensures Inv(Step(w, e)) && Step(w, e).info.Keys == w.info.Keys
  {
    StepSane(w, e);
    forall x | x in w.info
      ensures Tidy(SpotOf(Step(w, e), x))
    {
      StepSpotOf(w, e, x);
      StepSpotTidy(SpotOf(w, x), e, x, w.last);
    }
  }

  // After any run an item stands in the wheel or among the waiting at most once, marked
  // as decaying, and the wheel holds exactly one reference to what is listed and one to
  // what is about to be released.
  lemma {:induction false} EveryRunIsTidy(w: Wheel, es: seq<Event>)
    requires Inv(w) && CanRun(w, es)
    ensures Inv(Run(w, es)) && Run(w, es).info.Keys == w.info.Keys
    decreases |es|
  {
    if es != [] {
      StepKeepsInv(w, es[0]);
      EveryRunIsTidy(Step(w, es[0]), es[1..]);
    }
  }

  // ---------- Timing over whole runs ----------

  predicate Untouched(es: seq<Event>, x: Item) {
    forall e | e in es :: !(e.Rewrite? && e.item == x)
  }

  function Looks(es: seq<Event>): nat {
    if es == [] then 0 else (if es[0] == LookRound then 1 else 0) + Looks(es[1..])
  }

  // Looks that follow the first sweep
  function LooksOnceIn(es: seq<Event>): nat {
    if es == [] then 0 else if es[0] == Sweep then Looks(es[1..]) else LooksOnceIn(es[1..])
  }

  // Where an item is that has k looks to go, or that has decayed once more than `decays`
  ghost predicate OnCourse(p: Place, k: int, decays: nat, last: nat) {
    if k > 0 then p.decays == decays && DecaysIn(p, k, last)
    else p.decays == decays + 1 && Listed(p) == 0 && p.info.decaying
  }

  lemma StepOnCourse(p: Place, e: Event, x: Item, k: int, decays: nat, last: nat)
    requires last < BUCKETS && Tidy(p) && OnCourse(p, k, decays, last) && Untouched([e], x)
    ensures OnCourse(StepSpot(p, e, x, last), if e == LookRound then k - 1 else k, decays, LastAfter(last, e))
  {
    assert e in [e];
    if e == LookRound {
      if k > 0 {
        LookedSpotCloser(p, k, last);
      }
    } else if e == Sweep {
      CleanSpotStays(p, last);
      if k > 0 {
        var b: nat :| InBucket(p, b) && TicksLeft(p, b, last) == k;
        assert InBucket(CleanSpot(p, last), b) && TicksLeft(CleanSpot(p, last), b, last) == k;
      }
    } else {
      StartSpotTidy(p);
    }
  }

  lemma {:induction false} RunOnCourse(w: Wheel, es: seq<Event>, x: Item, k: int, decays: nat)
    requires Inv(w) && CanRun(w, es) && x in w.info && Untouched(es, x) && OnCourse(SpotOf(w, x), k, decays, w.last)
    ensures Inv(Run(w, es)) && x in Run(w, es).info
    ensures OnCourse(SpotOf(Run(w, es), x), k - Looks(es), decays, Run(w, es).last)
    decreases |es|
  {
    if es != [] {
      StepKeepsInv(w, es[0]);
      StepSpotOf(w, es[0], x);
      assert es[0] in es;
      StepOnCourse(SpotOf(w, x), es[0], x, k, decays, w.last);
      RunOnCourse(Step(w, es[0]), es[1..], x, if es[0] == LookRound then k - 1 else k, decays);
    }
  }

  predicate Started(p: Place) {
    p.waiting == 1 && p.info.canDecay && p.info.duration > 0
  }

  lemma StepStarted(p: Place, e: Event, x: Item, last: nat)
    requires last < BUCKETS && Tidy(p) && Started(p) && Untouched([e], x) && e != Sweep
    ensures Started(StepSpot(p, e, x, last)) && StepSpot(p, e, x, last).decays == p.decays
    ensures StepSpot(p, e, x, last).info.duration == p.info.duration
  {
    assert e in [e];
  }

  // Decayed once more than `decays` if the n-th look has come, and until then listed
  // exactly once, with one reference for that
  predicate OnTime(q: Place, decays: nat, n: nat, looks: nat) {
    if looks < n then q.decays == decays && Listed(q) == 1 && q.info.references == 1 + q.releases
    else q.decays == decays + 1 && Listed(q) == 0 && q.info.references == q.releases
  }

  // From the sweep that takes the item in
  lemma OnTimeOnceIn(w: Wheel, es: seq<Event>, x: Item)
    requires Inv(w) && CanRun(w, es) && x in w.info && Untouched(es, x) && Started(SpotOf(w, x))
    requires es != [] && es[0] == Sweep
    ensures Inv(Run(w, es)) && x in Run(w, es).info
    ensures OnTime(SpotOf(Run(w, es), x), SpotOf(w, x).decays, DecayTick(w.info[x].duration), LooksOnceIn(es))
  {
    var p, v := SpotOf(w, x), Step(w, es[0]);
    StepKeepsInv(w, es[0]);
    StepSpotOf(w, es[0], x);
    EnteringSpot(p, w.last);
    RunOnCourse(v, es[1..], x, DecayTick(p.info.duration), p.decays);
    assert Tidy(SpotOf(Run(w, es), x));
  }

  // An item that startDecay has queued with duration D, and that nothing else rewrites,
  // is listed exactly once until exactly the DecayTick(D)-th look after the cleanup that
  // takes it in; that look decays it, and no other does.
  lemma {:induction false} DecaysOnTime(w: Wheel, es: seq<Event>, x: Item)
    requires Inv(w) && CanRun(w, es) && x in w.info && Untouched(es, x) && Started(SpotOf(w, x))
    ensures Inv(Run(w, es)) && x in Run(w, es).info
    ensures OnTime(SpotOf(Run(w, es), x), SpotOf(w, x).decays, DecayTick(w.info[x].duration), LooksOnceIn(es))
    decreases |es|
  {
    if es == [] {
      assert Tidy(SpotOf(w, x));
    } else if es[0] == Sweep {
      OnTimeOnceIn(w, es, x);
    } else {
      assert es[0] in es;
      StepKeepsInv(w, es[0]);
      StepSpotOf(w, es[0], x);
      StepStarted(SpotOf(w, x), es[0], x, w.last);
      DecaysOnTime(Step(w, es[0]), es[1..], x);
    }
  }

  // The whole life of a decay: an item handed to startDecay with duration D stays in the
  // wheel, once, and decays at one look, the n-th since the wheel took it in, with
  // D - 875 < 250 * n < D + 250.
  lemma StartedDecaysOnTime(w: Wheel, es: seq<Event>, x: Item)
    requires Inv(w) && x in w.info && w.info[x].canDecay && !w.info[x].decaying && w.info[x].duration > 0
    requires es != [] && es[0] == StartDecay(x) && CanRun(w, es) && Untouched(es, x)
    ensures Inv(Run(w, es)) && x in Run(w, es).info
    ensures exists n: nat ::
      w.info[x].duration as int - 875 < INTERVAL * n < w.info[x].duration + INTERVAL &&
      OnTime(SpotOf(Run(w, es), x), SpotOf(w, x).decays, n, LooksOnceIn(es))
  {
    DecayTickBounds(w.info[x].duration);
    StartIsStarted(w, x);
    assert Run(w, es) == Run(Start(w, x), es[1..]) && LooksOnceIn(es) == LooksOnceIn(es[1..]);
    DecaysOnTime(Start(w, x), es[1..], x);
  }

  lemma StartIsStarted(w: Wheel, x: Item)
    requires Inv(w) && x in w.info && w.info[x].canDecay && !w.info[x].decaying && w.info[x].duration > 0
    ensures var v := Start(w, x);
      Inv(v) && x in v.info && Started(SpotOf(v, x)) && SpotOf(v, x).decays == SpotOf(w, x).decays &&
      v.info[x].duration == w.info[x].duration
  {
    assert Tidy(SpotOf(w, x));
    StepKeepsInv(w, Event.StartDecay(x));
    StartSpotOf(w, x, x);
  }

  // Without a duration an item that may decay does so at once and is not listed; one that may
  // not decay, or is decaying already, is left alone.
  lemma StartWithoutTime(w: Wheel, x: Item)
    requires Inv(w) && x in w.info
    ensures var v, i := Start(w, x), w.info[x];
      if !i.canDecay || i.decaying then v == w
      else if i.duration == 0 then
        SpotOf(v, x) == SpotOf(w, x).(decays := SpotOf(w, x).decays + 1) &&
        (forall y | y in w.info && y != x :: SpotOf(v, y) == SpotOf(w, y))
      else SpotOf(v, x).decays == SpotOf(w, x).decays && v.waiting == [x] + w.waiting
  {
    StartSpotOf(w, x, x);
    forall y | y in w.info && y != x
      ensures SpotOf(Start(w, x), y) == SpotOf(w, y)
    {
      StartSpotOf(w, x, y);
    }
  }

  // An item that may not decay never does, and the next look at its bucket takes it out.
  lemma StoppedIsDropped(w: Wheel, x: Item)
    requires Inv(w) && x in w.info && !w.info[x].canDecay
    ensures var p, q, b := SpotOf(w, x), SpotOf(Looked(w), x), (w.last + 1) % BUCKETS;
      q.decays == p.decays && !q.info.canDecay &&
      if p.at[b] > 0 then !q.info.decaying && Listed(q) == 0 && q.releases == p.releases + 1 else q == p
  {
    BucketsHaveNoRepeats(w, (w.last + 1) % BUCKETS);
    LookedSpotOf(w, x);
    assert Tidy(SpotOf(w, x));
  }

  lemma {:induction false} StoppedNeverDecays(w: Wheel, es: seq<Event>, x: Item)
    requires Inv(w) && x in w.info && !w.info[x].canDecay && CanRun(w, es) && Untouched(es, x)
    ensures var v := Run(w, es);
      |v.buckets| == BUCKETS && x in v.info && !v.info[x].canDecay && SpotOf(v, x).decays == SpotOf(w, x).decays
    decreases |es|
  {
    if es != [] {
      assert es[0] in es && forall e | e in es[1..] :: e in es;
      StepSpotOf(w, es[0], x);
      StepKeepsInv(w, es[0]);
      StoppedNeverDecays(Step(w, es[0]), es[1..], x);
    }
  }

  // ---------- The scheduler's fields and methods ----------

  lemma {:induction false} EraseIsWithout(s: seq<Item>, i: nat)
    requires i < |s| && NoRepeats(s)
    ensures Without(s, s[i]) == s[..i] + s[i + 1..] && NoRepeats(s[..i] + s[i + 1..])
    decreases |s|
  {
    if i == 0 {
      WithoutAbsent(s[1..], s[0]);
    } else {
      EraseIsWithout(s[1..], i - 1);
      assert s[..i] + s[i + 1..] == [s[0]] + (s[1..][..i - 1] + s[1..][i..]);
    }
  }

  lemma {:induction false} WithoutAbsent(s: seq<Item>, x: Item)
    requires x !in s
    ensures Without(s, x) == s
  {
    if s != [] {
      WithoutAbsent(s[1..], x);
    }
  }

  class Game {
    var decayItems: seq<seq<Item>>
    var lastBucket: nat
    var toDecayItems: seq<Item>
    var toReleaseItems: seq<Item>
    var items: map<Item, Info>
    var decayed: seq<Item>

    function State(): Wheel
      reads this
    {
      Wheel(decayItems, lastBucket, toDecayItems, toReleaseItems, items, decayed)
    }

    method StartDecay(x: Item)
      requires x in items
      modifies this
      ensures State() == Start(old(State()), x)
    {
      if !items[x].canDecay {
        return;
      }
      if items[x].decaying {
        return;
      }
      if items[x].duration > 0 {
        ghost var i := items[x];
        items := items[x := items[x].(references := items[x].references + 1)];
        items := items[x := items[x].(decaying := true)];
        toDecayItems := [x] + toDecayItems;
        assert items == old(items)[x := i.(decaying := true, references := i.references + 1)];
      } else {
        InternalDecayItem(x);
      }
    }

    method InternalDecayItem(x: Item)
      modifies `decayed
      ensures decayed == old(decayed) + [x]
    {
      decayed := decayed + [x];
    }

    method ReleaseItem(x: Item)
      modifies `toReleaseItems
      ensures toReleaseItems == old(toReleaseItems) + [x]
    {
      toReleaseItems := toReleaseItems + [x];
    }

    method Erase(b: nat, i: nat)
      requires |decayItems| == BUCKETS && b < BUCKETS && i < |decayItems[b]| && NoRepeats(decayItems[b])
      modifies `decayItems
      ensures State() == Take(old(State()), b, old(decayItems[b][i]))
      ensures NoRepeats(decayItems[b]) && i <= |decayItems[b]| && decayItems[b][i..] == old(decayItems[b][i + 1..])
    {
      var s := decayItems[b];
      EraseIsWithout(s, i);
      decayItems := decayItems[b := s[..i] + s[i + 1..]];
      assert (s[..i] + s[i + 1..])[i..] == s[i + 1..];
    }

    // One turn of the loop of checkDecay
    method LookAt(bucket: nat, i: nat) returns (next: nat)
      requires |decayItems| == BUCKETS && bucket < BUCKETS && i < |decayItems[bucket]|
      requires NoRepeats(decayItems[bucket]) && decayItems[bucket][i] in items
      modifies this
      ensures State() == Look(old(State()), bucket, old(decayItems[bucket][i]))
      ensures |decayItems| == BUCKETS && NoRepeats(decayItems[bucket])
      ensures next <= |decayItems[bucket]| && decayItems[bucket][next..] == old(decayItems[bucket][i + 1..])
    {
      var x := decayItems[bucket][i];
      next := i;
      if !items[x].canDecay {
        items := items[x := items[x].(decaying := false)];
        ReleaseItem(x);
        Erase(bucket, i);
        return;
      }

      var duration := items[x].duration;
      var decreaseTime := if ROUND < duration then ROUND else duration;
      duration := duration - decreaseTime;
      items := items[x := items[x].(duration := items[x].duration - decreaseTime)];

      if duration <= 0 {
        Erase(bucket, i);
        InternalDecayItem(x);
        ReleaseItem(x);
      } else if duration < ROUND {
        Erase(bucket, i);
        var newBucket := (bucket + (duration + INTERVAL / 2) / 1000) % BUCKETS;
        if newBucket == bucket {
          InternalDecayItem(x);
          ReleaseItem(x);
        } else {
          decayItems := decayItems[newBucket := decayItems[newBucket] + [x]];
        }
      } else {
        next := i + 1;
      }
    }

    method EnterWheel(x: Item)
      requires |decayItems| == BUCKETS && lastBucket < BUCKETS && x in items
      modifies `decayItems
      ensures State() == Put(old(State()), Entry(old(State()), x), x)
    {
      var dur := items[x].duration;
      if dur >= ROUND {
        decayItems := decayItems[lastBucket := decayItems[lastBucket] + [x]];
      } else {
        var b := (lastBucket + 1 + dur / 1000) % BUCKETS;
        decayItems := decayItems[b := decayItems[b] + [x]];
      }
    }

    // The loop of CheckDecay
    method LookThrough(bucket: nat)
      requires |decayItems| == BUCKETS && bucket < BUCKETS && NoRepeats(decayItems[bucket])
      requires forall x | x in decayItems[bucket] :: x in items
      modifies this
      ensures State() == LookAll(old(State()), bucket, old(decayItems[bucket]))
    {
      ghost var w := State();
      var it: nat := 0;
      while it < |decayItems[bucket]|
        invariant |decayItems| == BUCKETS && it <= |decayItems[bucket]| && NoRepeats(decayItems[bucket])
        invariant forall x | x in decayItems[bucket][it..] :: x in items
        invariant LookAll(State(), bucket, decayItems[bucket][it..]) == LookAll(w, bucket, w.buckets[bucket])
        decreases |decayItems[bucket]| - it
      {
        ghost var rest := decayItems[bucket][it..];
        assert rest[0] == decayItems[bucket][it] && rest[1..] == decayItems[bucket][it + 1..];
        it := LookAt(bucket, it);
      }
      assert decayItems[bucket][it..] == [];
    }

    // The next bucket is looked through and becomes the last one.
    method CheckDecay()
      requires Inv(State())
      modifies this
      ensures Inv(State()) && State() == Cleanup(Looked(old(State())))
    {
      ghost var w := State();
      var bucket := (lastBucket + 1) % BUCKETS;
      BucketsHaveNoRepeats(w, bucket);
      StepKeepsInv(w, LookRound);
      LookThrough(bucket);
      lastBucket := bucket;
      assert State() == Looked(w);
      StepKeepsInv(Looked(w), Sweep);
      CleanUp();
    }

    // Pending releases are carried out.
    method ReleaseAll()
      modifies `items, `toReleaseItems
      ensures State() == Release(old(State()))
    {
      items := map x | x in items :: items[x].(references := items[x].references - Count(toReleaseItems, x));
      toReleaseItems := [];
    }

    method CleanUp()
      requires |decayItems| == BUCKETS && lastBucket < BUCKETS && forall x | x in toDecayItems :: x in items
      modifies this
      ensures State() == Cleanup(old(State()))
    {
      ReleaseAll();
      while toDecayItems != []
        invariant |decayItems| == BUCKETS && lastBucket < BUCKETS && forall x | x in toDecayItems :: x in items
        invariant Enter(State()) == Cleanup(old(State()))
        decreases |toDecayItems|
      {
        EnterWheel(toDecayItems[0]);
        toDecayItems := toDecayItems[1..];
      }
    }
  }
}
