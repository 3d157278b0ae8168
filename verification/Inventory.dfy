// What a player carries, as far as it decides where another item goes and how much of it
// (queryAdd, queryMaxCount and queryDestination of Player and Container, and
// Game::internalAddItem).
module Inventory {

  import opened Arithmetic
  import opened ItemTypes
  import opened Wrappers

  // A slot of the player, or the inside of a container
  datatype Place = Slot(number: nat) | Inside(container: nat)

  // `weight` is that of one piece; `around` are the containers that the item lies in, at any depth.
  datatype Thing = Thing(id: nat, kind: Kind, count: nat, weight: nat, place: Place, around: set<nat>)

  // `around` are the containers around what lies here, with the one it lies in.
  datatype Pocket = Pocket(place: Place, capacity: nat, around: set<nat>)

  // The slots in order, then the containers level by level
  datatype Carrier = Carrier(pockets: seq<Pocket>, things: seq<Thing>, maxLoad: nat)

  // What equipment, scripts, locks and limits on contents say of a place, given all that is carried
  type Rules = (seq<Thing>, Place, Thing) -> bool

  // ---------- Weight ----------

  function Heft(item: Thing, amount: nat): nat { if item.kind.stackable then item.weight * amount else item.weight }

  function Load(s: seq<Thing>): nat {
    if s == [] then 0 else Heft(s[0], s[0].count) + Load(s[1..])
  }

  // getFreeCapacity
  function FreeLoad(c: Carrier): nat { if Load(c.things) < c.maxLoad then c.maxLoad - Load(c.things) else 0 }

  // hasCapacity
  predicate Bears(c: Carrier, item: Thing, amount: nat) { Heft(item, amount) <= FreeLoad(c) }

  // queryAdd, at a given place
  predicate Admits(c: Carrier, rules: Rules, place: Place, item: Thing, amount: nat) {
    rules(c.things, place, item) && Bears(c, item, amount)
  }

  // ---------- Where it goes ----------

  function Size(s: seq<Thing>, place: Place): nat {
    if s == [] then 0 else (if s[0].place == place then 1 else 0) + Size(s[1..], place)
  }

  predicate Completes(t: Thing, place: Place, item: Thing) {
    t.place == place && item.kind.stackable && t.kind == item.kind && t.count < STACK
  }

  // The first unfinished equal stack at a place, from index k on; `skip` is the player's own offer in a trade.
  function FirstEqual(s: seq<Thing>, place: Place, item: Thing, skip: Option<nat>, k: nat): (r: Option<nat>)
    requires k <= |s|
    ensures r.Some? ==> k <= r.value < |s| && Completes(s[r.value], place, item) && Some(s[r.value].id) != skip
    ensures forall j | k <= j < if r.Some? then r.value else |s| ::
      !(Completes(s[j], place, item) && Some(s[j].id) != skip)
    decreases |s| - k
  {
    if k == |s| then None
    else if Completes(s[k], place, item) && Some(s[k].id) != skip then Some(k)
    else FirstEqual(s, place, item, skip, k + 1)
  }

  function Unoffered(s: seq<Thing>, id: Option<nat>): seq<Thing> {
    if s == [] then [] else (if Some(s[0].id) == id then [] else [s[0]]) + Unoffered(s[1..], id)
  }

  datatype Spot = Nowhere | At(pocket: Pocket, onto: Option<nat>)

  // The pocket is the player's own offer, or lies inside it.
  predicate OnOffer(p: Pocket, trade: Option<nat>) { trade.Some? && p.place.Inside? && trade.value in p.around }

  predicate WornOffer(s: seq<Thing>, trade: Option<nat>) {
    exists t | t in s :: Some(t.id) == trade && t.place.Slot?
  }

  // What the search of queryDestination for a stack to complete, or else for a free place,
  // finds in one pocket
  function StackSpot(c: Carrier, rules: Rules, trade: Option<nat>, item: Thing, p: Pocket): Spot {
    if p.place.Slot? then
      if Size(c.things, p.place) > 0 then
        var onto := FirstEqual(c.things, p.place, item, trade, 0);
        if onto.Some? && Admits(c, rules, p.place, item, item.count) then At(p, onto) else Nowhere
      else if Admits(c, rules, p.place, item, item.count) then At(p, None)
      else Nowhere
    else if OnOffer(p, trade) then Nowhere
    else
      var onto := FirstEqual(c.things, p.place, item, trade, 0);
      if onto.Some? then At(p, onto)
      else if Size(Unoffered(c.things, trade), p.place) < p.capacity && Admits(c, rules, p.place, item, item.count) then
        At(p, None)
      else Nowhere
  }

  // The same for a free place only. The number of free places of a container is unsigned,
  // so that one with too much in it looks as if it had many.
  function FreeSpot(c: Carrier, rules: Rules, trade: Option<nat>, item: Thing, p: Pocket): Spot {
    if p.place.Slot? then
      if Size(c.things, p.place) == 0 && Admits(c, rules, p.place, item, item.count) then At(p, None) else Nowhere
    else if OnOffer(p, trade) && WornOffer(c.things, trade) then Nowhere
    else if Size(c.things, p.place) != p.capacity && Admits(c, rules, p.place, item, item.count) then At(p, None)
    else Nowhere
  }

  function SpotIn(c: Carrier, rules: Rules, trade: Option<nat>, item: Thing, autoStack: bool, p: Pocket): Spot {
    if autoStack && item.kind.stackable then StackSpot(c, rules, trade, item, p) else FreeSpot(c, rules, trade, item, p)
  }

  // queryDestination, over the pockets from the i-th on
  function Find(c: Carrier, rules: Rules, trade: Option<nat>, item: Thing, autoStack: bool, i: nat): Spot
    requires i <= |c.pockets|
    decreases |c.pockets| - i
  {
    if i == |c.pockets| then Nowhere
    else
      var spot := SpotIn(c, rules, trade, item, autoStack, c.pockets[i]);
      if spot != Nowhere then spot else Find(c, rules, trade, item, autoStack, i + 1)
  }

  // The search finds the first pocket that has a place.
  lemma {:induction false} FindsFirst(c: Carrier, rules: Rules, trade: Option<nat>, item: Thing, autoStack: bool,
                                      i: nat)
    returns (k: nat)
    requires i <= |c.pockets|
    ensures i <= k <= |c.pockets|
    ensures forall j | i <= j < k :: SpotIn(c, rules, trade, item, autoStack, c.pockets[j]) == Nowhere
    ensures Find(c, rules, trade, item, autoStack, i) ==
      if k == |c.pockets| then Nowhere else SpotIn(c, rules, trade, item, autoStack, c.pockets[k])
    ensures k < |c.pockets| ==> Find(c, rules, trade, item, autoStack, i) != Nowhere
    decreases |c.pockets| - i
  {
    k := i;
    if i < |c.pockets| && SpotIn(c, rules, trade, item, autoStack, c.pockets[i]) == Nowhere {
      k := FindsFirst(c, rules, trade, item, autoStack, i + 1);
    }
  }

  // ---------- How much fits ----------

  function Remainder(t: Thing): nat { if t.count < STACK then STACK - t.count else 0 }

  // What unfinished equal stacks at a place can take, from index k on
  function Remainders(c: Carrier, rules: Rules, place: Place, item: Thing, k: nat): nat
    requires k <= |c.things|
    decreases |c.things| - k
  {
    if k == |c.things| then 0
    else
      var t := c.things[k];
      (if Completes(t, place, item) && Admits(c, rules, place, item, Remainder(t)) then Remainder(t) else 0) +
      Remainders(c, rules, place, item, k + 1)
  }

  function FreeSlots(c: Carrier, p: Pocket): nat {
    if Size(c.things, p.place) < p.capacity then p.capacity - Size(c.things, p.place) else 0
  }

  function FitsIn(c: Carrier, rules: Rules, item: Thing, p: Pocket): nat {
    if p.place.Slot? then
      if Size(c.things, p.place) > 0 then Remainders(c, rules, p.place, item, 0)
      else if !Admits(c, rules, p.place, item, item.count) then 0
      else if item.kind.stackable then STACK
      else 1
    else if item.kind.stackable then FreeSlots(c, p) * STACK + Remainders(c, rules, p.place, item, 0)
    else FreeSlots(c, p)
  }

  // queryMaxCount, over the pockets from the i-th on
  function Fits(c: Carrier, rules: Rules, item: Thing, i: nat): nat
    requires i <= |c.pockets|
    decreases |c.pockets| - i
  {
    if i == |c.pockets| then 0 else FitsIn(c, rules, item, c.pockets[i]) + Fits(c, rules, item, i + 1)
  }

  // Player::queryAdd at a slot has been asked by the search; a container is asked again, and
  // only for a container does it matter whether all of the item fits.
  predicate Takes(c: Carrier, rules: Rules, item: Thing, spot: Spot) {
    spot.At? && (spot.pocket.place.Slot? ||
      (Admits(c, rules, spot.pocket.place, item, item.count) && Fits(c, rules, item, 0) >= item.count))
  }

  // ---------- internalAddItem ----------

  function Put(c: Carrier, item: Thing, p: Pocket): Carrier {
    c.(things := [item.(place := p.place, around := p.around)] + c.things)
  }

  function Grown(c: Carrier, k: nat, n: nat): Carrier
    requires k < |c.things|
  {
    c.(things := c.things[k := c.things[k].(count := c.things[k].count + n)])
  }

  // What comes of adding an item: it is refused, or the carrier has it but for `lost` pieces
  // that are nowhere any more.
  datatype Outcome = Refused | Added(carrier: Carrier, lost: nat)

  function Add(c: Carrier, rules: Rules, trade: Option<nat>, item: Thing): Outcome
    decreases item.count, 1
  {
    var spot := Find(c, rules, trade, item, true, 0);
    if !Takes(c, rules, item, spot) then Refused
    else if spot.onto == None then Added(Put(c, item, spot.pocket), 0)
    else
      SpotIsReal(c, rules, trade, item, true, 0);
      Completed(c, rules, trade, item, spot.onto.value, Min(item.count, Fits(c, rules, item, 0)))
  }

  // Of the m pieces that are to be added, so many complete the k-th stack; the others are
  // added anew, and what is refused then is lost.
  function Completed(c: Carrier, rules: Rules, trade: Option<nat>, item: Thing, k: nat, m: nat): Outcome
    requires k < |c.things| && m <= item.count && (m > 0 ==> Remainder(c.things[k]) > 0)
    decreases item.count, 0
  {
    var n := Min(Remainder(c.things[k]), m);
    var v := Grown(c, k, n);
    if m == n then Added(v, item.count - m)
    else
      match Add(v, rules, trade, item.(count := m - n))
      case Refused => Added(v, item.count - n)
      case Added(u, lost) => Added(u, lost + (item.count - m))
  }

  lemma SpotIsReal(c: Carrier, rules: Rules, trade: Option<nat>, item: Thing, autoStack: bool, i: nat)
    requires i <= |c.pockets|
    ensures var spot := Find(c, rules, trade, item, autoStack, i);
      spot.At? ==>
        spot.pocket in c.pockets[i..] &&
        (spot.onto.Some? ==>
           autoStack && spot.onto.value < |c.things| && Completes(c.things[spot.onto.value], spot.pocket.place, item))
  {
    var k := FindsFirst(c, rules, trade, item, autoStack, i);
    if k < |c.pockets| {
      assert c.pockets[k] == c.pockets[i..][k - i];
    }
  }

  // How many pieces there are of the kinds asked for
  function Amount(s: seq<Thing>, which: Kind -> bool): nat {
    if s == [] then 0 else PiecesOf(s[0], which) + Amount(s[1..], which)
  }

  function PiecesOf(t: Thing, which: Kind -> bool): nat { if which(t.kind) then t.count else 0 }

  lemma {:induction false} AmountOfParts(s: seq<Thing>, k: nat, which: Kind -> bool)
    requires k < |s|
    ensures Amount(s, which) == Amount(s[..k], which) + PiecesOf(s[k], which) + Amount(s[k + 1..], which)
  {
    if k > 0 {
      AmountOfParts(s[1..], k - 1, which);
      assert s[..k][1..] == s[1..][..k - 1] && s[k + 1..] == s[1..][k..];
    }
  }

  lemma GrownAmount(c: Carrier, k: nat, n: nat, which: Kind -> bool)
    requires k < |c.things|
    ensures Amount(Grown(c, k, n).things, which) ==
      Amount(c.things, which) + if which(c.things[k].kind) then n else 0
  {
    var v := Grown(c, k, n);
    AmountOfParts(c.things, k, which);
    AmountOfParts(v.things, k, which);
    assert v.things[..k] == c.things[..k] && v.things[k + 1..] == c.things[k + 1..];
  }

  lemma PutAmount(c: Carrier, item: Thing, p: Pocket, which: Kind -> bool)
    ensures Amount(Put(c, item, p).things, which) == Amount(c.things, which) + PiecesOf(item, which)
  {
    assert Put(c, item, p).things[1..] == c.things;
  }

  // An addition as a list of what it does, however it came to do that
  datatype Doing = Refuse | InFront(pocket: Pocket) | Onto(k: nat, m: nat, n: nat, rest: Doing)

  predicate CanDo(c: Carrier, item: Thing, doing: Doing)
    decreases doing
  {
    doing.Onto? ==>
      doing.k < |c.things| && c.things[doing.k].kind == item.kind && doing.n <= doing.m <= item.count &&
      (doing.n < doing.m ==> CanDo(Grown(c, doing.k, doing.n), item.(count := doing.m - doing.n), doing.rest))
  }

  function Done(c: Carrier, item: Thing, doing: Doing): Outcome
    requires CanDo(c, item, doing)
    decreases doing
  {
    match doing
    case Refuse => Refused
    case InFront(p) => Added(Put(c, item, p), 0)
    case Onto(k, m, n, rest) =>
      var v := Grown(c, k, n);
      if m == n then Added(v, item.count - m)
      else
        match Done(v, item.(count := m - n), rest)
        case Refused => Added(v, item.count - n)
        case Added(u, lost) => Added(u, lost + (item.count - m))
  }

  lemma {:induction false} AddDoes(c: Carrier, rules: Rules, trade: Option<nat>, item: Thing) returns (doing: Doing)
    ensures CanDo(c, item, doing) && Add(c, rules, trade, item) == Done(c, item, doing)
    decreases item.count, 1
  {
    var spot := Find(c, rules, trade, item, true, 0);
    if !Takes(c, rules, item, spot) {
      doing := Refuse;
    } else if spot.onto == None {
      doing := InFront(spot.pocket);
    } else {
      SpotIsReal(c, rules, trade, item, true, 0);
      doing := CompletedDoes(c, rules, trade, item, spot.onto.value, Min(item.count, Fits(c, rules, item, 0)));
    }
  }

  lemma {:induction false} CompletedDoes(c: Carrier, rules: Rules, trade: Option<nat>, item: Thing, k: nat, m: nat)
    returns (doing: Doing)
    requires k < |c.things| && m <= item.count && (m > 0 ==> Remainder(c.things[k]) > 0)
    requires c.things[k].kind == item.kind
    ensures CanDo(c, item, doing) && Completed(c, rules, trade, item, k, m) == Done(c, item, doing)
    decreases item.count, 0
  {
    var n := Min(Remainder(c.things[k]), m);
    var rest := Refuse;
    if m != n {
      rest := AddDoes(Grown(c, k, n), rules, trade, item.(count := m - n));
    }
    doing := Onto(k, m, n, rest);
  }

  lemma {:induction false} DoneCounts(c: Carrier, item: Thing, doing: Doing, which: Kind -> bool)
    requires CanDo(c, item, doing)
    ensures var r := Done(c, item, doing);
      r.Added? ==>
        r.lost <= item.count && r.carrier.pockets == c.pockets && r.carrier.maxLoad == c.maxLoad &&
        Amount(r.carrier.things, which) == Amount(c.things, which) + if which(item.kind) then item.count - r.lost else 0
    decreases doing
  {
    match doing
    case Refuse =>
    case InFront(p) => PutAmount(c, item, p, which);
    case Onto(k, m, n, rest) =>
      GrownAmount(c, k, n, which);
      if m != n {
        DoneCounts(Grown(c, k, n), item.(count := m - n), rest, which);
      }
  }

  // What is not refused is carried afterwards, but for what is lost.
  lemma AddCounts(c: Carrier, rules: Rules, trade: Option<nat>, item: Thing, which: Kind -> bool)
    ensures var r := Add(c, rules, trade, item);
      r.Added? ==>
        r.lost <= item.count && r.carrier.pockets == c.pockets && r.carrier.maxLoad == c.maxLoad &&
        Amount(r.carrier.things, which) == Amount(c.things, which) + if which(item.kind) then item.count - r.lost else 0
  {
    var doing := AddDoes(c, rules, trade, item);
    DoneCounts(c, item, doing, which);
  }

  // ---------- What a search can come across ----------

  // In the order of the search: an unfinished equal stack, with what it can still take, or a
  // free place. `open` says whether the place admits the kind, weight aside.
  datatype Entry = Gap(size: nat, slot: bool, open: bool) | Free(slot: bool)

  // The search does not look at what the player offers in a trade; the count of the room does.
  predicate PassedOver(p: Pocket, t: Thing, trade: Option<nat>) { OnOffer(p, trade) || Some(t.id) == trade }

  // The unfinished equal stacks in a pocket, from the k-th item on: those that the search
  // passes over, or the others
  function StacksAt(c: Carrier, rules: Rules, trade: Option<nat>, item: Thing, p: Pocket, passed: bool,
                    k: nat): seq<Entry>
    requires k <= |c.things|
    decreases |c.things| - k
  {
    if k == |c.things| then []
    else StackEntry(c, rules, trade, item, p, passed, c.things[k]) + StacksAt(c, rules, trade, item, p, passed, k + 1)
  }

  function StackEntry(c: Carrier, rules: Rules, trade: Option<nat>, item: Thing, p: Pocket, passed: bool,
                      t: Thing): seq<Entry> {
    if Completes(t, p.place, item) && PassedOver(p, t, trade) == passed then
      [Gap(Remainder(t), p.place.Slot?, rules(c.things, p.place, item))]
    else []
  }

  function EntriesAt(c: Carrier, rules: Rules, trade: Option<nat>, item: Thing, p: Pocket): seq<Entry> {
    var open := rules(c.things, p.place, item);
    if p.place.Slot? then
      if !open then []
      else if Size(c.things, p.place) > 0 then StacksAt(c, rules, trade, item, p, false, 0)
      else [Free(true)]
    else
      StacksAt(c, rules, trade, item, p, false, 0) +
      if !OnOffer(p, trade) && open && Size(Unoffered(c.things, trade), p.place) < p.capacity then [Free(false)] else []
  }

  function Entries(c: Carrier, rules: Rules, trade: Option<nat>, item: Thing, i: nat): seq<Entry>
    requires i <= |c.pockets|
    decreases |c.pockets| - i
  {
    if i == |c.pockets| then []
    else EntriesAt(c, rules, trade, item, c.pockets[i]) + Entries(c, rules, trade, item, i + 1)
  }

  // What is counted as room though the search does not come across it: stacks it passes over,
  function Passed(c: Carrier, rules: Rules, trade: Option<nat>, item: Thing, i: nat): seq<Entry>
    requires i <= |c.pockets|
    decreases |c.pockets| - i
  {
    if i == |c.pockets| then []
    else StacksAt(c, rules, trade, item, c.pockets[i], true, 0) + Passed(c, rules, trade, item, i + 1)
  }

  // and free places, whether they admit the kind or, in a container, not
  function Spare(c: Carrier, rules: Rules, item: Thing, i: nat): nat
    requires i <= |c.pockets|
    decreases |c.pockets| - i
  {
    if i == |c.pockets| then 0
    else
      var p := c.pockets[i];
      var n := Size(c.things, p.place);
      (if p.place.Slot? then (if n == 0 && rules(c.things, p.place, item) then 100 else 0)
       else if n < p.capacity then 100 * (p.capacity - n)
       else 0) + Spare(c, rules, item, i + 1)
  }

  // What stacks can take, each counted only if as much as would fill it can be borne
  function Counted(es: seq<Entry>, weight: nat, room: int): nat {
    if es == [] then 0
    else
      (if es[0].Gap? && es[0].open && weight * es[0].size <= room then es[0].size else 0) +
      Counted(es[1..], weight, room)
  }

  lemma {:induction false} CountedOfConcat(a: seq<Entry>, b: seq<Entry>, weight: nat, room: int)
    ensures Counted(a + b, weight, room) == Counted(a, weight, room) + Counted(b, weight, room)
  {
    if a == [] {
      assert a + b == b;
    } else {
      assert (a + b)[1..] == a[1..] + b;
      CountedOfConcat(a[1..], b, weight, room);
    }
  }

  // ---------- What is assumed of rules and items ----------

  // The same items in the same places, whatever their counts
  predicate SameShape(s: seq<Thing>, t: seq<Thing>) {
    |s| == |t| && forall j | 0 <= j < |s| :: s[j] == t[j].(count := s[j].count)
  }

  // The rules say the same of the same items, whatever their counts.
  predicate SaysAlike(rules: Rules, s: seq<Thing>, t: seq<Thing>, place: Place, a: Thing, b: Thing) {
    SameShape(s, t) && a == b.(count := a.count) ==> rules(s, place, a) == rules(t, place, b)
  }

  // Rules do not look at counts.
  ghost predicate IgnoreCounts(rules: Rules) {
    forall s, t, place, a, b :: SaysAlike(rules, s, t, place, a, b)
  }

  predicate DistinctPlaces(pockets: seq<Pocket>) {
    forall i, j | 0 <= i < j < |pockets| :: pockets[i].place != pockets[j].place
  }

  // Items of one kind weigh the same.
  predicate Alike(s: seq<Thing>, item: Thing) {
    forall t | t in s && t.kind == item.kind :: t.weight == item.weight
  }

  ghost predicate Regular(c: Carrier, rules: Rules, item: Thing) {
    item.kind.stackable && IgnoreCounts(rules) && DistinctPlaces(c.pockets) && Alike(c.things, item)
  }

  // ---------- The room, counted by entries ----------

  lemma RemainderCounted(c: Carrier, rules: Rules, trade: Option<nat>, item: Thing, p: Pocket, t: Thing)
    requires item.kind.stackable
    ensures
      (if Completes(t, p.place, item) && Admits(c, rules, p.place, item, Remainder(t)) then Remainder(t) else 0) ==
      Counted(StackEntry(c, rules, trade, item, p, false, t), item.weight, FreeLoad(c)) +
      Counted(StackEntry(c, rules, trade, item, p, true, t), item.weight, FreeLoad(c))
  {
    CountedFront(Gap(Remainder(t), p.place.Slot?, rules(c.things, p.place, item)), [], item.weight, FreeLoad(c));
  }

  lemma {:induction false} RemaindersCounted(c: Carrier, rules: Rules, trade: Option<nat>, item: Thing, p: Pocket,
                                             k: nat)
    requires k <= |c.things| && item.kind.stackable
    ensures Remainders(c, rules, p.place, item, k) ==
      Counted(StacksAt(c, rules, trade, item, p, false, k), item.weight, FreeLoad(c)) +
      Counted(StacksAt(c, rules, trade, item, p, true, k), item.weight, FreeLoad(c))
    decreases |c.things| - k
  {
    if k < |c.things| {
      RemaindersCounted(c, rules, trade, item, p, k + 1);
      RemainderCounted(c, rules, trade, item, p, c.things[k]);
      StacksStep(c, rules, trade, item, p, false, k);
      StacksStep(c, rules, trade, item, p, true, k);
    }
  }

  lemma StacksStep(c: Carrier, rules: Rules, trade: Option<nat>, item: Thing, p: Pocket, passed: bool, k: nat)
    requires k < |c.things|
    ensures Counted(StacksAt(c, rules, trade, item, p, passed, k), item.weight, FreeLoad(c)) ==
      Counted(StackEntry(c, rules, trade, item, p, passed, c.things[k]), item.weight, FreeLoad(c)) +
      Counted(StacksAt(c, rules, trade, item, p, passed, k + 1), item.weight, FreeLoad(c))
  {
    CountedOfConcat(StackEntry(c, rules, trade, item, p, passed, c.things[k]),
      StacksAt(c, rules, trade, item, p, passed, k + 1), item.weight, FreeLoad(c));
  }

  lemma CountedFront(e: Entry, es: seq<Entry>, weight: nat, room: int)
    ensures Counted([e] + es, weight, room) ==
      (if e.Gap? && e.open && weight * e.size <= room then e.size else 0) + Counted(es, weight, room)
  {
    assert ([e] + es)[1..] == es;
  }

  // Stacks in a place that is closed count for nothing.
  lemma {:induction false} ClosedCountNothing(c: Carrier, rules: Rules, trade: Option<nat>, item: Thing, p: Pocket,
                                              passed: bool, k: nat)
    requires k <= |c.things| && !rules(c.things, p.place, item)
    ensures Counted(StacksAt(c, rules, trade, item, p, passed, k), item.weight, FreeLoad(c)) == 0
    decreases |c.things| - k
  {
    if k < |c.things| {
      ClosedCountNothing(c, rules, trade, item, p, passed, k + 1);
      StacksStep(c, rules, trade, item, p, passed, k);
      CountedFront(Gap(Remainder(c.things[k]), p.place.Slot?, false), [], item.weight, FreeLoad(c));
    }
  }

  lemma {:induction false} NoStacks(c: Carrier, rules: Rules, trade: Option<nat>, item: Thing, p: Pocket,
                                    passed: bool, k: nat)
    requires k <= |c.things| && Size(c.things[k..], p.place) == 0
    ensures StacksAt(c, rules, trade, item, p, passed, k) == []
    decreases |c.things| - k
  {
    if k < |c.things| {
      assert c.things[k..][1..] == c.things[k + 1..];
      NoStacks(c, rules, trade, item, p, passed, k + 1);
    }
  }

  lemma FitsInCounted(c: Carrier, rules: Rules, trade: Option<nat>, item: Thing, p: Pocket)
    requires item.kind.stackable && Bears(c, item, item.count)
    ensures FitsIn(c, rules, item, p) ==
      Counted(EntriesAt(c, rules, trade, item, p), item.weight, FreeLoad(c)) +
      Counted(StacksAt(c, rules, trade, item, p, true, 0), item.weight, FreeLoad(c)) +
      if p.place.Inside? then 100 * FreeSlots(c, p)
      else if Size(c.things, p.place) == 0 && rules(c.things, p.place, item) then STACK
      else 0
  {
    RemaindersCounted(c, rules, trade, item, p, 0);
    if p.place.Slot? {
      assert c.things[0..] == c.things;
      if !rules(c.things, p.place, item) {
        ClosedCountNothing(c, rules, trade, item, p, false, 0);
        ClosedCountNothing(c, rules, trade, item, p, true, 0);
      } else if Size(c.things, p.place) == 0 {
        NoStacks(c, rules, trade, item, p, true, 0);
      }
    } else {
      CountedOfConcat(StacksAt(c, rules, trade, item, p, false, 0), [Free(false)], item.weight, FreeLoad(c));
      CountedOfConcat(StacksAt(c, rules, trade, item, p, false, 0), [], item.weight, FreeLoad(c));
    }
  }

  // queryMaxCount counts the entries, the stacks passed over, and the free places.
  lemma {:induction false} FitsCounted(c: Carrier, rules: Rules, trade: Option<nat>, item: Thing, i: nat)
    requires i <= |c.pockets| && item.kind.stackable && Bears(c, item, item.count)
    ensures Fits(c, rules, item, i) ==
      Counted(Entries(c, rules, trade, item, i), item.weight, FreeLoad(c)) +
      Counted(Passed(c, rules, trade, item, i), item.weight, FreeLoad(c)) + Spare(c, rules, item, i)
    decreases |c.pockets| - i
  {
    if i < |c.pockets| {
      var p := c.pockets[i];
      FitsInCounted(c, rules, trade, item, p);
      FitsCounted(c, rules, trade, item, i + 1);
      CountedOfConcat(EntriesAt(c, rules, trade, item, p), Entries(c, rules, trade, item, i + 1), item.weight,
        FreeLoad(c));
      CountedOfConcat(StacksAt(c, rules, trade, item, p, true, 0), Passed(c, rules, trade, item, i + 1), item.weight,
        FreeLoad(c));
    }
  }

  // ---------- The search finds the first entry ----------

  lemma {:induction false} FirstStackIs(c: Carrier, rules: Rules, trade: Option<nat>, item: Thing, p: Pocket, k: nat)
    requires k <= |c.things| && !OnOffer(p, trade)
    ensures var onto := FirstEqual(c.things, p.place, item, trade, k);
      var es := StacksAt(c, rules, trade, item, p, false, k);
      if onto == None then es == []
      else
        es == [Gap(Remainder(c.things[onto.value]), p.place.Slot?, rules(c.things, p.place, item))] +
          StacksAt(c, rules, trade, item, p, false, onto.value + 1)
    decreases |c.things| - k
  {
    if k < |c.things| {
      FirstStackIs(c, rules, trade, item, p, k + 1);
    }
  }

  lemma {:induction false} OnOfferHasNoStacks(c: Carrier, rules: Rules, trade: Option<nat>, item: Thing, p: Pocket,
                                              k: nat)
    requires k <= |c.things| && OnOffer(p, trade)
    ensures StacksAt(c, rules, trade, item, p, false, k) == []
    decreases |c.things| - k
  {
    if k < |c.things| {
      OnOfferHasNoStacks(c, rules, trade, item, p, k + 1);
    }
  }

  // The spot is what the entry says.
  predicate Matches(c: Carrier, rules: Rules, item: Thing, spot: Spot, e: Entry) {
    spot.At? && spot.pocket.place.Slot? == e.slot &&
    if e.Free? then spot.onto == None && rules(c.things, spot.pocket.place, item)
    else
      spot.onto.Some? && spot.onto.value < |c.things| && e.size == Remainder(c.things[spot.onto.value]) &&
      e.open == rules(c.things, spot.pocket.place, item) && (e.slot ==> e.open)
  }

  lemma SpotAtIsEntry(c: Carrier, rules: Rules, trade: Option<nat>, item: Thing, p: Pocket)
    requires item.kind.stackable && Bears(c, item, item.count)
    ensures var es, spot := EntriesAt(c, rules, trade, item, p), StackSpot(c, rules, trade, item, p);
      if es == [] then spot == Nowhere else Matches(c, rules, item, spot, es[0]) && spot.pocket == p
  {
    if OnOffer(p, trade) {
      OnOfferHasNoStacks(c, rules, trade, item, p, 0);
    } else {
      FirstStackIs(c, rules, trade, item, p, 0);
    }
  }

  lemma {:induction false} SpotIsEntry(c: Carrier, rules: Rules, trade: Option<nat>, item: Thing, i: nat)
    requires i <= |c.pockets| && item.kind.stackable && Bears(c, item, item.count)
    ensures var es, spot := Entries(c, rules, trade, item, i), Find(c, rules, trade, item, true, i);
      if es == [] then spot == Nowhere else Matches(c, rules, item, spot, es[0])
    decreases |c.pockets| - i
  {
    if i < |c.pockets| {
      SpotAtIsEntry(c, rules, trade, item, c.pockets[i]);
      SpotIsEntry(c, rules, trade, item, i + 1);
    }
  }

  // What is too heavy is refused.
  lemma TooHeavy(c: Carrier, rules: Rules, trade: Option<nat>, item: Thing)
    requires item.kind.stackable && !Bears(c, item, item.count)
    ensures Add(c, rules, trade, item) == Refused
  {
    var k := FindsFirst(c, rules, trade, item, true, 0);
  }

  // ---------- Completing a stack takes its entry away ----------

  lemma RulesSame(c: Carrier, rules: Rules, item: Thing, rest: Thing, j: nat, n: nat, place: Place)
    requires j < |c.things| && IgnoreCounts(rules) && rest == item.(count := rest.count)
    ensures rules(Grown(c, j, n).things, place, rest) == rules(c.things, place, item)
  {
    assert SaysAlike(rules, Grown(c, j, n).things, c.things, place, rest, item);
  }

  // What has been filled up, and all that is asked of it
  predicate Fills(c: Carrier, item: Thing, rest: Thing, j: nat) {
    j < |c.things| && Completes(c.things[j], c.things[j].place, item) && rest == item.(count := rest.count)
  }

  function Filled(c: Carrier, j: nat): Carrier
    requires j < |c.things|
  {
    Grown(c, j, Remainder(c.things[j]))
  }

  // Other stacks keep their entries.
  lemma {:induction false} OtherStacksStay(c: Carrier, rules: Rules, trade: Option<nat>, item: Thing, rest: Thing,
                                           p: Pocket,
                                           passed: bool, j: nat, k: nat)
    requires Fills(c, item, rest, j) && IgnoreCounts(rules) && k <= |c.things|
    requires k > j || p.place != c.things[j].place || PassedOver(p, c.things[j], trade) != passed
    ensures StacksAt(Filled(c, j), rules, trade, rest, p, passed, k) == StacksAt(c, rules, trade, item, p, passed, k)
    decreases |c.things| - k
  {
    if k < |c.things| {
      OtherStacksStay(c, rules, trade, item, rest, p, passed, j, k + 1);
      RulesSame(c, rules, item, rest, j, Remainder(c.things[j]), p.place);
    }
  }

  // Nothing is found before the j-th item.
  lemma {:induction false} SkipTo(c: Carrier, rules: Rules, trade: Option<nat>, item: Thing, p: Pocket, k: nat, j: nat)
    requires k <= j <= |c.things|
    requires forall i | k <= i < j :: !(Completes(c.things[i], p.place, item) && !PassedOver(p, c.things[i], trade))
    ensures StacksAt(c, rules, trade, item, p, false, k) == StacksAt(c, rules, trade, item, p, false, j)
    decreases j - k
  {
    if k < j {
      SkipTo(c, rules, trade, item, p, k + 1, j);
    }
  }

  // The stack that is found first loses its entry, which was the first of its pocket.
  lemma FirstStackGoes(c: Carrier, rules: Rules, trade: Option<nat>, item: Thing, rest: Thing, p: Pocket, j: nat)
    requires Fills(c, item, rest, j) && IgnoreCounts(rules) && !OnOffer(p, trade)
    requires FirstEqual(c.things, p.place, item, trade, 0) == Some(j)
    ensures var es := StacksAt(c, rules, trade, item, p, false, 0);
      es != [] && StacksAt(Filled(c, j), rules, trade, rest, p, false, 0) == es[1..]
  {
    FirstStackIs(c, rules, trade, item, p, 0);
    var v := Filled(c, j);
    SkipTo(v, rules, trade, rest, p, 0, j + 1);
    OtherStacksStay(c, rules, trade, item, rest, p, false, j, j + 1);
  }

  lemma {:induction false} SameSize(s: seq<Thing>, t: seq<Thing>, trade: Option<nat>, place: Place)
    requires SameShape(s, t)
    ensures Size(s, place) == Size(t, place) && Size(Unoffered(s, trade), place) == Size(Unoffered(t, trade), place)
  {
    if s != [] {
      SameSize(s[1..], t[1..], trade, place);
      UnofferedFront(s, trade, place);
      UnofferedFront(t, trade, place);
    }
  }

  lemma UnofferedFront(s: seq<Thing>, trade: Option<nat>, place: Place)
    requires s != []
    ensures Size(Unoffered(s, trade), place) ==
      (if Some(s[0].id) != trade && s[0].place == place then 1 else 0) + Size(Unoffered(s[1..], trade), place)
  {
    var rest := Unoffered(s[1..], trade);
    assert [s[0]] + rest != [] && ([s[0]] + rest)[1..] == rest && [] + rest == rest;
  }

  lemma {:induction false} HasSize(s: seq<Thing>, j: nat)
    requires j < |s|
    ensures Size(s, s[j].place) > 0
  {
    if j > 0 {
      HasSize(s[1..], j - 1);
    }
  }

  lemma OtherPocketStays(c: Carrier, rules: Rules, trade: Option<nat>, item: Thing, rest: Thing, p: Pocket, j: nat)
    requires Fills(c, item, rest, j) && IgnoreCounts(rules) && p.place != c.things[j].place
    ensures EntriesAt(Filled(c, j), rules, trade, rest, p) == EntriesAt(c, rules, trade, item, p)
  {
    OtherStacksStay(c, rules, trade, item, rest, p, false, j, 0);
    RulesSame(c, rules, item, rest, j, Remainder(c.things[j]), p.place);
    SameSize(Filled(c, j).things, c.things, trade, p.place);
  }

  // What is known of a pocket whose stack is completed
  lemma OntoIs(c: Carrier, rules: Rules, trade: Option<nat>, item: Thing, p: Pocket, j: nat)
    requires StackSpot(c, rules, trade, item, p) == At(p, Some(j))
    ensures FirstEqual(c.things, p.place, item, trade, 0) == Some(j)
    ensures j < |c.things| && p.place == c.things[j].place && !PassedOver(p, c.things[j], trade)
    ensures p.place.Slot? ==> rules(c.things, p.place, item) && Size(c.things, p.place) > 0
  {
  }

  lemma FirstEntryGoes(c: Carrier, rules: Rules, trade: Option<nat>, item: Thing, rest: Thing, p: Pocket, j: nat)
    requires Fills(c, item, rest, j) && IgnoreCounts(rules) && StackSpot(c, rules, trade, item, p) == At(p, Some(j))
    ensures var es := EntriesAt(c, rules, trade, item, p);
      es != [] && EntriesAt(Filled(c, j), rules, trade, rest, p) == es[1..]
  {
    OntoIs(c, rules, trade, item, p, j);
    FirstStackGoes(c, rules, trade, item, rest, p, j);
    RulesSame(c, rules, item, rest, j, Remainder(c.things[j]), p.place);
    SameSize(Filled(c, j).things, c.things, trade, p.place);
  }

  lemma {:induction false} LaterPocketsStay(c: Carrier, rules: Rules, trade: Option<nat>, item: Thing, rest: Thing,
                                            j: nat, i: nat)
    requires Fills(c, item, rest, j) && IgnoreCounts(rules) && i <= |c.pockets|
    requires forall q | i <= q < |c.pockets| :: c.pockets[q].place != c.things[j].place
    ensures Entries(Filled(c, j), rules, trade, rest, i) == Entries(c, rules, trade, item, i)
    decreases |c.pockets| - i
  {
    if i < |c.pockets| {
      OtherPocketStays(c, rules, trade, item, rest, c.pockets[i], j);
      LaterPocketsStay(c, rules, trade, item, rest, j, i + 1);
    }
  }

  predicate IsSeen(p: Pocket, t: Thing, trade: Option<nat>) { p.place == t.place && !PassedOver(p, t, trade) }

  lemma {:induction false} EntryGoes(c: Carrier, rules: Rules, trade: Option<nat>, item: Thing, rest: Thing, j: nat,
                                     i: nat)
    requires Fills(c, item, rest, j) && IgnoreCounts(rules) && DistinctPlaces(c.pockets) && i <= |c.pockets|
    requires item.kind.stackable && Bears(c, item, item.count)
    requires var spot := Find(c, rules, trade, item, true, i); spot.At? && spot.onto == Some(j)
    ensures var es := Entries(c, rules, trade, item, i);
      es != [] && Entries(Filled(c, j), rules, trade, rest, i) == es[1..]
    ensures exists q :: i <= q < |c.pockets| && IsSeen(c.pockets[q], c.things[j], trade)
    decreases |c.pockets| - i
  {
    if StackSpot(c, rules, trade, item, c.pockets[i]) != Nowhere {
      EntryGoesHere(c, rules, trade, item, rest, j, i);
    } else {
      EntryGoes(c, rules, trade, item, rest, j, i + 1);
      var q :| i + 1 <= q < |c.pockets| && IsSeen(c.pockets[q], c.things[j], trade);
      NoEntryHere(c, rules, trade, item, rest, j, c.pockets[i]);
    }
  }

  lemma RestOfConcat(a: seq<Entry>, b: seq<Entry>)
    requires a != []
    ensures (a + b)[1..] == a[1..] + b
  {
  }

  lemma EntryGoesHere(c: Carrier, rules: Rules, trade: Option<nat>, item: Thing, rest: Thing, j: nat, i: nat)
    requires Fills(c, item, rest, j) && IgnoreCounts(rules) && DistinctPlaces(c.pockets) && i < |c.pockets|
    requires StackSpot(c, rules, trade, item, c.pockets[i]) == At(c.pockets[i], Some(j))
    ensures var es := Entries(c, rules, trade, item, i);
      es != [] && Entries(Filled(c, j), rules, trade, rest, i) == es[1..]
    ensures IsSeen(c.pockets[i], c.things[j], trade)
  {
    OntoIs(c, rules, trade, item, c.pockets[i], j);
    FirstEntryGoes(c, rules, trade, item, rest, c.pockets[i], j);
    LaterPocketsStay(c, rules, trade, item, rest, j, i + 1);
    RestOfConcat(EntriesAt(c, rules, trade, item, c.pockets[i]), Entries(c, rules, trade, item, i + 1));
  }

  lemma NoEntryHere(c: Carrier, rules: Rules, trade: Option<nat>, item: Thing, rest: Thing, j: nat, p: Pocket)
    requires Fills(c, item, rest, j) && IgnoreCounts(rules) && p.place != c.things[j].place
    requires item.kind.stackable && Bears(c, item, item.count) && StackSpot(c, rules, trade, item, p) == Nowhere
    ensures EntriesAt(c, rules, trade, item, p) == [] == EntriesAt(Filled(c, j), rules, trade, rest, p)
  {
    SpotAtIsEntry(c, rules, trade, item, p);
    OtherPocketStays(c, rules, trade, item, rest, p, j);
  }

  // The stacks passed over, and the free places, stay.
  lemma {:induction false} PassedStay(c: Carrier, rules: Rules, trade: Option<nat>, item: Thing, rest: Thing, j: nat,
                                      i: nat)
    requires Fills(c, item, rest, j) && IgnoreCounts(rules) && i <= |c.pockets|
    requires forall q | i <= q < |c.pockets| && c.pockets[q].place == c.things[j].place ::
      !PassedOver(c.pockets[q], c.things[j], trade)
    ensures Passed(Filled(c, j), rules, trade, rest, i) == Passed(c, rules, trade, item, i)
    decreases |c.pockets| - i
  {
    if i < |c.pockets| {
      OtherStacksStay(c, rules, trade, item, rest, c.pockets[i], true, j, 0);
      PassedStay(c, rules, trade, item, rest, j, i + 1);
    }
  }

  lemma {:induction false} SpareStays(c: Carrier, rules: Rules, item: Thing, rest: Thing, j: nat, i: nat)
    requires Fills(c, item, rest, j) && IgnoreCounts(rules) && i <= |c.pockets|
    ensures Spare(Filled(c, j), rules, rest, i) == Spare(c, rules, item, i)
    decreases |c.pockets| - i
  {
    if i < |c.pockets| {
      var p := c.pockets[i];
      SameSize(Filled(c, j).things, c.things, None, p.place);
      RulesSame(c, rules, item, rest, j, Remainder(c.things[j]), p.place);
      SpareStays(c, rules, item, rest, j, i + 1);
    }
  }

  // ---------- Weight ----------

  lemma {:induction false} LoadOfParts(s: seq<Thing>, k: nat)
    requires k < |s|
    ensures Load(s) == Load(s[..k]) + Heft(s[k], s[k].count) + Load(s[k + 1..])
  {
    if k > 0 {
      LoadOfParts(s[1..], k - 1);
      assert s[..k][1..] == s[1..][..k - 1] && s[k + 1..] == s[1..][k..];
    }
  }

  lemma Distributes(w: nat, a: nat, b: nat)
    ensures w * (a + b) == w * a + w * b
  {
  }

  lemma PartsWeigh(w: nat, a: nat, b: nat, all: nat)
    requires a + b <= all
    ensures w * a + w * b <= w * all
  {
    Distributes(w, a, b);
    Distributes(w, a + b, all - (a + b));
  }

  lemma HeftGrows(t: Thing, n: nat)
    requires t.kind.stackable
    ensures Heft(t, t.count + n) == Heft(t, t.count) + t.weight * n
  {
    Distributes(t.weight, t.count, n);
  }

  lemma GrownLoad(c: Carrier, k: nat, n: nat)
    requires k < |c.things| && c.things[k].kind.stackable
    ensures Load(Grown(c, k, n).things) == Load(c.things) + c.things[k].weight * n
  {
    var s, t := c.things, Grown(c, k, n).things;
    LoadOfParts(s, k);
    LoadOfParts(t, k);
    HeftGrows(s[k], n);
    assert t[..k] == s[..k] && t[k + 1..] == s[k + 1..];
    assert t[k].weight == s[k].weight && t[k].kind == s[k].kind && t[k].count == s[k].count + n;
    assert Heft(t[k], t[k].count) == Heft(s[k], s[k].count + n);
  }

  lemma GrownAlike(c: Carrier, item: Thing, k: nat, n: nat)
    requires Alike(c.things, item) && k < |c.things|
    ensures Alike(Grown(c, k, n).things, item)
  {
    forall t | t in Grown(c, k, n).things && t.kind == item.kind
      ensures t.weight == item.weight
    {
      assert t in c.things || (c.things[k] in c.things && t == Grown(c, k, n).things[k]);
    }
  }

  // n pieces on, what is left can still be borne.
  lemma StillBears(c: Carrier, item: Thing, k: nat, n: nat, rest: Thing)
    requires item.kind.stackable && Bears(c, item, item.count) && n + rest.count <= item.count
    requires rest == item.(count := rest.count)
    requires k < |c.things| && c.things[k].kind == item.kind && c.things[k].weight == item.weight
    ensures FreeLoad(Grown(c, k, n)) == FreeLoad(c) - item.weight * n
    ensures Bears(Grown(c, k, n), rest, rest.count)
  {
    GrownLoad(c, k, n);
    PartsWeigh(item.weight, n, rest.count, item.count);
    assert Heft(rest, rest.count) == item.weight * rest.count;
  }

  // ---------- When pieces are lost ----------

  // All that queryMaxCount counts
  function RoomFor(es: seq<Entry>, passed: seq<Entry>, spare: nat, weight: nat, room: int): nat {
    Counted(es, weight, room) + Counted(passed, weight, room) + spare
  }

  // How many pieces are lost, by entries alone; None if the item is refused
  function LossOf(es: seq<Entry>, passed: seq<Entry>, spare: nat, weight: nat, count: nat, room: int): (r: Option<nat>)
    ensures r.Some? ==> r.value <= count
  {
    if es == [] then None
    else
      var all := RoomFor(es, passed, spare, weight, room);
      match es[0]
      case Free(slot) => if slot || all >= count then Some(0) else None
      case Gap(size, slot, open) =>
        if !open || (!slot && all < count) then None
        else
          var m := Min(count, all);
          var n := Min(size, m);
          if m == n then Some(count - m)
          else
            var loss := LossOf(es[1..], passed, spare, weight, m - n, room - weight * n);
            if loss == None then Some(count - n) else Some(loss.value + (count - m))
  }

  // What is on the way in: the entries, the stacks passed over, the free places
  function LossIn(c: Carrier, rules: Rules, trade: Option<nat>, item: Thing): Option<nat> {
    LossOf(Entries(c, rules, trade, item, 0), Passed(c, rules, trade, item, 0), Spare(c, rules, item, 0),
      item.weight, item.count, FreeLoad(c))
  }

  predicate ComesTo(r: Outcome, loss: Option<nat>) {
    if loss == None then r.Refused? else r.Added? && r.lost == loss.value
  }

  ghost predicate AddsAs(c: Carrier, rules: Rules, trade: Option<nat>, item: Thing, loss: Option<nat>) {
    ComesTo(Add(c, rules, trade, item), loss)
  }

  // Once a stack has been filled up, the entries but the first are left.
  lemma AfterFilling(c: Carrier, rules: Rules, trade: Option<nat>, item: Thing, rest: Thing, j: nat)
    requires Regular(c, rules, item) && Bears(c, item, item.count) && Fills(c, item, rest, j)
    requires var spot := Find(c, rules, trade, item, true, 0); spot.At? && spot.onto == Some(j)
    requires Remainder(c.things[j]) + rest.count <= item.count
    ensures var v, es := Filled(c, j), Entries(c, rules, trade, item, 0);
      es != [] && Entries(v, rules, trade, rest, 0) == es[1..] &&
      Passed(v, rules, trade, rest, 0) == Passed(c, rules, trade, item, 0) &&
      Spare(v, rules, rest, 0) == Spare(c, rules, item, 0) &&
      FreeLoad(v) == FreeLoad(c) - item.weight * Remainder(c.things[j]) &&
      Regular(v, rules, rest) && Bears(v, rest, rest.count)
  {
    assert c.things[j] in c.things;
    EntryGoes(c, rules, trade, item, rest, j, 0);
    var q :| 0 <= q < |c.pockets| && IsSeen(c.pockets[q], c.things[j], trade);
    PassedStay(c, rules, trade, item, rest, j, 0);
    SpareStays(c, rules, item, rest, j, 0);
    StillBears(c, item, j, Remainder(c.things[j]), rest);
    GrownAlike(c, item, j, Remainder(c.things[j]));
  }

  // The entry takes the item: it is open, and, in a container, all of the item fits.
  predicate EntryTakes(es: seq<Entry>, all: nat, count: nat) {
    es != [] && (es[0].Gap? ==> es[0].open) && (es[0].slot || all >= count)
  }

  lemma TakesExactly(c: Carrier, rules: Rules, trade: Option<nat>, item: Thing)
    requires item.kind.stackable && Bears(c, item, item.count)
    ensures Takes(c, rules, item, Find(c, rules, trade, item, true, 0)) <==>
      EntryTakes(Entries(c, rules, trade, item, 0), Fits(c, rules, item, 0), item.count)
  {
    SpotIsEntry(c, rules, trade, item, 0);
  }

  // Of m pieces to be added, `size` complete a stack; the rest comes to `loss`.
  function StepLoss(count: nat, m: nat, size: nat, loss: Option<nat>): Option<nat>
    requires m <= count
  {
    if m <= size then Some(count - m) else if loss == None then Some(count - size) else Some(loss.value + (count - m))
  }

  // By entries, a stack that is completed leaves the rest to the others.
  lemma LossStep(es: seq<Entry>, passed: seq<Entry>, spare: nat, weight: nat, count: nat, room: int)
    requires es != [] && es[0].Gap? && EntryTakes(es, RoomFor(es, passed, spare, weight, room), count)
    ensures var m := Min(count, RoomFor(es, passed, spare, weight, room));
      LossOf(es, passed, spare, weight, count, room) ==
      StepLoss(count, m, es[0].size,
        if m <= es[0].size then None
        else LossOf(es[1..], passed, spare, weight, m - es[0].size, room - weight * es[0].size))
  {
  }

  // So it is with the addition.
  lemma CompletedStep(c: Carrier, rules: Rules, trade: Option<nat>, item: Thing, j: nat, m: nat, loss: Option<nat>)
    requires j < |c.things| && m <= item.count && Remainder(c.things[j]) > 0
    requires Remainder(c.things[j]) < m ==>
      AddsAs(Filled(c, j), rules, trade, item.(count := m - Remainder(c.things[j])), loss)
    ensures ComesTo(Completed(c, rules, trade, item, j, m), StepLoss(item.count, m, Remainder(c.things[j]), loss))
  {
  }

  lemma RoomIs(c: Carrier, rules: Rules, trade: Option<nat>, item: Thing)
    requires item.kind.stackable && Bears(c, item, item.count)
    ensures Fits(c, rules, item, 0) ==
      RoomFor(Entries(c, rules, trade, item, 0), Passed(c, rules, trade, item, 0), Spare(c, rules, item, 0),
              item.weight, FreeLoad(c))
  {
    FitsCounted(c, rules, trade, item, 0);
  }

  // What is known when the search ends with a stack to complete
  lemma CompletesFirst(c: Carrier, rules: Rules, trade: Option<nat>, item: Thing, j: nat)
    requires item.kind.stackable && Bears(c, item, item.count)
    requires var spot := Find(c, rules, trade, item, true, 0);
      spot.At? && spot.onto == Some(j) && Takes(c, rules, item, spot)
    ensures j < |c.things| && Fills(c, item, item, j) && Remainder(c.things[j]) > 0
    ensures var es := Entries(c, rules, trade, item, 0);
      EntryTakes(es, Fits(c, rules, item, 0), item.count) && es[0].Gap? && es[0].size == Remainder(c.things[j])
    ensures Add(c, rules, trade, item) ==
      Completed(c, rules, trade, item, j, Min(item.count, Fits(c, rules, item, 0)))
  {
    SpotIsReal(c, rules, trade, item, true, 0);
    SpotIsEntry(c, rules, trade, item, 0);
    TakesExactly(c, rules, trade, item);
  }

  // What comes of the rest, if there is any
  function RestLoss(c: Carrier, rules: Rules, trade: Option<nat>, item: Thing, m: nat, size: nat): Option<nat> {
    var es := Entries(c, rules, trade, item, 0);
    if m <= size || es == [] then None
    else
      LossOf(es[1..], Passed(c, rules, trade, item, 0), Spare(c, rules, item, 0), item.weight, m - size,
        FreeLoad(c) - item.weight * size)
  }

  lemma LossFrom(c: Carrier, v: Carrier, rules: Rules, trade: Option<nat>, item: Thing, rest: Thing, m: nat, size: nat)
    requires size < m && rest.weight == item.weight && rest.count == m - size
    requires var es := Entries(c, rules, trade, item, 0);
      es != [] && Entries(v, rules, trade, rest, 0) == es[1..] &&
      Passed(v, rules, trade, rest, 0) == Passed(c, rules, trade, item, 0) &&
      Spare(v, rules, rest, 0) == Spare(c, rules, item, 0) && FreeLoad(v) == FreeLoad(c) - item.weight * size
    ensures LossIn(v, rules, trade, rest) == RestLoss(c, rules, trade, item, m, size)
  {
  }

  // The rest goes where the other entries lead.
  lemma {:induction false} RestAdds(c: Carrier, rules: Rules, trade: Option<nat>, item: Thing, j: nat, m: nat)
    requires Regular(c, rules, item) && Bears(c, item, item.count) && Fills(c, item, item, j)
    requires var spot := Find(c, rules, trade, item, true, 0); spot.At? && spot.onto == Some(j)
    requires 0 < Remainder(c.things[j]) < m <= item.count
    ensures var size := Remainder(c.things[j]);
      AddsAs(Filled(c, j), rules, trade, item.(count := m - size), RestLoss(c, rules, trade, item, m, size))
    decreases item.count, 0
  {
    var size, v := Remainder(c.things[j]), Filled(c, j);
    var rest := item.(count := m - size);
    AfterFilling(c, rules, trade, item, rest, j);
    LossFrom(c, v, rules, trade, item, rest, m, size);
    AddExactly(v, rules, trade, rest);
  }

  lemma LossInStep(c: Carrier, rules: Rules, trade: Option<nat>, item: Thing)
    requires item.kind.stackable && Bears(c, item, item.count)
    requires var es := Entries(c, rules, trade, item, 0);
      EntryTakes(es, Fits(c, rules, item, 0), item.count) && es[0].Gap?
    ensures var size, m := Entries(c, rules, trade, item, 0)[0].size, Min(item.count, Fits(c, rules, item, 0));
      LossIn(c, rules, trade, item) == StepLoss(item.count, m, size, RestLoss(c, rules, trade, item, m, size))
  {
    RoomIs(c, rules, trade, item);
    LossStep(Entries(c, rules, trade, item, 0), Passed(c, rules, trade, item, 0), Spare(c, rules, item, 0), item.weight,
      item.count, FreeLoad(c));
  }

  // The case that a stack is completed
  lemma {:induction false} AddCompletes(c: Carrier, rules: Rules, trade: Option<nat>, item: Thing, j: nat)
    requires Regular(c, rules, item) && Bears(c, item, item.count)
    requires var spot := Find(c, rules, trade, item, true, 0);
      spot.At? && spot.onto == Some(j) && Takes(c, rules, item, spot)
    ensures AddsAs(c, rules, trade, item, LossIn(c, rules, trade, item))
    decreases item.count, 1
  {
    CompletesFirst(c, rules, trade, item, j);
    var m, n := Min(item.count, Fits(c, rules, item, 0)), Remainder(c.things[j]);
    if n < m {
      RestAdds(c, rules, trade, item, j, m);
    }
    LossInStep(c, rules, trade, item);
    CompletedStep(c, rules, trade, item, j, m, RestLoss(c, rules, trade, item, m, n));
  }

  // An addition does what the entries say.
  lemma {:induction false} AddExactly(c: Carrier, rules: Rules, trade: Option<nat>, item: Thing)
    requires Regular(c, rules, item)
    ensures AddsAs(c, rules, trade, item, if Bears(c, item, item.count) then LossIn(c, rules, trade, item) else None)
    decreases item.count, 2
  {
    if !Bears(c, item, item.count) {
      TooHeavy(c, rules, trade, item);
    } else {
      SpotIsEntry(c, rules, trade, item, 0);
      TakesExactly(c, rules, trade, item);
      FitsCounted(c, rules, trade, item, 0);
      var spot := Find(c, rules, trade, item, true, 0);
      if Takes(c, rules, item, spot) && spot.onto.Some? {
        AddCompletes(c, rules, trade, item, spot.onto.value);
      }
    }
  }

  // The rest that remains on the way is lost: when the entries end, or lead to a place that
  // is closed, or less fits in all than is left, now or further on.
  predicate RestLoses(es: seq<Entry>, passed: seq<Entry>, spare: nat, weight: nat, count: nat, room: int) {
    count > 0 &&
    (es == [] ||
     match es[0]
     case Free(slot) => !slot && RoomFor(es, passed, spare, weight, room) < count
     case Gap(size, _, open) =>
       !open || RoomFor(es, passed, spare, weight, room) < count ||
       (size < count && RestLoses(es[1..], passed, spare, weight, count - size, room - weight * size)))
  }

  lemma {:induction false} RestLosesExactly(es: seq<Entry>, passed: seq<Entry>, spare: nat, weight: nat, count: nat,
                                            room: int)
    requires count > 0
    ensures var loss := LossOf(es, passed, spare, weight, count, room);
      (loss == None || loss.value > 0) <==> RestLoses(es, passed, spare, weight, count, room)
    decreases |es|
  {
    if es != [] && es[0].Gap? && es[0].size < count {
      RestLosesExactly(es[1..], passed, spare, weight, count - es[0].size, room - weight * es[0].size);
    }
  }

  lemma LossExactly(es: seq<Entry>, passed: seq<Entry>, spare: nat, weight: nat, count: nat, room: int)
    ensures var loss := LossOf(es, passed, spare, weight, count, room);
      loss.Some? && loss.value > 0 <==>
      EntryTakes(es, RoomFor(es, passed, spare, weight, room), count) && es[0].Gap? &&
      RestLoses(es, passed, spare, weight, count, room)
  {
    if count > 0 {
      RestLosesExactly(es, passed, spare, weight, count, room);
    }
  }

  // The first thing that the search comes across is a stack that may be completed: one in a
  // slot, or one in a container if all of the item fits.
  predicate StartsCompleting(c: Carrier, rules: Rules, trade: Option<nat>, item: Thing) {
    var es := Entries(c, rules, trade, item, 0);
    EntryTakes(es, Fits(c, rules, item, 0), item.count) && es[0].Gap?
  }

  predicate Loses(c: Carrier, rules: Rules, trade: Option<nat>, item: Thing) {
    Bears(c, item, item.count) && StartsCompleting(c, rules, trade, item) &&
    RestLoses(Entries(c, rules, trade, item, 0), Passed(c, rules, trade, item, 0), Spare(c, rules, item, 0),
      item.weight, item.count, FreeLoad(c))
  }

  // Pieces are lost exactly when the item can be borne, a stack is completed first, and then,
  // with ever less room and strength, the rest does not get in.
  lemma LostExactly(c: Carrier, rules: Rules, trade: Option<nat>, item: Thing)
    requires Regular(c, rules, item)
    ensures var r := Add(c, rules, trade, item); r.Added? && r.lost > 0 <==> Loses(c, rules, trade, item)
  {
    AddExactly(c, rules, trade, item);
    if Bears(c, item, item.count) {
      RoomIs(c, rules, trade, item);
      LossExactly(Entries(c, rules, trade, item, 0), Passed(c, rules, trade, item, 0), Spare(c, rules, item, 0),
        item.weight, item.count, FreeLoad(c));
    }
  }

  // ---------- Room to spare ----------

  // How many things lie at a place
  ghost function Number(s: seq<Thing>, place: Place): nat { |set j: nat | j < |s| && s[j].place == place| }

  lemma {:induction false} SizeIsNumber(s: seq<Thing>, place: Place)
    ensures Size(s, place) == Number(s, place)
    ensures Number(s, place) == 0 <==> forall t | t in s :: t.place != place
    decreases |s|
  {
    if s != [] {
      SizeIsNumber(s[1..], place);
      NumberOfFront(s, place);
      assert s == [s[0]] + s[1..];
    }
  }

  lemma NumberOfFront(s: seq<Thing>, place: Place)
    requires s != []
    ensures Number(s, place) == Number(s[1..], place) + if s[0].place == place then 1 else 0
  {
    var here := set j: nat | j < |s| && s[j].place == place;
    var shifted := set j: nat | 0 < j < |s| && s[j].place == place;
    ShiftKeepsNumber(s, place, shifted);
    if s[0].place == place {
      assert here == shifted + {0};
    } else {
      assert here == shifted;
    }
  }

  lemma ShiftKeepsNumber(s: seq<Thing>, place: Place, shifted: set<nat>)
    requires s != [] && shifted == set j: nat | 0 < j < |s| && s[j].place == place
    ensures |shifted| == Number(s[1..], place)
  {
    var here := set j: nat | j < |s[1..]| && s[1..][j].place == place;
    MovedUp(here, shifted);
  }

  lemma {:induction false} MovedUp(a: set<nat>, b: set<nat>)
    requires forall j :: j in b <==> j > 0 && j - 1 in a
    ensures |a| == |b|
    decreases |a|
  {
    if a == {} {
      assert b == {};
    } else {
      var j :| j in a;
      assert j + 1 in b;
      MovedUp(a - {j}, b - {j + 1});
    }
  }

  // Empty, for a slot, or not full, and no part of the player's own offer
  ghost predicate FreePocket(c: Carrier, trade: Option<nat>, p: Pocket) {
    if p.place.Slot? then forall t | t in c.things :: t.place != p.place
    else Number(c.things, p.place) < p.capacity && (trade.Some? ==> trade.value !in p.around)
  }

  ghost predicate AllOpen(c: Carrier, rules: Rules, item: Thing) {
    forall p | p in c.pockets :: rules(c.things, p.place, item)
  }

  lemma {:induction false} StacksOpen(c: Carrier, rules: Rules, trade: Option<nat>, item: Thing, p: Pocket, k: nat)
    requires k <= |c.things| && rules(c.things, p.place, item)
    ensures forall e | e in StacksAt(c, rules, trade, item, p, false, k) :: e.Gap? && e.open
    decreases |c.things| - k
  {
    if k < |c.things| {
      StacksOpen(c, rules, trade, item, p, k + 1);
    }
  }

  lemma {:induction false} EntriesOpen(c: Carrier, rules: Rules, trade: Option<nat>, item: Thing, i: nat)
    requires i <= |c.pockets| && AllOpen(c, rules, item)
    ensures forall e | e in Entries(c, rules, trade, item, i) :: e.Gap? ==> e.open
    decreases |c.pockets| - i
  {
    if i < |c.pockets| {
      assert c.pockets[i] in c.pockets;
      StacksOpen(c, rules, trade, item, c.pockets[i], 0);
      EntriesOpen(c, rules, trade, item, i + 1);
    }
  }

  lemma {:induction false} UnofferedIsLess(s: seq<Thing>, trade: Option<nat>, place: Place)
    ensures Size(Unoffered(s, trade), place) <= Size(s, place)
  {
    if s != [] {
      UnofferedIsLess(s[1..], trade, place);
      UnofferedFront(s, trade, place);
    }
  }

  lemma FreeIsHere(c: Carrier, rules: Rules, trade: Option<nat>, item: Thing, p: Pocket) returns (e: Entry)
    requires FreePocket(c, trade, p) && rules(c.things, p.place, item)
    ensures e.Free? && e in EntriesAt(c, rules, trade, item, p)
    ensures if p.place.Slot? then Size(c.things, p.place) == 0 else Size(c.things, p.place) < p.capacity
  {
    SizeIsNumber(c.things, p.place);
    UnofferedIsLess(c.things, trade, p.place);
    e := Free(p.place.Slot?);
  }

  lemma {:induction false} SpareIsFound(c: Carrier, rules: Rules, trade: Option<nat>, item: Thing, i: nat, k: nat)
    requires i <= k < |c.pockets| && FreePocket(c, trade, c.pockets[k]) && rules(c.things, c.pockets[k].place, item)
    ensures Spare(c, rules, item, i) >= 100
    decreases k - i
  {
    if i == k {
      var e := FreeIsHere(c, rules, trade, item, c.pockets[k]);
    } else {
      SpareIsFound(c, rules, trade, item, i + 1, k);
    }
  }

  lemma InSum(a: seq<Entry>, b: seq<Entry>, e: Entry)
    requires e in a || e in b
    ensures e in a + b
  {
  }

  lemma {:induction false} EntryIsListed(c: Carrier, rules: Rules, trade: Option<nat>, item: Thing, i: nat, k: nat,
                                         e: Entry)
    requires i <= k < |c.pockets| && e in EntriesAt(c, rules, trade, item, c.pockets[k])
    ensures e in Entries(c, rules, trade, item, i)
    decreases k - i
  {
    if i < k {
      EntryIsListed(c, rules, trade, item, i + 1, k, e);
    }
    InSum(EntriesAt(c, rules, trade, item, c.pockets[i]), Entries(c, rules, trade, item, i + 1), e);
  }

  lemma {:induction false} NothingIsLost(es: seq<Entry>, passed: seq<Entry>, spare: nat, weight: nat, count: nat,
                                         room: int)
    requires count <= spare && (forall e | e in es :: e.Gap? ==> e.open) && exists e :: e in es && e.Free?
    ensures LossOf(es, passed, spare, weight, count, room) == Some(0)
    decreases |es|
  {
    assert es == [es[0]] + es[1..];
    if es[0].Gap? && es[0].size < count {
      NothingIsLost(es[1..], passed, spare, weight, count - es[0].size, room - weight * es[0].size);
    }
  }

  // Where all places admit the kind and one of them is free, a stack that can be borne is added,
  // and nothing of it is lost.
  lemma FreePlaceLosesNone(c: Carrier, rules: Rules, trade: Option<nat>, item: Thing, p: Pocket)
    requires Regular(c, rules, item) && AllOpen(c, rules, item) && item.count <= 100
    requires p in c.pockets && FreePocket(c, trade, p) && Load(c.things) + item.weight * item.count <= c.maxLoad
    ensures var r := Add(c, rules, trade, item); r.Added? && r.lost == 0
  {
    var k :| 0 <= k < |c.pockets| && c.pockets[k] == p;
    EntriesOpen(c, rules, trade, item, 0);
    SpareIsFound(c, rules, trade, item, 0, k);
    var e := FreeIsHere(c, rules, trade, item, p);
    EntryIsListed(c, rules, trade, item, 0, k, e);
    AddExactly(c, rules, trade, item);
    NothingIsLost(Entries(c, rules, trade, item, 0), Passed(c, rules, trade, item, 0), Spare(c, rules, item, 0),
      item.weight, item.count, FreeLoad(c));
  }

  // Too heavy for the player, a stack is refused, and so it is where every place is taken and no
  // equal stack is unfinished.
  lemma StackIsRefused(c: Carrier, rules: Rules, trade: Option<nat>, item: Thing)
    requires item.kind.stackable
    requires (Load(c.things) + item.weight * item.count > c.maxLoad && item.weight * item.count > 0) ||
      ((forall t | t in c.things :: t.kind != item.kind || t.count >= 100) && trade == None &&
       forall p | p in c.pockets :: !FreePocket(c, None, p))
    ensures Add(c, rules, trade, item) == Refused
  {
    if !Bears(c, item, item.count) {
      TooHeavy(c, rules, trade, item);
    } else {
      var k := FindsFirst(c, rules, trade, item, true, 0);
      forall j | 0 <= j < |c.pockets|
        ensures SpotIn(c, rules, None, item, true, c.pockets[j]) == Nowhere
      {
        assert c.pockets[j] in c.pockets;
        SizeIsNumber(c.things, c.pockets[j].place);
        NoneUnoffered(c.things);
        NoneCompleted(c.things, c.pockets[j].place, item);
      }
    }
  }

  lemma {:induction false} NoneUnoffered(s: seq<Thing>)
    ensures Unoffered(s, None) == s
  {
    if s != [] {
      NoneUnoffered(s[1..]);
    }
  }

  lemma NoneCompleted(s: seq<Thing>, place: Place, item: Thing)
    requires forall j | 0 <= j < |s| :: s[j].kind != item.kind || s[j].count >= 100
    ensures FirstEqual(s, place, item, None, 0) == None
  {
  }

  // ---------- What does not stack ----------

  // Where such an item may go: an empty slot, or a container that does not hold just as many things
  // as it may, unless it is inside the player's own offer and that is worn
  ghost predicate SingleMayGo(c: Carrier, rules: Rules, trade: Option<nat>, item: Thing, p: Pocket) {
    rules(c.things, p.place, item) && (item.weight == 0 || Load(c.things) + item.weight <= c.maxLoad) &&
    if p.place.Slot? then forall t | t in c.things :: t.place != p.place
    else
      Number(c.things, p.place) != p.capacity &&
      (trade.Some? && trade.value in p.around ==> forall t | t in c.things && t.id == trade.value :: !t.place.Slot?)
  }

  lemma SingleSpot(c: Carrier, rules: Rules, trade: Option<nat>, item: Thing, stacking: bool, p: Pocket)
    requires !item.kind.stackable
    ensures SpotIn(c, rules, trade, item, stacking, p) ==
      if SingleMayGo(c, rules, trade, item, p) then At(p, None) else Nowhere
  {
    SizeIsNumber(c.things, p.place);
  }

  lemma {:induction false} FitsOne(c: Carrier, rules: Rules, item: Thing, i: nat, k: nat)
    requires i <= k < |c.pockets| && !item.kind.stackable && Bears(c, item, item.count)
    requires FreePocket(c, None, c.pockets[k]) && rules(c.things, c.pockets[k].place, item)
    ensures Fits(c, rules, item, i) >= 1
    decreases k - i
  {
    if i < k {
      FitsOne(c, rules, item, i + 1, k);
    } else {
      SizeIsNumber(c.things, c.pockets[k].place);
    }
  }

  // One thing goes to the first pocket where it may go, if that is a slot or some place is free,
  // and is refused if it may go nowhere.
  lemma SingleIsAdded(c: Carrier, rules: Rules, trade: Option<nat>, item: Thing, k: nat)
    requires !item.kind.stackable && item.count == 1 && k <= |c.pockets|
    requires forall j | 0 <= j < k :: !SingleMayGo(c, rules, trade, item, c.pockets[j])
    requires k < |c.pockets| ==> SingleMayGo(c, rules, trade, item, c.pockets[k])
    ensures k == |c.pockets| ==> Add(c, rules, trade, item) == Refused
    ensures k < |c.pockets| && FreePocket(c, None, c.pockets[k]) ==>
      Add(c, rules, trade, item) == Added(Put(c, item, c.pockets[k]), 0)
  {
    var n := FindsFirst(c, rules, trade, item, true, 0);
    forall j | 0 <= j < |c.pockets|
      ensures SpotIn(c, rules, trade, item, true, c.pockets[j]) ==
        if SingleMayGo(c, rules, trade, item, c.pockets[j]) then At(c.pockets[j], None) else Nowhere
    {
      SingleSpot(c, rules, trade, item, true, c.pockets[j]);
    }
    assert n == k;
    if k < |c.pockets| && FreePocket(c, None, c.pockets[k]) {
      FitsOne(c, rules, item, 0, k);
    }
  }

  // ---------- Where the pieces are ----------

  // The pocket has a place for a new item: an empty slot, or a container that is not full. What
  // does not stack goes into one with too much in it, too.
  predicate HasPlace(c: Carrier, rules: Rules, trade: Option<nat>, item: Thing, p: Pocket) {
    rules(c.things, p.place, item) &&
    if p.place.Slot? then Size(c.things, p.place) == 0
    else if item.kind.stackable then !OnOffer(p, trade) && Size(Unoffered(c.things, trade), p.place) < p.capacity
    else Size(c.things, p.place) != p.capacity
  }

  // Nothing has moved or changed but the counts of equal stacks, which have grown to a hundred at
  // most.
  predicate OnlyGrown(s: seq<Thing>, item: Thing, grown: seq<Thing>) {
    SameShape(grown, s) &&
    forall j | 0 <= j < |s| ::
      grown[j].count == s[j].count ||
      (s[j].count < grown[j].count <= STACK && item.kind.stackable && s[j].kind == item.kind)
  }

  // The new item lies in front, in a pocket that has a place for it.
  predicate LiesIn(c: Carrier, rules: Rules, trade: Option<nat>, item: Thing, p: Pocket, t: Thing) {
    p in c.pockets && HasPlace(c, rules, trade, item, p) &&
    t == item.(count := t.count, place := p.place, around := p.around)
  }

  ghost predicate Landed(c: Carrier, rules: Rules, trade: Option<nat>, item: Thing, front: seq<Thing>,
                         grown: seq<Thing>, v: Carrier)
  {
    v == c.(things := front + grown) && OnlyGrown(c.things, item, grown) && |front| <= 1 &&
    (front != [] ==> exists p :: LiesIn(c, rules, trade, item, p, front[0]))
  }

  lemma SpotHasPlace(c: Carrier, rules: Rules, trade: Option<nat>, item: Thing)
    requires var spot := Find(c, rules, trade, item, true, 0); spot.At? && spot.onto == None
    ensures var p := Find(c, rules, trade, item, true, 0).pocket;
      p in c.pockets && HasPlace(c, rules, trade, item, p)
  {
    var k := FindsFirst(c, rules, trade, item, true, 0);
    assert c.pockets[k] in c.pockets;
  }

  lemma HasPlaceStays(c: Carrier, rules: Rules, trade: Option<nat>, item: Thing, rest: Thing, k: nat, n: nat, p: Pocket)
    requires IgnoreCounts(rules) && k < |c.things| && rest == item.(count := rest.count)
    requires HasPlace(Grown(c, k, n), rules, trade, rest, p)
    ensures HasPlace(c, rules, trade, item, p)
  {
    RulesSame(c, rules, item, rest, k, n, p.place);
    SameSize(Grown(c, k, n).things, c.things, trade, p.place);
  }

  lemma GrowsOn(c: Carrier, rules: Rules, trade: Option<nat>, item: Thing, rest: Thing, k: nat, n: nat,
                front: seq<Thing>, grown: seq<Thing>, v: Carrier)
    requires IgnoreCounts(rules) && k < |c.things| && rest == item.(count := rest.count)
    requires item.kind.stackable && c.things[k].kind == item.kind && c.things[k].count + n <= STACK
    requires Landed(Grown(c, k, n), rules, trade, rest, front, grown, v)
    ensures Landed(c, rules, trade, item, front, grown, v)
  {
    if front != [] {
      var p :| LiesIn(Grown(c, k, n), rules, trade, rest, p, front[0]);
      HasPlaceStays(c, rules, trade, item, rest, k, n, p);
      assert LiesIn(c, rules, trade, item, p, front[0]);
    }
  }

  lemma GrownLands(c: Carrier, rules: Rules, trade: Option<nat>, item: Thing, k: nat, n: nat)
    requires item.kind.stackable && k < |c.things| && c.things[k].kind == item.kind && c.things[k].count + n <= STACK
    ensures Landed(c, rules, trade, item, [], Grown(c, k, n).things, Grown(c, k, n))
  {
    var v := Grown(c, k, n);
    OnlyOneGrows(c.things, item, k, n);
    assert [] + v.things == v.things && v == c.(things := [] + v.things);
  }

  lemma OnlyOneGrows(s: seq<Thing>, item: Thing, k: nat, n: nat)
    requires item.kind.stackable && k < |s| && s[k].kind == item.kind && s[k].count + n <= STACK
    ensures OnlyGrown(s, item, s[k := s[k].(count := s[k].count + n)])
  {
  }

  // After an addition everything lies where it did; equal stacks may have grown, and what is left
  // of the item lies in front, in a pocket that had a place for it and admits it.
  lemma {:induction false} AddLands(c: Carrier, rules: Rules, trade: Option<nat>, item: Thing)
    returns (front: seq<Thing>, grown: seq<Thing>)
    requires IgnoreCounts(rules)
    ensures var r := Add(c, rules, trade, item);
      r.Added? ==> Landed(c, rules, trade, item, front, grown, r.carrier)
    decreases item.count, 1
  {
    front, grown := [], c.things;
    var spot := Find(c, rules, trade, item, true, 0);
    if Takes(c, rules, item, spot) {
      if spot.onto == None {
        SpotHasPlace(c, rules, trade, item);
        front := [item.(place := spot.pocket.place, around := spot.pocket.around)];
        assert LiesIn(c, rules, trade, item, spot.pocket, front[0]);
      } else {
        SpotIsReal(c, rules, trade, item, true, 0);
        front, grown :=
          CompletedLands(c, rules, trade, item, spot.onto.value, Min(item.count, Fits(c, rules, item, 0)));
      }
    }
  }

  lemma CompletedCarrier(c: Carrier, rules: Rules, trade: Option<nat>, item: Thing, k: nat, m: nat)
    requires k < |c.things| && m <= item.count && Remainder(c.things[k]) > 0
    ensures var r, n := Completed(c, rules, trade, item, k, m), Min(Remainder(c.things[k]), m);
      r.Added? &&
      (m == n || Add(Grown(c, k, n), rules, trade, item.(count := m - n)).Refused? ==> r.carrier == Grown(c, k, n)) &&
      (m != n && Add(Grown(c, k, n), rules, trade, item.(count := m - n)).Added? ==>
         r.carrier == Add(Grown(c, k, n), rules, trade, item.(count := m - n)).carrier)
  {
  }

  lemma {:induction false} CompletedLands(c: Carrier, rules: Rules, trade: Option<nat>, item: Thing, k: nat, m: nat)
    returns (front: seq<Thing>, grown: seq<Thing>)
    requires IgnoreCounts(rules) && k < |c.things| && m <= item.count && Remainder(c.things[k]) > 0
    requires item.kind.stackable && c.things[k].kind == item.kind
    ensures var r := Completed(c, rules, trade, item, k, m);
      r.Added? && Landed(c, rules, trade, item, front, grown, r.carrier)
    decreases item.count, 0
  {
    var n := Min(Remainder(c.things[k]), m);
    var v, rest := Grown(c, k, n), item.(count := m - n);
    CompletedCarrier(c, rules, trade, item, k, m);
    if m != n && Add(v, rules, trade, rest).Added? {
      front, grown := AddLands(v, rules, trade, rest);
      GrowsOn(c, rules, trade, item, rest, k, n, front, grown, Add(v, rules, trade, rest).carrier);
    } else {
      front, grown := [], v.things;
      GrownLands(c, rules, trade, item, k, n);
    }
  }

  // ---------- The player's methods ----------

  class Player {
    var pockets: seq<Pocket>
    const maxLoad: nat
    const rules: Rules
    var things: seq<Thing>
    var tradeItem: Option<nat>

    constructor (pockets: seq<Pocket>, things: seq<Thing>, maxLoad: nat, rules: Rules)
      ensures State() == Carrier(pockets, things, maxLoad) && this.rules == rules && tradeItem == None
    {
      this.pockets, this.things, this.maxLoad, this.rules, tradeItem := pockets, things, maxLoad, rules, None;
    }

    function State(): Carrier
      reads this
    {
      Carrier(pockets, things, maxLoad)
    }

    // The loop over what lies at a place, for a stack to complete
    method FindStack(place: Place, item: Thing, skip: Option<nat>) returns (onto: Option<nat>)
      ensures onto == FirstEqual(things, place, item, skip, 0)
    {
      for k := 0 to |things|
        invariant FirstEqual(things, place, item, skip, 0) == FirstEqual(things, place, item, skip, k)
      {
        if Completes(things[k], place, item) && Some(things[k].id) != skip {
          return Some(k);
        }
      }
      return None;
    }

    method SearchPocket(p: Pocket, item: Thing, autoStack: bool) returns (spot: Spot)
      ensures spot == SpotIn(State(), rules, tradeItem, item, autoStack, p)
    {
      if autoStack && item.kind.stackable {
        if OnOffer(p, tradeItem) {
          return Nowhere;
        }
        var onto := FindStack(p.place, item, tradeItem);
        var admitted := Admits(State(), rules, p.place, item, item.count);
        if p.place.Slot? {
          if Size(things, p.place) > 0 {
            return if onto.Some? && admitted then At(p, onto) else Nowhere;
          }
          return if admitted then At(p, None) else Nowhere;
        }
        if onto.Some? {
          return At(p, onto);
        }
        return if Size(Unoffered(things, tradeItem), p.place) < p.capacity && admitted then At(p, None) else Nowhere;
      }
      return FreeSpot(State(), rules, tradeItem, item, p);
    }

    // queryDestination, with nothing asked about the place
    method QueryDestination(item: Thing, autoStack: bool) returns (spot: Spot)
      ensures spot == Find(State(), rules, tradeItem, item, autoStack, 0)
    {
      for i := 0 to |pockets|
        invariant Find(State(), rules, tradeItem, item, autoStack, 0) ==
          Find(State(), rules, tradeItem, item, autoStack, i)
      {
        spot := SearchPocket(pockets[i], item, autoStack);
        if spot != Nowhere {
          return;
        }
      }
      return Nowhere;
    }

    // The loop of queryMaxCount over the stacks at a place
    method CountRemainders(place: Place, item: Thing) returns (n: nat)
      ensures n == Remainders(State(), rules, place, item, 0)
    {
      n := 0;
      for k := |things| downto 0
        invariant n == Remainders(State(), rules, place, item, k)
      {
        if Completes(things[k], place, item) && Admits(State(), rules, place, item, Remainder(things[k])) {
          n := n + Remainder(things[k]);
        }
      }
    }

    // queryMaxCount, with nothing asked about the place
    method QueryMaxCount(item: Thing) returns (n: nat)
      ensures n == Fits(State(), rules, item, 0)
    {
      n := 0;
      for i := |pockets| downto 0
        invariant n == Fits(State(), rules, item, i)
      {
        var p := pockets[i];
        var remainders := CountRemainders(p.place, item);
        if p.place.Slot? {
          if Size(things, p.place) > 0 {
            n := n + remainders;
          } else if Admits(State(), rules, p.place, item, item.count) {
            n := n + if item.kind.stackable then STACK else 1;
          }
        } else {
          n := n + if item.kind.stackable then FreeSlots(State(), p) * STACK + remainders else FreeSlots(State(), p);
        }
      }
    }

    // The merge, and the addition of what is left
    method Complete(item: Thing, k: nat, m: nat) returns (lost: nat)
      requires k < |things| && m <= item.count && (m > 0 ==> Remainder(things[k]) > 0)
      modifies `things
      ensures Added(State(), lost) == Completed(old(State()), rules, tradeItem, item, k, m)
      decreases item.count, 0
    {
      var n := Min(Remainder(things[k]), m);
      things := things[k := things[k].(count := things[k].count + n)];
      lost := item.count - m;
      if m > n {
        var more, released := InternalAddItem(item.(count := m - n));
        lost := lost + if more then released else m - n;
      }
    }

    // internalAddItem: `added` when it reports no error, which says nothing of what is lost
    method InternalAddItem(item: Thing) returns (added: bool, lost: nat)
      modifies `things
      ensures var r := Add(old(State()), rules, tradeItem, item);
        if added then r == Added(State(), lost) else r == Refused && State() == old(State()) && lost == 0
      decreases item.count, 1
    {
      var spot := QueryDestination(item, true);
      var maxQueryCount := QueryMaxCount(item);
      if spot == Nowhere {
        return false, 0;
      }
      var place := spot.pocket.place;
      if place.Inside? && (!Admits(State(), rules, place, item, item.count) || maxQueryCount < item.count) {
        return false, 0;
      }
      if spot.onto == None {
        things := Put(State(), item, spot.pocket).things;
        return true, 0;
      }
      SpotIsReal(State(), rules, tradeItem, item, true, 0);
      var k := spot.onto.value;
      lost := Complete(item, k, Min(item.count, maxQueryCount));
      return true, lost;
    }
  }
}
