// The exchange at the end of a trade: four tests and two moves (playerAcceptTrade,
// internalAddItem in test mode, and internalMoveItem in game.cpp).
module Barter {

  import opened Arithmetic
  import opened Inventory
  import opened ItemTypes
  import opened Wrappers

  // An item on offer. The weight of a container is that with everything inside it.
  datatype Offer = Offer(item: Thing, moveable: bool)

  datatype Side = Side(carrier: Carrier, rules: Rules)

  datatype Deal = Deal(player: Side, mine: Offer, partner: Side, yours: Offer)

  // internalAddItem in test mode, where stacks may be completed
  predicate WouldTake(s: Side, trade: nat, item: Thing) {
    Takes(s.carrier, s.rules, item, Find(s.carrier, s.rules, Some(trade), item, true, 0))
  }

  // The two test additions and the two test removals
  predicate Checks(d: Deal) {
    WouldTake(d.partner, d.yours.item.id, d.mine.item) && WouldTake(d.player, d.mine.item.id, d.yours.item) &&
    d.mine.item.count > 0 && d.yours.item.count > 0
  }

  // How many of `count` pieces internalMoveItem puts where its search has led. In a container
  // with free places all of them arrive, on an equal stack or beside it; in one that has
  // too much in it, only what completes a stack.
  function Arriving(s: Side, item: Thing, count: nat, spot: Spot): (n: nat)
    ensures n <= count
  {
    if spot == Nowhere then 0
    else
      var p := spot.pocket;
      if p.place.Slot? || Size(s.carrier.things, p.place) < p.capacity then count
      else
        var onto := FirstEqual(s.carrier.things, p.place, item, None, 0);
        if onto.Some? && Admits(s.carrier, s.rules, p.place, item, Remainder(s.carrier.things[onto.value])) then
          Min(count, Remainder(s.carrier.things[onto.value]))
        else 0
  }

  // Where the moves, which may not complete stacks outside containers, look for a place
  function Target(s: Side, trade: nat, item: Thing): Spot {
    Find(s.carrier, s.rules, Some(trade), item, false, 0)
  }

  // The first move. The partner's own offer may not be around the place.
  function FirstMove(d: Deal): (n: nat)
    ensures n <= d.mine.item.count
  {
    var spot := Target(d.partner, d.yours.item.id, d.mine.item);
    if !d.mine.moveable || (spot.At? && spot.pocket.place.Inside? && d.yours.item.id in spot.pocket.around) then 0
    else Arriving(d.partner, d.mine.item, d.mine.item.count, spot)
  }

  // The first item may have been put onto the second, if they are of one kind.
  function YoursAfter(d: Deal): Thing {
    var spot := Target(d.partner, d.yours.item.id, d.mine.item);
    var things := d.partner.carrier.things;
    if spot == Nowhere || spot.pocket.place.Slot? then d.yours.item
    else
      var onto := FirstEqual(things, spot.pocket.place, d.mine.item, None, 0);
      if onto.Some? && things[onto.value].id == d.yours.item.id && d.mine.item.kind == d.yours.item.kind then
        d.yours.item.(count := d.yours.item.count + Min(Remainder(d.yours.item), FirstMove(d)))
      else d.yours.item
  }

  function ThingsPast(s: seq<Thing>, id: nat): seq<Thing> {
    if s == [] then []
    else (if s[0].id == id || id in s[0].around then [] else [s[0]]) + ThingsPast(s[1..], id)
  }

  predicate Stays(p: Pocket, id: nat) { p.place.Slot? || id !in p.around }

  function PocketsPast(s: seq<Pocket>, id: nat): seq<Pocket> {
    if s == [] then [] else (if Stays(s[0], id) then [s[0]] else []) + PocketsPast(s[1..], id)
  }

  // What somebody has apart from an item and everything inside it
  function ItemGone(s: Side, id: nat): Side {
    s.(carrier := s.carrier.(pockets := PocketsPast(s.carrier.pockets, id), things := ThingsPast(s.carrier.things, id)))
  }

  // The second move, once the first item is gone; its result is not looked at.
  function SecondMove(d: Deal): (n: nat)
    ensures n <= d.yours.item.count
  {
    var s := ItemGone(d.player, d.mine.item.id);
    if !d.yours.moveable then 0
    else Arriving(s, YoursAfter(d), d.yours.item.count, Target(s, d.mine.item.id, YoursAfter(d)))
  }

  // How many pieces of each item change hands
  datatype Exchanged = Exchanged(first: nat, second: nat)

  function Swap(d: Deal): Exchanged {
    if !Checks(d) then Exchanged(0, 0)
    else if FirstMove(d) < d.mine.item.count then Exchanged(FirstMove(d), 0)
    else Exchanged(FirstMove(d), SecondMove(d))
  }

  // Both items change hands as a whole, or neither does.
  predicate Fair(d: Deal) {
    Swap(d) == Exchanged(0, 0) || Swap(d) == Exchanged(d.mine.item.count, d.yours.item.count)
  }

  // ---------- When an exchange is fair ----------

  // A place looks free to the search, and takes the item.
  predicate Offers(s: Side, item: Thing, p: Pocket) {
    (if p.place.Slot? then Size(s.carrier.things, p.place) == 0 else Size(s.carrier.things, p.place) != p.capacity) &&
    Admits(s.carrier, s.rules, p.place, item, item.count)
  }

  // The search does not look into an offer that is worn.
  predicate Seen(s: Side, trade: nat, p: Pocket) {
    !(OnOffer(p, Some(trade)) && WornOffer(s.carrier.things, Some(trade)))
  }

  predicate Overfull(s: Side, p: Pocket) { p.place.Inside? && Size(s.carrier.things, p.place) > p.capacity }

  // A container with too much in it takes pieces only onto an equal stack.
  predicate TakesAll(s: Side, item: Thing, count: nat, p: Pocket) {
    !Overfull(s, p) ||
    var onto := FirstEqual(s.carrier.things, p.place, item, None, 0);
    onto.Some? && count <= Remainder(s.carrier.things[onto.value]) &&
    Admits(s.carrier, s.rules, p.place, item, Remainder(s.carrier.things[onto.value]))
  }

  // The k-th pocket is the first that the search sees and that offers a place.
  predicate IsFirst(s: Side, trade: nat, item: Thing, k: nat) {
    k < |s.carrier.pockets| && Seen(s, trade, s.carrier.pockets[k]) && Offers(s, item, s.carrier.pockets[k]) &&
    forall j | 0 <= j < k :: !(Seen(s, trade, s.carrier.pockets[j]) && Offers(s, item, s.carrier.pockets[j]))
  }

  lemma TargetExactly(s: Side, trade: nat, item: Thing)
    ensures forall k: nat | IsFirst(s, trade, item, k) :: Target(s, trade, item) == At(s.carrier.pockets[k], None)
    ensures Target(s, trade, item).At? ==> exists k: nat :: IsFirst(s, trade, item, k)
  {
    var k := FindsFirst(s.carrier, s.rules, Some(trade), item, false, 0);
    forall j | 0 <= j < |s.carrier.pockets|
      ensures SpotIn(s.carrier, s.rules, Some(trade), item, false, s.carrier.pockets[j]) ==
        if Seen(s, trade, s.carrier.pockets[j]) && Offers(s, item, s.carrier.pockets[j])
        then At(s.carrier.pockets[j], None) else Nowhere
    {
    }
    if k < |s.carrier.pockets| {
      assert IsFirst(s, trade, item, k);
    }
  }

  // All pieces arrive exactly when the first place that is offered takes them all.
  lemma ArrivesExactly(s: Side, trade: nat, item: Thing, count: nat)
    requires count > 0
    ensures Arriving(s, item, count, Target(s, trade, item)) == count <==>
      exists k: nat :: IsFirst(s, trade, item, k) && TakesAll(s, item, count, s.carrier.pockets[k])
  {
    TargetExactly(s, trade, item);
  }

  // The first item goes as a whole: it may be moved, and the first place that the partner
  // offers takes it all and is not inside the partner's own offer.
  ghost predicate GoesWhole(d: Deal) {
    d.mine.moveable &&
    exists k: nat :: IsFirst(d.partner, d.yours.item.id, d.mine.item, k) &&
      var p := d.partner.carrier.pockets[k];
      (p.place.Slot? || d.yours.item.id !in p.around) && TakesAll(d.partner, d.mine.item, d.mine.item.count, p)
  }

  // The second comes back as a whole: it may be moved, and the first place that the player
  // offers, apart from what was given away, takes it all.
  ghost predicate ComesWhole(d: Deal) {
    var s := ItemGone(d.player, d.mine.item.id);
    d.yours.moveable &&
    exists k: nat :: IsFirst(s, d.mine.item.id, YoursAfter(d), k) &&
      TakesAll(s, YoursAfter(d), d.yours.item.count, s.carrier.pockets[k])
  }

  lemma FirstExactly(d: Deal)
    requires d.mine.item.count > 0
    ensures FirstMove(d) == d.mine.item.count <==> GoesWhole(d)
  {
    TargetExactly(d.partner, d.yours.item.id, d.mine.item);
    ArrivesExactly(d.partner, d.yours.item.id, d.mine.item, d.mine.item.count);
  }

  lemma SecondExactly(d: Deal)
    requires d.yours.item.count > 0
    ensures SecondMove(d) == d.yours.item.count <==> ComesWhole(d)
  {
    ArrivesExactly(ItemGone(d.player, d.mine.item.id), d.mine.item.id, YoursAfter(d), d.yours.item.count);
  }

  predicate TakesNone(s: Side, item: Thing, p: Pocket) {
    Overfull(s, p) &&
    var onto := FirstEqual(s.carrier.things, p.place, item, None, 0);
    (onto.Some? ==> !Admits(s.carrier, s.rules, p.place, item, Remainder(s.carrier.things[onto.value])))
  }

  // The first item stays where it is: it may not be moved, or the first place that the
  // partner offers, if there is one, is inside the partner's own offer or takes nothing.
  ghost predicate StaysPut(d: Deal) {
    d.mine.moveable ==>
      forall k: nat | IsFirst(d.partner, d.yours.item.id, d.mine.item, k) ::
        var p := d.partner.carrier.pockets[k];
        (p.place.Inside? && d.yours.item.id in p.around) || TakesNone(d.partner, d.mine.item, p)
  }

  lemma StaysExactly(d: Deal)
    requires d.mine.item.count > 0
    ensures FirstMove(d) == 0 <==> StaysPut(d)
  {
    TargetExactly(d.partner, d.yours.item.id, d.mine.item);
  }

  // An exchange is fair exactly when the checks fail, or the first item stays where it is,
  // or both go as wholes.
  lemma FairExactly(d: Deal)
    ensures Fair(d) <==> !Checks(d) || StaysPut(d) || (GoesWhole(d) && ComesWhole(d))
  {
    if Checks(d) {
      StaysExactly(d);
      FirstExactly(d);
      SecondExactly(d);
    }
  }

  // ---------- When the checks are enough ----------

  lemma {:induction false} PastIsPast(s: seq<Thing>, id: nat)
    ensures forall t :: t in ThingsPast(s, id) <==> t in s && t.id != id && id !in t.around
  {
    if s != [] {
      PastIsPast(s[1..], id);
      assert s == [s[0]] + s[1..];
    }
  }

  lemma {:induction false} PocketsPastIs(s: seq<Pocket>, id: nat)
    ensures forall p :: p in PocketsPast(s, id) <==> p in s && Stays(p, id)
  {
    if s != [] {
      PocketsPastIs(s[1..], id);
      assert s == [s[0]] + s[1..];
    }
  }

  lemma {:induction false} PastIsLess(s: seq<Thing>, id: nat, place: Place)
    ensures Size(ThingsPast(s, id), place) <= Size(s, place) && Load(ThingsPast(s, id)) <= Load(s)
  {
    if s != [] {
      PastIsLess(s[1..], id, place);
      var first := if s[0].id == id || id in s[0].around then [] else [s[0]];
      assert (first + ThingsPast(s[1..], id))[|first|..] == ThingsPast(s[1..], id);
    }
  }

  // No container on a side has too much in it.
  predicate Orderly(s: Side) { forall p | p in s.carrier.pockets :: !Overfull(s, p) }

  // Giving something away closes no place for the item.
  ghost predicate Loosens(s: Side, id: nat, item: Thing) {
    forall place :: s.rules(s.carrier.things, place, item) ==> s.rules(ThingsPast(s.carrier.things, id), place, item)
  }

  lemma StillOffers(s: Side, id: nat, item: Thing, p: Pocket)
    requires Orderly(s) && p in s.carrier.pockets && Offers(s, item, p) && Loosens(s, id, item) && Stays(p, id)
    ensures p in ItemGone(s, id).carrier.pockets && Offers(ItemGone(s, id), item, p) && !Overfull(ItemGone(s, id), p)
  {
    PastIsLess(s.carrier.things, id, p.place);
    PocketsPastIs(s.carrier.pockets, id);
    assert !Overfull(s, p);
  }

  lemma FirstThatOffers(s: Side, trade: nat, item: Thing, p: Pocket)
    requires p in s.carrier.pockets && Seen(s, trade, p) && Offers(s, item, p)
    ensures Target(s, trade, item).At?
  {
    var k := FindsFirst(s.carrier, s.rules, Some(trade), item, false, 0);
    var j :| 0 <= j < |s.carrier.pockets| && s.carrier.pockets[j] == p;
  }

  lemma GoneIsOrderly(s: Side, id: nat)
    requires Orderly(s)
    ensures Orderly(ItemGone(s, id))
  {
    PocketsPastIs(s.carrier.pockets, id);
    forall p | p in ItemGone(s, id).carrier.pockets
      ensures !Overfull(ItemGone(s, id), p)
    {
      PastIsLess(s.carrier.things, id, p.place);
      assert !Overfull(s, p);
    }
  }

  // For goods that do not stack the checks are enough: if the partner's item may be moved,
  // and the player's own is worn or nothing can be put into it, then what passes the
  // checks and goes one way also comes back the other.
  lemma ChecksSuffice(d: Deal)
    requires Checks(d) && !d.yours.item.kind.stackable && d.yours.moveable && Orderly(d.player)
    requires Loosens(d.player, d.mine.item.id, d.yours.item)
    requires WornOffer(d.player.carrier.things, Some(d.mine.item.id)) ||
      forall p | p in d.player.carrier.pockets :: Stays(p, d.mine.item.id)
    ensures SecondMove(d) == d.yours.item.count && ComesWhole(d)
  {
    var id, item := d.mine.item.id, d.yours.item;
    var s := ItemGone(d.player, id);
    var k := FindsFirst(d.player.carrier, d.player.rules, Some(id), item, true, 0);
    var p := d.player.carrier.pockets[k];
    StillOffers(d.player, id, item, p);
    assert !WornOffer(s.carrier.things, Some(id)) by {
      PastIsPast(d.player.carrier.things, id);
    }
    FirstThatOffers(s, id, item, p);
    GoneIsOrderly(d.player, id);
    TargetExactly(s, id, item);
    var f: nat :| IsFirst(s, id, item, f);
    assert s.carrier.pockets[f] in s.carrier.pockets;
    SecondExactly(d);
  }

  // ---------- An ordinary exchange ----------

  // An empty slot, or a container that is not full, that admits the item, which can be borne
  predicate IsFree(s: Side, item: Thing, p: Pocket) {
    s.rules(s.carrier.things, p.place, item) && item.weight <= FreeLoad(s.carrier) &&
    if p.place.Slot? then Size(s.carrier.things, p.place) == 0 else Size(s.carrier.things, p.place) < p.capacity
  }

  // One piece of something that does not stack and may be moved, offered by somebody with no
  // overfull container, and nothing can be put into it
  ghost predicate Ordinary(s: Side, o: Offer) {
    o.item.count == 1 && !o.item.kind.stackable && o.moveable && Orderly(s) &&
    forall p | p in s.carrier.pockets :: o.item.id !in p.around
  }

  ghost predicate HasFree(s: Side, item: Thing) { exists p :: p in s.carrier.pockets && IsFree(s, item, p) }

  lemma {:induction false} FitsOne(c: Carrier, rules: Rules, item: Thing, i: nat, k: nat)
    requires i <= k < |c.pockets| && !item.kind.stackable && c.pockets[k].place.Inside?
    requires Size(c.things, c.pockets[k].place) < c.pockets[k].capacity
    ensures Fits(c, rules, item, i) >= 1
    decreases k - i
  {
    if i < k {
      FitsOne(c, rules, item, i + 1, k);
    }
  }

  // For such things test and move look for the same.
  lemma TakesOrdinary(s: Side, own: Offer, item: Thing)
    requires Ordinary(s, own) && item.count == 1 && !item.kind.stackable
    ensures WouldTake(s, own.item.id, item) <==> HasFree(s, item)
    ensures Target(s, own.item.id, item).At? <==> HasFree(s, item)
    ensures Target(s, own.item.id, item).At? ==>
      var p := Target(s, own.item.id, item).pocket; p in s.carrier.pockets && IsFree(s, item, p)
  {
    var c, trade := s.carrier, Some(own.item.id);
    var k := FindsFirst(c, s.rules, trade, item, true, 0);
    var n := FindsFirst(c, s.rules, trade, item, false, 0);
    forall j, stacking | 0 <= j < |c.pockets|
      ensures SpotIn(c, s.rules, trade, item, stacking, c.pockets[j]) ==
        if IsFree(s, item, c.pockets[j]) then At(c.pockets[j], None) else Nowhere
    {
      assert !Overfull(s, c.pockets[j]);
    }
    assert k == n;
    if k < |c.pockets| {
      assert c.pockets[k] in c.pockets && IsFree(s, item, c.pockets[k]);
      if c.pockets[k].place.Inside? {
        FitsOne(c, s.rules, item, 0, k);
      }
    }
  }

  // Such an exchange goes through if and only if both have a free place for what they are to
  // get, and otherwise nothing changes hands.
  lemma OrdinaryExchange(d: Deal)
    requires Ordinary(d.player, d.mine) && Ordinary(d.partner, d.yours)
    requires Loosens(d.player, d.mine.item.id, d.yours.item)
    ensures Swap(d) ==
      if HasFree(d.player, d.yours.item) && HasFree(d.partner, d.mine.item) then Exchanged(1, 1) else Exchanged(0, 0)
  {
    TakesOrdinary(d.player, d.mine, d.yours.item);
    TakesOrdinary(d.partner, d.yours, d.mine.item);
    if Checks(d) {
      var p := Target(d.partner, d.yours.item.id, d.mine.item).pocket;
      assert d.yours.item.id !in p.around && FirstMove(d) == 1;
      ChecksSuffice(d);
    }
  }

  // The j-th item is the first equal stack at the place that is not full.
  predicate IsFirstStack(s: seq<Thing>, place: Place, item: Thing, j: nat)
    requires j < |s|
  {
    item.kind.stackable && s[j].place == place && s[j].kind == item.kind && s[j].count < 100 &&
    forall i | 0 <= i < j :: !(s[i].place == place && s[i].kind == item.kind && s[i].count < 100)
  }

  // The first item goes into a container in which the second, of the same kind, is the first
  // stack that is not full.
  ghost predicate Meets(d: Deal) {
    var spot, s := Target(d.partner, d.yours.item.id, d.mine.item), d.partner.carrier.things;
    spot.At? && spot.pocket.place.Inside? && d.mine.item.kind == d.yours.item.kind &&
    exists j: nat | j < |s| :: IsFirstStack(s, spot.pocket.place, d.mine.item, j) && s[j].id == d.yours.item.id
  }

  // Then, and only then, what has arrived of the first is added to the second before that is
  // moved, as far as a hundred.
  lemma OntoTheOffer(d: Deal)
    ensures var n, room := FirstMove(d), 100 - d.yours.item.count;
      YoursAfter(d) ==
      d.yours.item.(count := d.yours.item.count + if !Meets(d) || room < 0 then 0 else if n < room then n else room)
  {
    var spot, s := Target(d.partner, d.yours.item.id, d.mine.item), d.partner.carrier.things;
    if spot.At? {
      var onto := FirstEqual(s, spot.pocket.place, d.mine.item, None, 0);
      if onto.Some? {
        assert IsFirstStack(s, spot.pocket.place, d.mine.item, onto.value);
      }
      forall j: nat | j < |s| && IsFirstStack(s, spot.pocket.place, d.mine.item, j)
        ensures onto == Some(j)
      {
      }
    }
  }

  // ---------- An unfair exchange ----------

  const GOLD := Kind(2148, true, 0)
  const AXE := Kind(2386, false, 0)

  // A player whose backpack is full, but for an unfinished stack of gold in it, offers an
  // axe that lies on the ground; the partner has both hands free and offers thirty gold.
  function FullBackpack(): Deal {
    var backpack := Thing(1, Kind(1988, false, 0), 1, 1800, Slot(3), {});
    var gold := Thing(2, GOLD, 50, 10, Inside(1), {1});
    var pockets := [Pocket(Slot(3), 1, {}), Pocket(Inside(1), 1, {1})];
    var hand := Pocket(Slot(6), 1, {});
    Deal(Side(Carrier(pockets, [backpack, gold], 100000), (_: seq<Thing>, place: Place, _: Thing) => place.Inside?),
         Offer(Thing(3, AXE, 1, 4100, Inside(99), {99}), true),
         Side(Carrier([hand], [], 100000), (_: seq<Thing>, _: Place, _: Thing) => true),
         Offer(Thing(4, GOLD, 30, 10, Inside(98), {98}), true))
  }

  // The tests may complete stacks and the moves may not, so that the axe goes and no gold comes.
  lemma GivenForNothing()
    ensures Swap(FullBackpack()) == Exchanged(1, 0) && !Fair(FullBackpack())
  {
  }

  // ---------- The methods ----------

  function SideOf(p: Player): Side
    reads p
  {
    Side(p.State(), p.rules)
  }

  // internalAddItem in test mode
  method TestAddItem(p: Player, item: Thing, trade: nat) returns (ok: bool)
    requires p.tradeItem == Some(trade)
    ensures ok <==> WouldTake(SideOf(p), trade, item)
  {
    var spot := p.QueryDestination(item, true);
    if spot == Nowhere {
      return false;
    }
    var maxQueryCount := p.QueryMaxCount(item);
    return spot.pocket.place.Slot? ||
      (Admits(p.State(), p.rules, spot.pocket.place, item, item.count) && maxQueryCount >= item.count);
  }

  // internalMoveItem to a player: how many pieces arrive, and where. `barred` is the item
  // that may not be around the place.
  method MoveItem(p: Player, item: Thing, count: nat, moveable: bool, trade: nat, barred: Option<nat>)
    returns (m: nat, spot: Spot)
    requires p.tradeItem == Some(trade)
    ensures spot == Target(SideOf(p), trade, item)
    ensures m ==
      if !moveable then 0
      else if spot.At? && spot.pocket.place.Inside? && barred.Some? && barred.value in spot.pocket.around then 0
      else Arriving(SideOf(p), item, count, spot)
  {
    spot := p.QueryDestination(item, false);
    if spot == Nowhere || !moveable {
      return 0, spot;
    }
    var place := spot.pocket.place;
    if place.Inside? && barred.Some? && barred.value in spot.pocket.around {
      return 0, spot;
    }
    if place.Slot? || Size(p.things, place) < spot.pocket.capacity {
      return count, spot;
    }
    var onto := p.FindStack(place, item, None);
    if onto == None || !Admits(p.State(), p.rules, place, item, Remainder(p.things[onto.value])) {
      return 0, spot;
    }
    return Min(count, Remainder(p.things[onto.value])), spot;
  }

  // The count of the second item after the first move
  method Recount(p: Player, mine: Thing, yours: Thing, spot: Spot, m: nat) returns (after: Thing)
    ensures after ==
      if spot == Nowhere || spot.pocket.place.Slot? then yours
      else
        var onto := FirstEqual(p.things, spot.pocket.place, mine, None, 0);
        if onto.Some? && p.things[onto.value].id == yours.id && mine.kind == yours.kind then
          yours.(count := yours.count + Min(Remainder(yours), m))
        else yours
  {
    if spot == Nowhere || spot.pocket.place.Slot? {
      return yours;
    }
    var onto := p.FindStack(spot.pocket.place, mine, None);
    if onto.Some? && p.things[onto.value].id == yours.id && mine.kind == yours.kind {
      return yours.(count := yours.count + Min(Remainder(yours), m));
    }
    return yours;
  }

  // The part of playerAcceptTrade that tests and moves; the player's item is gone before
  // the partner's is moved.
  method ExchangeItems(player: Player, mine: Offer, partner: Player, yours: Offer) returns (r: Exchanged)
    requires player != partner && player.tradeItem == Some(mine.item.id) && partner.tradeItem == Some(yours.item.id)
    modifies player`things, player`pockets
    ensures r == Swap(Deal(old(SideOf(player)), mine, old(SideOf(partner)), yours))
    ensures SideOf(player) ==
      if 0 < r.first == mine.item.count then ItemGone(old(SideOf(player)), mine.item.id) else old(SideOf(player))
  {
    var ret1 := TestAddItem(partner, mine.item, yours.item.id);
    var ret2 := TestAddItem(player, yours.item, mine.item.id);
    if !ret1 || !ret2 || mine.item.count == 0 || yours.item.count == 0 {
      return Exchanged(0, 0);
    }
    var first, spot :=
      MoveItem(partner, mine.item, mine.item.count, mine.moveable, yours.item.id, Some(yours.item.id));
    if first < mine.item.count {
      return Exchanged(first, 0);
    }
    var after := Recount(partner, mine.item, yours.item, spot, first);
    player.pockets := PocketsPast(player.pockets, mine.item.id);
    player.things := ThingsPast(player.things, mine.item.id);
    var second, _ := MoveItem(player, after, yours.item.count, yours.moveable, mine.item.id, None);
    return Exchanged(first, second);
  }
}
