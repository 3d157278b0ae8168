// Moving items between containers (internalMoveItem in game.cpp; queryDestination,
// queryMaxCount, queryRemove, addThing, updateThing and removeThing in container.cpp).
module ItemMove {

  import opened Arithmetic
  import opened ItemTypes
  import opened Sequences
  import opened Wrappers

  const WHEREEVER := -1 // INDEX_WHEREEVER
  const MAX_LAYERS := 16 // MAP_MAX_LAYERS

  // What a list of items holds, as a value
  datatype Pile = Pile(kind: Kind, count: nat)

  // How many items of that kind the piles hold
  function Sum(s: seq<Pile>, k: Kind): nat {
    if s == [] then 0 else (if s[0].kind == k then s[0].count else 0) + Sum(s[1..], k)
  }

  lemma {:induction false} SumOfConcat(s: seq<Pile>, t: seq<Pile>, k: Kind)
    ensures Sum(s + t, k) == Sum(s, k) + Sum(t, k)
  {
    if s == [] {
      assert s + t == t;
    } else {
      assert (s + t)[1..] == s[1..] + t;
      SumOfConcat(s[1..], t, k);
    }
  }

  function Of(p: Pile, k: Kind): nat { if p.kind == k then p.count else 0 }

  lemma SumOfParts(s: seq<Pile>, i: nat, k: Kind)
    requires i < |s|
    ensures Sum(s, k) == Sum(s[..i] + s[i + 1..], k) + Of(s[i], k)
  {
    assert s == s[..i] + ([s[i]] + s[i + 1..]);
    SumOfConcat(s[..i], [s[i]] + s[i + 1..], k);
    SumOfConcat([s[i]], s[i + 1..], k);
    SumOfConcat(s[..i], s[i + 1..], k);
    assert Sum([s[i]], k) == Of(s[i], k) + Sum([], k);
  }

  lemma SumOfUpdate(s: seq<Pile>, i: nat, p: Pile, k: Kind)
    requires i < |s|
    ensures Sum(s[i := p], k) == Sum(s, k) - Of(s[i], k) + Of(p, k)
  {
    SumOfParts(s, i, k);
    SumOfParts(s[i := p], i, k);
    assert s[i := p][..i] == s[..i] && s[i := p][i + 1..] == s[i + 1..];
  }

  class Item {
    const kind: Kind
    const container: Container? // the container that the item is, if it is one
    var count: nat

    constructor (kind: Kind, count: nat)
      ensures this.kind == kind && this.count == count && container == null
    {
      this.kind := kind;
      this.count := count;
      container := null;
    }

    // A copy, with a count of its own
    method Clone(newCount: nat) returns (item: Item)
      ensures fresh(item) && item.kind == kind && item.count == newCount && item.container == null
    {
      item := new Item(kind, newCount);
    }

    function Picture(): Pile
      reads this
    {
      Pile(kind, count)
    }
  }

  ghost function Pictures(s: seq<Item>): (r: seq<Pile>)
    reads s
    ensures |r| == |s| && forall i | 0 <= i < |s| :: r[i] == s[i].Picture()
  {
    seq(|s|, i requires 0 <= i < |s| reads s => s[i].Picture())
  }

  lemma NoRepeatsInFront(item: Item, s: seq<Item>)
    requires NoRepeats(s) && item !in s
    ensures NoRepeats([item] + s)
  {
  }

  class Container {
    const capacity: nat
    const unlocked: bool
    var parent: Container?
    var itemlist: seq<Item>

    constructor (capacity: nat, unlocked: bool, parent: Container?)
      ensures itemlist == [] && this.capacity == capacity && this.unlocked == unlocked && this.parent == parent
    {
      this.capacity := capacity;
      this.unlocked := unlocked;
      this.parent := parent;
      itemlist := [];
    }

    ghost function Amount(k: Kind): nat
      reads this, itemlist
    {
      Sum(Pictures(itemlist), k)
    }

    method GetThingIndex(item: Item) returns (index: int)
      ensures if index == -1 then item !in itemlist else 0 <= index < |itemlist| && itemlist[index] == item
    {
      index := 0;
      while index < |itemlist|
        invariant 0 <= index <= |itemlist| && item !in itemlist[..index]
      {
        if itemlist[index] == item {
          return;
        }
        index := index + 1;
      }
      return -1;
    }
  
    method GetItemByIndex(index: int) returns (item: Item?)
      ensures item == if 0 <= index < |itemlist| then itemlist[index] else null
    {
      if index < 0 || index >= |itemlist| {
        return null;
      }
      return itemlist[index];
    }

    // queryAdd, as far as room and locks decide; `accepts` answers for the rest of it
    predicate QueryAdd(index: int, amount: nat, flags: Flags, accepts: (int, nat) -> bool)
      reads this
    {
      unlocked && (!flags.noLimit && index == WHEREEVER ==> |itemlist| < capacity) && accepts(index, amount)
    }

    function FreeSlots(): nat
      reads this
    {
      if capacity > |itemlist| then capacity - |itemlist| else 0
    }

    // What the unfinished equal stacks from the j-th item on can take; the check is asked about
    // one slot after the other, counting only those stacks.
    function StackRoom(item: Item, flags: Flags, accepts: (int, nat) -> bool, j: nat, slotIndex: nat): nat
      requires j <= |itemlist|
      reads this, itemlist
      decreases |itemlist| - j
    {
      if j == |itemlist| then 0
      else
        var t := itemlist[j];
        if t != item && CanMerge(t, item) then
          (if QueryAdd(slotIndex, STACK - t.count, flags, accepts) then STACK - t.count else 0) +
          StackRoom(item, flags, accepts, j + 1, slotIndex + 1)
        else StackRoom(item, flags, accepts, j + 1, slotIndex)
    }

    // How many pieces may move to the index
    function MaxCount(index: int, item: Item, amount: nat, flags: Flags, accepts: (int, nat) -> bool): nat
      reads this, itemlist
    {
      if flags.noLimit then (if amount < 1 then 1 else amount)
      else if !item.kind.stackable then FreeSlots()
      else if index == WHEREEVER then FreeSlots() * STACK + StackRoom(item, flags, accepts, 0, 0)
      else if 0 <= index < |itemlist| && CanMerge(itemlist[index], item) &&
        QueryAdd(index, STACK - itemlist[index].count, flags, accepts)
      then FreeSlots() * STACK + (STACK - itemlist[index].count)
      else FreeSlots() * STACK
    }

    method QueryMaxCount(index: int, item: Item, amount: nat, flags: Flags, accepts: (int, nat) -> bool)
      returns (ok: bool, maxQueryCount: nat)
      ensures maxQueryCount == MaxCount(index, item, amount, flags, accepts)
      ensures ok <==> flags.noLimit || (if item.kind.stackable then maxQueryCount >= amount else maxQueryCount != 0)
    {
      if flags.noLimit {
        return true, if amount < 1 then 1 else amount;
      }
      var freeSlots := FreeSlots();
      if item.kind.stackable {
        var n: nat := 0;
        if index == WHEREEVER {
          var slotIndex := 0;
          for j := 0 to |itemlist|
            invariant slotIndex >= 0
            invariant n + StackRoom(item, flags, accepts, j, slotIndex) == StackRoom(item, flags, accepts, 0, 0)
          {
            var containerItem := itemlist[j];
            if containerItem != item && containerItem.kind == item.kind && containerItem.count < STACK {
              var remainder: nat := STACK - containerItem.count;
              if QueryAdd(slotIndex, remainder, flags, accepts) {
                n := n + remainder;
              }
              slotIndex := slotIndex + 1;
            }
          }
        } else {
          var destItem := GetItemByIndex(index);
          if destItem != null && item.kind == destItem.kind && destItem.count < STACK {
            var remainder := STACK - destItem.count;
            if QueryAdd(index, remainder, flags, accepts) {
              n := remainder;
            }
          }
        }
        maxQueryCount := freeSlots * STACK + n;
        ok := maxQueryCount >= amount;
      } else {
        maxQueryCount := freeSlots;
        ok := maxQueryCount != 0;
      }
    }

    // The first unfinished equal stack from the n-th item on
    function FirstStack(item: Item, n: nat): (r: Option<nat>)
      requires n <= |itemlist|
      reads this, itemlist
      ensures r.Some? ==> n <= r.value < |itemlist| && CanMerge(itemlist[r.value], item)
      decreases |itemlist| - n
    {
      if n == |itemlist| then None
      else if itemlist[n] != item && CanMerge(itemlist[n], item) then Some(n)
      else FirstStack(item, n + 1)
    }

    // Where the item ends up in this container, or in which other container it should go
    function Destination(index: int, item: Item, flags: Flags): Landing
      reads this, itemlist
    {
      if !unlocked then Landing(this, index, null)
      else if index == 254 then Landing(if parent != null then parent else this, WHEREEVER, null)
      else
        var i := if index == 255 || index >= capacity then WHEREEVER else index;
        var there := if 0 <= i < |itemlist| then itemlist[i] else null;
        if there != null && there.container != null then Landing(there.container, WHEREEVER, null)
        else
          var autoStack := !flags.ignoreAutoStack && item.kind.stackable && item !in itemlist;
          var n := if autoStack then FirstStack(item, 0) else None;
          if n.Some? then Landing(this, n.value, itemlist[n.value]) else Landing(this, i, there)
    }

    method QueryDestination(index: int, item: Item, flags: Flags) returns (landing: Landing)
      requires index >= WHEREEVER
      ensures landing == Destination(index, item, flags)
    {
      if !unlocked {
        return Landing(this, index, null);
      }
      if index == 254 {
        return Landing(if parent != null then parent else this, WHEREEVER, null);
      }
      var newIndex := index;
      var toItem: Item? := null;
      if index == 255 || index >= capacity {
        newIndex := WHEREEVER;
      }
      if newIndex != WHEREEVER {
        toItem := GetItemByIndex(newIndex);
        if toItem != null && toItem.container != null {
          return Landing(toItem.container, WHEREEVER, null);
        }
      }
      if !flags.ignoreAutoStack && item.kind.stackable && item !in itemlist {
        for n := 0 to |itemlist|
          invariant FirstStack(item, 0) == FirstStack(item, n)
        {
          if itemlist[n] != item && itemlist[n].kind == item.kind && itemlist[n].count < STACK {
            return Landing(this, n, itemlist[n]);
          }
        }
      }
      return Landing(this, newIndex, toItem);
    }

    // Takes an item out of the list
    method TakeOut(item: Item, ghost world: set<Container>)
      requires Valid(world) && this in world && item in itemlist
      modifies `itemlist
      ensures Valid(world) && item !in itemlist && (forall i | i in itemlist :: i in old(itemlist))
      ensures forall i | i in old(itemlist) && i != item :: i in itemlist
      ensures |itemlist| == |old(itemlist)| - 1
      ensures forall c, k | c in world ::
        c.Amount(k) == old(c.Amount(k)) - if c == this then Of(item.Picture(), k) else 0
    {
      var index := GetThingIndex(item);
      ghost var was := Pictures(itemlist);
      forall k: Kind
        ensures Sum(was, k) == Sum(was[..index] + was[index + 1..], k) + Of(item.Picture(), k)
      {
        SumOfParts(was, index, k);
      }
      itemlist := itemlist[..index] + itemlist[index + 1..];
      assert Pictures(itemlist) == was[..index] + was[index + 1..];
    }

    // Changes the count of an item in the list
    method SetCount(item: Item, newCount: nat, ghost world: set<Container>)
      requires Valid(world) && this in world && item in itemlist && item.kind.stackable && 1 <= newCount <= STACK
      modifies item`count
      ensures Valid(world) && item.count == newCount
      ensures forall c, k | c in world ::
        c.Amount(k) == old(c.Amount(k)) + if c == this && k == item.kind then newCount - old(item.count) else 0
    {
      var index := GetThingIndex(item);
      ghost var was := Pictures(itemlist);
      forall k: Kind
        ensures Sum(was[index := Pile(item.kind, newCount)], k) ==
          Sum(was, k) - Of(was[index], k) + Of(Pile(item.kind, newCount), k)
      {
        SumOfUpdate(was, index, Pile(item.kind, newCount), k);
      }
      assert Fits(item);
      item.count := newCount;
      assert Fits(item);
      assert Pictures(itemlist) == was[index := Pile(item.kind, newCount)];
    }

    // Puts an item in front of the list
    method PushFront(item: Item, ghost world: set<Container>)
      requires Valid(world) && this in world && Fits(item) && (item.container != null ==> item.container in world)
      requires forall c | c in world :: item !in c.itemlist
      modifies `itemlist
      ensures Valid(world) && itemlist == [item] + old(itemlist)
      ensures forall c, k | c in world ::
        c.Amount(k) == old(c.Amount(k)) + if c == this then Of(item.Picture(), k) else 0
    {
      ghost var was := Pictures(itemlist);
      itemlist := [item] + itemlist;
      assert Pictures(itemlist) == [item.Picture()] + was;
      assert ([item.Picture()] + was)[1..] == was;
      NoRepeatsInFront(item, old(itemlist));
    }

    method RemoveThing(item: Item, m: nat, ghost world: set<Container>)
      requires Valid(world) && this in world && item in itemlist && 1 <= m && (item.kind.stackable ==> m <= item.count)
      modifies this, item
      ensures Valid(world) && (forall i | i in itemlist :: i in old(itemlist))
      ensures forall i | i in old(itemlist) && i != item :: i in itemlist
      ensures item !in itemlist <==> !item.kind.stackable || m == old(item.count)
      ensures item.count == old(item.count) || item in itemlist
      ensures parent == old(parent)
      ensures forall c, k | c in world ::
        c.Amount(k) ==
        old(c.Amount(k)) - if c == this && k == item.kind then (if item.kind.stackable then m else 1) else 0
    {
      assert Fits(item);
      if item.kind.stackable && m != item.count {
        SetCount(item, item.count - m, world);
      } else {
        TakeOut(item, world);
      }
    }

    method AddThing(index: int, item: Item, ghost world: set<Container>)
      requires Valid(world) && this in world && Fits(item) && (item.container != null ==> item.container in world)
      requires forall c | c in world :: item !in c.itemlist
      modifies `itemlist
      ensures Valid(world) && itemlist == if index >= capacity then old(itemlist) else [item] + old(itemlist)
      ensures forall c, k | c in world ::
        c.Amount(k) == old(c.Amount(k)) + if c == this && index < capacity then Of(item.Picture(), k) else 0
    {
      if index >= capacity {
        return;
      }
      PushFront(item, world);
    }
  }

  datatype Flags = Flags(noLimit: bool, ignoreAutoStack: bool)

  // A container, an index in it, and the item that lies there
  datatype Landing = Landing(dest: Container, index: int, toItem: Item?)

  predicate CanMerge(t: Item, item: Item)
    reads t
  {
    t.kind == item.kind && t.count < STACK
  }

  // ---------- Containers that share no item ----------

  function Items(world: set<Container>): set<Item>
    reads world
  {
    set c, i | c in world && i in c.itemlist :: i
  }

  // Between one item and a full stack; what does not stack comes one at a time, and
  // containers do not stack.
  predicate Fits(i: Item)
    reads i
  {
    1 <= i.count <= STACK && (!i.kind.stackable ==> i.count == 1) && (i.container != null ==> !i.kind.stackable)
  }

  // How many more items the stack could hold
  function Room(i: Item): nat
    reads i
  {
    if i.count < STACK then STACK - i.count else 0
  }

  // An item lies in one container at most, in one place.
  ghost predicate Valid(world: set<Container>)
    reads world, Items(world)
  {
    (forall c | c in world :: NoRepeats(c.itemlist) && (c.parent != null ==> c.parent in world)) &&
    (forall c, d, i | c in world && d in world && i in c.itemlist && i in d.itemlist :: c == d) &&
    (forall c, i | c in world && i in c.itemlist :: Fits(i) && (i.container != null ==> i.container in world))
  }

  ghost function Book(c: Container, world: set<Container>): seq<Pile>
    requires c in world
    reads world, Items(world)
  {
    assert forall i | i in c.itemlist :: i in Items(world);
    Pictures(c.itemlist)
  }

  // What every container holds
  ghost function Books(world: set<Container>): map<Container, seq<Pile>>
    reads world, Items(world)
  {
    map c | c in world :: Book(c, world)
  }

  // So many items of the kind have left one container, so many have arrived in the other,
  // and nothing else has changed in number.
  ghost predicate Moved(was: map<Container, seq<Pile>>, after: map<Container, seq<Pile>>, fromCylinder: Container,
    dest: Container, kind: Kind, left: nat, arrived: nat)
  {
    was.Keys == after.Keys &&
    forall c, k | c in was ::
      Sum(after[c], k) == Sum(was[c], k) + (if c == dest && k == kind then arrived else 0) -
      if c == fromCylinder && k == kind then left else 0
  }

  // What a move has come to: whether it went through, the container it went to and at
  // which index, how many items left the source and how many arrived
  datatype Result = Result(ok: bool, dest: Container, index: int, left: nat, arrived: nat)

  // ---------- The move as it can be foretold ----------

  datatype Route = Route(landing: Landing, flags: Flags)

  // A destination is in the world, its item is the one that lies there, and an index beyond the
  // capacity is kept only for an equal stack that lies there.
  ghost predicate Sane(l: Landing, item: Item, world: set<Container>)
    reads world
  {
    l.dest in world && (l.toItem != null ==> l.toItem in l.dest.itemlist) &&
    (l.dest.unlocked && 0 <= l.index < |l.dest.itemlist| ==> l.toItem == l.dest.itemlist[l.index]) &&
    (l.dest.unlocked && l.index >= l.dest.capacity ==>
       item.kind.stackable && 0 <= l.index < |l.dest.itemlist| && l.toItem == l.dest.itemlist[l.index] &&
       item.kind == l.toItem.kind)
  }

  lemma DestinationIsSane(c: Container, index: int, item: Item, flags: Flags, world: set<Container>)
    requires Valid(world) && c in world
    ensures var l := c.Destination(index, item, flags);
      Sane(l, item, world) && (l.dest != c ==> l.index == WHEREEVER && l.toItem == null)
  {
  }

  // Containers are followed until one keeps the item, or for sixteen layers; below the
  // first, flags no longer hold.
  ghost function Follow(c: Container, index: int, item: Item, flags: Flags, floorN: nat,
                        world: set<Container>): (r: Route)
    requires Valid(world) && c in world && floorN < MAX_LAYERS
    reads world, Items(world)
    ensures Sane(r.landing, item, world) && (r.flags.noLimit ==> flags.noLimit)
    decreases MAX_LAYERS - floorN
  {
    ItemsOf(c, world);
    DestinationIsSane(c, index, item, flags, world);
    var l := c.Destination(index, item, flags);
    if l.dest == c then Route(l, flags)
    else if floorN + 1 >= MAX_LAYERS then Route(l, Flags(false, false))
    else Follow(l.dest, l.index, item, Flags(false, false), floorN + 1, world)
  }

  // What is still to be followed once one container has answered
  ghost function FollowOn(c: Container, l: Landing, item: Item, flags: Flags, floorN: nat, world: set<Container>): Route
    requires Valid(world) && l.dest in world && floorN < MAX_LAYERS
    reads world, Items(world)
  {
    if l.dest == c then Route(l, flags)
    else if floorN + 1 >= MAX_LAYERS then Route(l, Flags(false, false))
    else Follow(l.dest, l.index, item, Flags(false, false), floorN + 1, world)
  }

  lemma FollowIs(c: Container, index: int, item: Item, flags: Flags, floorN: nat, world: set<Container>)
    requires Valid(world) && c in world && floorN < MAX_LAYERS
    ensures var l := c.Destination(index, item, flags);
      l.dest in world && (l.dest != c ==> l.index == WHEREEVER) &&
      Follow(c, index, item, flags, floorN, world) == FollowOn(c, l, item, flags, floorN, world)
  {
    DestinationIsSane(c, index, item, flags, world);
  }

  lemma ItemsOf(c: Container, world: set<Container>)
    requires c in world
    ensures forall i | i in c.itemlist :: i in Items(world)
  {
  }

  // What a caller asks: where to, which item, how many, with which flags; `accepts` answers
  // for what queryAdd looks at besides room and locks, `moveable` for what queryRemove looks
  // at besides counts.
  datatype Wish = Wish(toCylinder: Container, index: int, item: Item, count: nat, flags: Flags,
                       accepts: (int, nat) -> bool, moveable: bool)

  ghost predicate CanWish(wish: Wish, world: set<Container>)
    reads world, Items(world)
  {
    Valid(world) && wish.toCylinder in world && wish.index >= WHEREEVER
  }

  ghost function RouteOf(wish: Wish, world: set<Container>): Route
    requires CanWish(wish, world)
    reads world, Items(world)
  {
    Follow(wish.toCylinder, wish.index, wish.item, wish.flags, 0, world)
  }

  // How many pieces leave the source: none if a check fails or the item is there already
  ghost function Leaving(wish: Wish, world: set<Container>): nat
    requires CanWish(wish, world)
    reads world, Items(world), wish.item
  {
    var r := RouteOf(wish, world);
    var dest, index := r.landing.dest, r.landing.index;
    ItemsOf(dest, world);
    var max := dest.MaxCount(index, wish.item, wish.count, r.flags, wish.accepts);
    var m := if wish.item.kind.stackable then Min(wish.count, max) else max;
    if wish.item == r.landing.toItem || !dest.QueryAdd(index, wish.count, r.flags, wish.accepts) || m == 0 ||
      (wish.item.kind.stackable && m > wish.item.count) || !wish.moveable
    then 0
    else if wish.item.kind.stackable then m
    else 1
  }

  // Pieces vanish: limits are ignored in the container that the move leads to, the equal stack
  // found there lies beyond its capacity, and it cannot take all that leaves.
  ghost predicate Vanishes(wish: Wish, world: set<Container>)
    requires CanWish(wish, world)
    reads world, Items(world), wish.item
  {
    var r := RouteOf(wish, world);
    var dest, index := r.landing.dest, r.landing.index;
    ItemsOf(dest, world);
    r.flags.noLimit && dest.unlocked && index >= dest.capacity && Leaving(wish, world) > Room(dest.itemlist[index])
  }

  // How many do: all but what completes the stack
  ghost function Vanishing(wish: Wish, world: set<Container>): (n: nat)
    requires CanWish(wish, world)
    ensures n > 0 <==> Vanishes(wish, world)
    reads world, Items(world), wish.item
  {
    var l := RouteOf(wish, world).landing;
    ItemsOf(l.dest, world);
    if Vanishes(wish, world) then Leaving(wish, world) - Room(l.dest.itemlist[l.index]) else 0
  }

  // ---------- Where it goes, and how much, written out ----------

  // Within a container that is open, the search keeps what does not stack, or may not be
  // stacked, at the index asked for, and leads to the first equal stack that is not full.
  lemma DestinationExactly(c: Container, index: int, item: Item, flags: Flags)
    requires c.unlocked && index >= -1 && index != 254
    requires index < c.capacity && index != 255 && 0 <= index < |c.itemlist| ==> c.itemlist[index].container == null
    ensures var l := c.Destination(index, item, flags);
      var stacks := item.kind.stackable && !flags.ignoreAutoStack && item !in c.itemlist;
      l.dest == c &&
      (l.toItem == if 0 <= l.index < |c.itemlist| then c.itemlist[l.index] else null) &&
      if stacks && exists t :: t in c.itemlist && t.kind == item.kind && t.count < 100 then
        0 <= l.index < |c.itemlist| && l.toItem.kind == item.kind && l.toItem.count < 100 &&
        forall j | 0 <= j < l.index :: c.itemlist[j].kind != item.kind || c.itemlist[j].count >= 100
      else l.index == if index < c.capacity && index != 255 then index else -1
  {
    FirstStackIs(c, item, 0);
  }

  // A locked container keeps the search to itself; index 254 asks for the container around; and a
  // container that lies at the index is looked into.
  lemma DestinationElsewhere(c: Container, index: int, item: Item, flags: Flags)
    requires !c.unlocked || index == 254 || (0 <= index < |c.itemlist| && c.itemlist[index].container != null)
    requires c.unlocked && index != 254 ==> index < c.capacity && index != 255
    ensures var l := c.Destination(index, item, flags);
      l.toItem == null &&
      if !c.unlocked then l.dest == c && l.index == index
      else if index == 254 then l.index == -1 && l.dest == if c.parent == null then c else c.parent
      else l.index == -1 && l.dest == c.itemlist[index].container
  {
  }

  lemma {:induction false} FirstStackIs(c: Container, item: Item, n: nat)
    requires n <= |c.itemlist|
    ensures var r := c.FirstStack(item, n);
      forall j | n <= j < if r.Some? then r.value else |c.itemlist| ::
        c.itemlist[j] == item || c.itemlist[j].kind != item.kind || c.itemlist[j].count >= 100
    decreases |c.itemlist| - n
  {
    if n < |c.itemlist| {
      FirstStackIs(c, item, n + 1);
    }
  }

  // What each equal stack of a list lacks that is not full, but for the item itself
  function Lacks(s: seq<Item>, item: Item): seq<nat>
    reads s
  {
    if s == [] then []
    else
      (if s[0] != item && s[0].kind == item.kind && s[0].count < 100 then [100 - s[0].count] else []) +
      Lacks(s[1..], item)
  }

  lemma {:induction false} LacksNone(s: seq<Item>, item: Item)
    ensures Lacks(s, item) == [] <==> forall t | t in s && t != item && t.kind == item.kind :: t.count >= 100
  {
    if s != [] {
      LacksNone(s[1..], item);
      assert forall t :: t in s <==> t == s[0] || t in s[1..];
    }
  }

  // What they lack in all, of those that are admitted under their number, counted from `first`
  function Admitted(lacks: seq<nat>, accepts: (int, nat) -> bool, first: nat): nat {
    if lacks == [] then 0
    else (if accepts(first, lacks[0]) then lacks[0] else 0) + Admitted(lacks[1..], accepts, first + 1)
  }

  lemma AdmittedNext(n: nat, lacks: seq<nat>, accepts: (int, nat) -> bool, first: nat)
    ensures Admitted([n] + lacks, accepts, first) ==
      (if accepts(first, n) then n else 0) + Admitted(lacks, accepts, first + 1)
  {
    assert ([n] + lacks)[1..] == lacks;
  }

  lemma LacksNext(s: seq<Item>, item: Item, j: nat)
    requires j < |s|
    ensures var t, rest := s[j], Lacks(s[j + 1..], item);
      Lacks(s[j..], item) ==
      if t != item && t.kind == item.kind && t.count < 100 then [100 - t.count] + rest else rest
  {
    assert s[j..][1..] == s[j + 1..] && [] + Lacks(s[j + 1..], item) == Lacks(s[j + 1..], item);
  }

  lemma StackRoomNext(c: Container, item: Item, accepts: (int, nat) -> bool, flags: Flags, j: nat, slotIndex: nat)
    requires c.unlocked && j < |c.itemlist|
    ensures var t := c.itemlist[j];
      c.StackRoom(item, flags, accepts, j, slotIndex) ==
      if t != item && t.kind == item.kind && t.count < 100 then
        (if accepts(slotIndex, 100 - t.count) then 100 - t.count else 0) +
        c.StackRoom(item, flags, accepts, j + 1, slotIndex + 1)
      else c.StackRoom(item, flags, accepts, j + 1, slotIndex)
  {
  }

  lemma {:induction false} StackRoomIs(c: Container, item: Item, accepts: (int, nat) -> bool, flags: Flags, j: nat,
                                       slotIndex: nat, lacks: seq<nat>)
    requires c.unlocked && j <= |c.itemlist| && lacks == Lacks(c.itemlist[j..], item)
    ensures c.StackRoom(item, flags, accepts, j, slotIndex) == Admitted(lacks, accepts, slotIndex)
    decreases |c.itemlist| - j
  {
    if j < |c.itemlist| {
      var t, rest := c.itemlist[j], Lacks(c.itemlist[j + 1..], item);
      LacksNext(c.itemlist, item, j);
      StackRoomNext(c, item, accepts, flags, j, slotIndex);
      if t != item && t.kind == item.kind && t.count < 100 {
        AdmittedNext(100 - t.count, rest, accepts, slotIndex);
        StackRoomIs(c, item, accepts, flags, j + 1, slotIndex + 1, rest);
        assert lacks == [100 - t.count] + rest;
      } else {
        assert lacks == rest;
        StackRoomIs(c, item, accepts, flags, j + 1, slotIndex, rest);
      }
    }
  }

  // What the stacks that the index stands for can take: all unfinished ones, or the one that
  // lies there
  function StacksTake(c: Container, index: int, item: Item, accepts: (int, nat) -> bool): nat
    reads c, c.itemlist
  {
    if index == -1 then Admitted(Lacks(c.itemlist, item), accepts, 0)
    else if 0 <= index < |c.itemlist| && c.itemlist[index].kind == item.kind && c.itemlist[index].count < 100 &&
      accepts(index, 100 - c.itemlist[index].count)
    then 100 - c.itemlist[index].count
    else 0
  }

  // The checks of the container that the move leads to, and of the item
  ghost predicate LetsIn(wish: Wish, world: set<Container>)
    requires CanWish(wish, world)
    reads world, Items(world)
  {
    var r := RouteOf(wish, world);
    var dest, index := r.landing.dest, r.landing.index;
    dest.unlocked && wish.accepts(index, wish.count) && wish.item != r.landing.toItem && wish.moveable &&
    (index == -1 ==> r.flags.noLimit || |dest.itemlist| < dest.capacity)
  }

  // How many pieces may go in: as many as are asked for when limits are ignored, and otherwise
  // a hundred for every free place and what stacks can take; an item that does not stack needs
  // one free place.
  ghost predicate Leaves(wish: Wish, world: set<Container>, n: nat)
    requires CanWish(wish, world)
    reads world, Items(world), wish.item
  {
    var r := RouteOf(wish, world);
    var dest := r.landing.dest;
    ItemsOf(dest, world);
    var free := dest.capacity - |dest.itemlist|;
    if !LetsIn(wish, world) then n == 0
    else if !wish.item.kind.stackable then n == if r.flags.noLimit || free > 0 then 1 else 0
    else
      var most := 100 * (if free > 0 then free else 0) + StacksTake(dest, r.landing.index, wish.item, wish.accepts);
      var m := if r.flags.noLimit || wish.count <= most then wish.count else most;
      n == if m <= wish.item.count then m else 0
  }

  // Exactly so many leave.
  lemma LeavesExactly(wish: Wish, world: set<Container>)
    requires CanWish(wish, world)
    ensures Leaves(wish, world, Leaving(wish, world))
  {
    var r := RouteOf(wish, world);
    var dest := r.landing.dest;
    if dest.unlocked {
      assert dest.itemlist[0..] == dest.itemlist;
      StackRoomIs(dest, wish.item, wish.accepts, r.flags, 0, 0, Lacks(dest.itemlist, wish.item));
    }
  }

  // Into a container with a free place a stack goes as a whole, and so does what does not stack.
  lemma FreePlaceTakesAll(wish: Wish, world: set<Container>)
    requires CanWish(wish, world) && LetsIn(wish, world) && 1 <= wish.count <= 100 && wish.count <= wish.item.count
    requires var dest := RouteOf(wish, world).landing.dest; |dest.itemlist| < dest.capacity
    ensures Leaving(wish, world) == if wish.item.kind.stackable then wish.count else 1
  {
    LeavesExactly(wish, world);
  }

  // Into a full one without an unfinished equal stack nothing goes.
  lemma FullTakesNone(wish: Wish, world: set<Container>)
    requires CanWish(wish, world) && !wish.flags.noLimit
    requires var dest := RouteOf(wish, world).landing.dest;
      |dest.itemlist| >= dest.capacity &&
      forall t | t in dest.itemlist && t != wish.item :: t.kind != wish.item.kind || t.count >= 100
    ensures Leaving(wish, world) == 0
  {
    LeavesExactly(wish, world);
    var r := RouteOf(wish, world);
    assert Sane(r.landing, wish.item, world) && !r.flags.noLimit;
    LacksNone(r.landing.dest.itemlist, wish.item);
  }

  class Game {

    // One container is asked.
    method AskLayer(dest: Container, index: int, item: Item, flags: Flags, floorN: nat, ghost world: set<Container>)
      returns (landing: Landing)
      requires Valid(world) && dest in world && index >= WHEREEVER && floorN < MAX_LAYERS
      ensures Valid(world) && landing.dest in world && (landing.dest != dest ==> landing.index == WHEREEVER)
      ensures FollowOn(dest, landing, item, flags, floorN, world) ==
        old(Follow(dest, index, item, flags, floorN, world))
    {
      FollowIs(dest, index, item, flags, floorN, world);
      landing := dest.QueryDestination(index, item, flags);
    }

    // Follows the destination through containers until one keeps the item
    method FindDestination(toCylinder: Container, index: int, item: Item, flags: Flags, ghost world: set<Container>)
      returns (landing: Landing, newFlags: Flags)
      requires Valid(world) && toCylinder in world && index >= WHEREEVER
      ensures Route(landing, newFlags) == old(Follow(toCylinder, index, item, flags, 0, world))
    {
      var dest := toCylinder;
      newFlags := flags;
      var floorN := 0;
      landing := AskLayer(dest, index, item, newFlags, floorN, world);
      while landing.dest != dest
        invariant 0 <= floorN < MAX_LAYERS && Valid(world)
        invariant landing.dest in world && (landing.dest != dest ==> landing.index == WHEREEVER)
        invariant FollowOn(dest, landing, item, newFlags, floorN, world) ==
          old(Follow(toCylinder, index, item, flags, 0, world))
        decreases MAX_LAYERS - floorN
      {
        dest := landing.dest;
        newFlags := Flags(false, false);
        if floorN + 1 >= MAX_LAYERS {
          return;
        }
        floorN := floorN + 1;
        landing := AskLayer(dest, landing.index, item, newFlags, floorN, world);
      }
    }

    // The part of the stack that fits on what lies at the destination is put there.
    method MergeInto(dest: Container, toItem: Item?, kind: Kind, m: nat, ghost world: set<Container>) returns (n: nat)
      requires Valid(world) && dest in world && (toItem != null ==> toItem in dest.itemlist)
      requires kind.stackable
      modifies Items(world)
      ensures Valid(world) && n <= m
      ensures n == if toItem != null && toItem.kind == kind then Min(old(Room(toItem)), m) else 0
      ensures forall c, k | c in world ::
        c.Amount(k) == old(c.Amount(k)) + if c == dest && k == kind then n else 0
    {
      n := 0;
      if toItem != null && kind == toItem.kind {
        assert Fits(toItem);
        n := Min(STACK - toItem.count, m);
        assert n == Min(Room(toItem), m);
        if n > 0 {
          dest.SetCount(toItem, toItem.count + n, world);
        }
      }
    }

    // The rest becomes a stack of its own.
    method AddRest(dest: Container, index: int, item: Item, newCount: nat, ghost world: set<Container>)
      requires Valid(world) && dest in world && item.kind.stackable && newCount <= STACK
      modifies dest`itemlist
      ensures Valid(world)
      ensures forall c, k | c in world ::
        c.Amount(k) == old(c.Amount(k)) + if c == dest && k == item.kind && index < dest.capacity then newCount else 0
    {
      if newCount > 0 {
        var moveItem := item.Clone(newCount);
        dest.AddThing(index, moveItem, world);
      }
    }

    // Merge and addition of a stack
    method PutStack(dest: Container, index: int, item: Item, toItem: Item?, m: nat, ghost world: set<Container>)
      returns (arrived: nat)
      requires Valid(world) && dest in world && item.kind.stackable && m <= STACK
      requires toItem != null ==> toItem in dest.itemlist
      modifies dest`itemlist, Items(world)
      ensures Valid(world)
      ensures arrived ==
        if index < dest.capacity then m
        else if toItem != null && toItem.kind == item.kind then Min(old(Room(toItem)), m)
        else 0
      ensures forall c, k | c in world ::
        c.Amount(k) == old(c.Amount(k)) + if c == dest && k == item.kind then arrived else 0
    {
      var n := MergeInto(dest, toItem, item.kind, m, world);
      AddRest(dest, index, item, m - n, world);
      arrived := if index < dest.capacity then m else n;
    }

    // The removal, the merge, and the addition
    method Transfer(fromCylinder: Container, dest: Container, index: int, item: Item, toItem: Item?, m: nat,
                    ghost world: set<Container>)
      returns (arrived: nat)
      requires Valid(world) && fromCylinder in world && dest in world && item in fromCylinder.itemlist
      requires toItem != null ==> toItem in dest.itemlist && toItem != item
      requires 1 <= m && (item.kind.stackable ==> m <= item.count)
      modifies world, Items(world)
      ensures Valid(world)
      ensures arrived ==
        if index < dest.capacity then (if item.kind.stackable then m else 1)
        else if item.kind.stackable && toItem != null && toItem.kind == item.kind then Min(old(Room(toItem)), m)
        else 0
      ensures Moved(old(Books(world)), Books(world), fromCylinder, dest, item.kind,
        if item.kind.stackable then m else 1, arrived)
    {
      assert Fits(item);
      fromCylinder.RemoveThing(item, m, world);
      if item.kind.stackable {
        arrived := PutStack(dest, index, item, toItem, m, world);
      } else {
        dest.AddThing(index, item, world);
        arrived := if index < dest.capacity then 1 else 0;
      }
      assert forall c, k | c in world :: Sum(Books(world)[c], k) == c.Amount(k);
    }

    // The checks of internalMoveItem, and how many items may move
    method Check(dest: Container, index: int, item: Item, count: nat, flags: Flags, accepts: (int, nat) -> bool,
                 moveable: bool)
      returns (ok: bool, m: nat)
      ensures var max := old(dest.MaxCount(index, item, count, flags, accepts));
        var wanted := if item.kind.stackable then Min(count, max) else max;
        ok == (dest.QueryAdd(index, count, flags, accepts) && wanted != 0 &&
               (item.kind.stackable ==> wanted <= item.count) && moveable) &&
        (ok ==> m == wanted)
    {
      ok, m := false, 0;
      if !dest.QueryAdd(index, count, flags, accepts) {
        return;
      }
      var enough, maxQueryCount := dest.QueryMaxCount(index, item, count, flags, accepts);
      if !enough && maxQueryCount == 0 {
        return;
      }
      m := if item.kind.stackable then Min(count, maxQueryCount) else maxQueryCount;
      ok := m != 0 && (item.kind.stackable ==> m <= item.count) && moveable;
    }

    // Where the move goes, whether it goes through, and how many pieces may move
    method Plan(wish: Wish, ghost world: set<Container>) returns (landing: Landing, ok: bool, m: nat)
      requires CanWish(wish, world)
      ensures Valid(world) && landing == old(RouteOf(wish, world)).landing
      ensures ok <==> old(Leaving(wish, world)) > 0
      ensures ok ==> landing.toItem != wish.item && landing.dest.unlocked && 1 <= m
      ensures ok ==> old(Leaving(wish, world)) == if wish.item.kind.stackable then m else 1
      ensures ok && wish.item.kind.stackable ==> m <= wish.item.count
    {
      ghost var r := RouteOf(wish, world);
      ghost var max := r.landing.dest.MaxCount(r.landing.index, wish.item, wish.count, r.flags, wish.accepts);
      var newFlags: Flags;
      landing, newFlags := FindDestination(wish.toCylinder, wish.index, wish.item, wish.flags, world);
      if wish.item == landing.toItem {
        return landing, false, 0;
      }
      assert landing.dest.MaxCount(landing.index, wish.item, wish.count, newFlags, wish.accepts) == max;
      ok, m := Check(landing.dest, landing.index, wish.item, wish.count, newFlags, wish.accepts, wish.moveable);
    }

    // As many pieces leave as can be foretold; all of them arrive, unless pieces vanish, and
    // then only what completes the stack does. No other container changes.
    method InternalMoveItem(fromCylinder: Container, wish: Wish, ghost world: set<Container>) returns (r: Result)
      requires CanWish(wish, world) && fromCylinder in world && wish.item in fromCylinder.itemlist
      modifies world, Items(world)
      ensures Valid(world)
      ensures var l := old(RouteOf(wish, world)).landing; r.dest == l.dest && r.index == l.index
      ensures r.left == old(Leaving(wish, world)) && r.arrived == r.left - old(Vanishing(wish, world))
      ensures Moved(old(Books(world)), Books(world), fromCylinder, r.dest, wish.item.kind, r.left, r.arrived)
    {
      ghost var books := Books(world);
      var item := wish.item;
      LimitsKeepRoom(wish, world);
      var landing, ok, m := Plan(wish, world);
      var dest, index := landing.dest, landing.index;
      NothingMoved(books, fromCylinder, dest, item.kind);
      assert Books(world) == books;
      if !ok {
        return Result(false, dest, index, 0, 0);
      }
      var arrived := Transfer(fromCylinder, dest, index, item, landing.toItem, m, world);
      r := Result(true, dest, index, if item.kind.stackable then m else 1, arrived);
    }
  }

  // Beyond the capacity, what can take less than all that leaves does so without limits only.
  lemma LimitsKeepRoom(wish: Wish, world: set<Container>)
    requires CanWish(wish, world)
    ensures Sane(RouteOf(wish, world).landing, wish.item, world)
    ensures var l := RouteOf(wish, world).landing;
      l.dest.unlocked && l.index >= l.dest.capacity && Leaving(wish, world) > 0 ==>
        wish.item.kind.stackable && l.toItem != null && l.toItem.kind == wish.item.kind &&
        l.toItem in l.dest.itemlist &&
        Vanishing(wish, world) == Leaving(wish, world) - Min(Room(l.toItem), Leaving(wish, world))
    ensures var l := RouteOf(wish, world).landing;
      !(l.dest.unlocked && l.index >= l.dest.capacity) ==> Vanishing(wish, world) == 0
  {
    CountsFit(RouteOf(wish, world).landing.dest, world);
  }

  // A world in which all of a stack is to move, with limits ignored, into a container for
  // one item that holds two, the second an unfinished equal stack
  method VanishingWish() returns (wish: Wish, source: Container, ghost world: set<Container>)
    ensures CanWish(wish, world) && source in world && wish.item in source.itemlist
    ensures Leaving(wish, world) == 80 && Vanishing(wish, world) == 30
  {
    var gold := Kind(2148, true, 0);
    var full := new Item(Kind(2386, false, 0), 1);
    var fifty := new Item(gold, 50);
    var eighty := new Item(gold, 80);
    var dest := new Container(1, true, null);
    source := new Container(8, true, null);
    dest.itemlist := [full, fifty];
    source.itemlist := [eighty];
    world := {dest, source};
    wish := Wish(dest, WHEREEVER, eighty, 80, Flags(true, false), (_: int, _: nat) => true, true);
    SmallWorld(dest, source, full, fifty, eighty);
    WishVanishes(wish, full, fifty, world);
  }

  lemma SmallWorld(dest: Container, source: Container, full: Item, fifty: Item, eighty: Item)
    requires dest != source && dest.parent == null && source.parent == null
    requires dest.itemlist == [full, fifty] && source.itemlist == [eighty] && full != fifty && eighty !in [full, fifty]
    requires Fits(full) && Fits(fifty) && Fits(eighty)
    requires full.container == null && fifty.container == null && eighty.container == null
    ensures Valid({dest, source})
  {
  }

  lemma WishVanishes(wish: Wish, full: Item, fifty: Item, world: set<Container>)
    requires CanWish(wish, world) && wish.index == WHEREEVER && wish.flags == Flags(true, false) && wish.moveable
    requires var dest := wish.toCylinder;
      dest.unlocked && dest.capacity == 1 && dest.itemlist == [full, fifty] && wish.accepts(1, 80)
    requires wish.item !in [full, fifty] && wish.item.kind == fifty.kind != full.kind && fifty.kind.stackable
    requires fifty.count == 50 && wish.item.count == 80 == wish.count
    ensures Leaving(wish, world) == 80 && Vanishing(wish, world) == 30
  {
    var dest := wish.toCylinder;
    assert dest.FirstStack(wish.item, 1) == Some(1);
    assert dest.FirstStack(wish.item, 0) == Some(1);
    assert dest.Destination(WHEREEVER, wish.item, wish.flags) == Landing(dest, 1, fifty);
    assert RouteOf(wish, world) == Route(Landing(dest, 1, fifty), wish.flags);
  }

  lemma NothingMoved(books: map<Container, seq<Pile>>, fromCylinder: Container, dest: Container, kind: Kind)
    ensures Moved(books, books, fromCylinder, dest, kind, 0, 0)
  {
  }

  lemma CountsFit(c: Container, world: set<Container>)
    requires Valid(world) && c in world
    ensures forall i | i in c.itemlist :: i.count <= STACK
  {
    forall i | i in c.itemlist
      ensures i.count <= STACK
    {
      assert Fits(i);
    }
  }
}
