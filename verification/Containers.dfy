// Containers inside containers (container.h, container.cpp). The first two parts work on
// a picture of all items as plain values: the weights cached in it, and the order of the
// iterator. The third part is the class whose methods change the items in place.
module Containers {

  import opened Sequences

  // What the items table says about an item id: its weight, whether it stacks, and whether
  // a subtype is its count, not a fluid or a number of charges
  datatype Catalog = Catalog(weight: nat -> nat, stackable: nat -> bool, counted: nat -> bool)

  // An empty stack weighs as much as one item.
  function StackWeight(unit: nat, count: nat): nat {
    if count == 0 then unit else unit * count
  }

  datatype Cell = Cell(kids: seq<Item>, parent: Item?, own: int, total: int, container: bool)

  type World = map<Item, Cell>

  // ---------- Shape: a forest ----------

  // Parent pointers and item lists fit together around x.
  ghost predicate Linked(w: World, x: Item)
    requires x in w
  {
    var c := w[x];
    (c.parent != null ==> c.parent in w && x in w[c.parent].kids) &&
    (forall k | k in c.kids :: k in w && w[k].parent == x) &&
    NoRepeats(c.kids) &&
    (!c.container ==> c.kids == [] && c.total == 0)
  }

  // Heights that fall from container to content show that nothing contains itself.
  ghost predicate Placed(w: World, h: map<Item, nat>, bound: nat, x: Item)
    requires x in w && h.Keys == w.Keys && Linked(w, x)
  {
    h[x] < bound && (w[x].parent != null ==> h[x] < h[w[x].parent])
  }

  ghost predicate Forest(w: World, h: map<Item, nat>, bound: nat) {
    h.Keys == w.Keys &&
    forall x {:trigger Linked(w, x)} | x in w :: Linked(w, x) && Placed(w, h, bound, x)
  }

  lemma KidBelow(w: World, h: map<Item, nat>, bound: nat, x: Item, k: Item)
    requires Forest(w, h, bound) && x in w && k in w[x].kids
    ensures k in w && w[k].parent == x && h[k] < h[x]
  {
    assert Linked(w, x);
    assert Linked(w, k);
  }

  // x and every container around it
  ghost function Chain(w: World, h: map<Item, nat>, bound: nat, x: Item): set<Item>
    requires Forest(w, h, bound) && x in w
    decreases bound - h[x]
  {
    assert Linked(w, x);
    {x} + if w[x].parent == null then {} else Chain(w, h, bound, w[x].parent)
  }

  lemma {:induction false} ChainFacts(w: World, h: map<Item, nat>, bound: nat, x: Item)
    requires Forest(w, h, bound) && x in w
    ensures x in Chain(w, h, bound, x) && Chain(w, h, bound, x) <= w.Keys
    ensures forall a {:trigger h[a]} | a in Chain(w, h, bound, x) :: h[x] <= h[a] && (h[a] == h[x] ==> a == x)
    ensures forall a {:trigger w[a].parent} | a in Chain(w, h, bound, x) && w[a].parent != null ::
      w[a].parent in Chain(w, h, bound, x)
    decreases bound - h[x]
  {
    assert Linked(w, x);
    if w[x].parent != null {
      ChainFacts(w, h, bound, w[x].parent);
    }
  }

  // Above x, some child of every container on the chain is on it.
  lemma {:induction false} ChainHasKid(w: World, h: map<Item, nat>, bound: nat, x: Item, a: Item) returns (k: Item)
    requires Forest(w, h, bound) && x in w && a in Chain(w, h, bound, x) && a != x
    ensures a in w && k in w[a].kids && k in Chain(w, h, bound, x)
    decreases bound - h[x]
  {
    assert Linked(w, x);
    k := x;
    if a != w[x].parent {
      k := ChainHasKid(w, h, bound, w[x].parent, a);
    }
  }

  // The items on a chain lie on one line: two children of the same container cannot both be on it.
  lemma {:induction false} OneKidOnChain(w: World, h: map<Item, nat>, bound: nat, x: Item, k: Item, l: Item)
    requires Forest(w, h, bound) && x in w
    requires k in Chain(w, h, bound, x) && l in Chain(w, h, bound, x)
    requires k in w && l in w && w[k].parent != null && w[k].parent == w[l].parent
    ensures k == l
    decreases bound - h[x]
  {
    assert Linked(w, x) && Linked(w, k) && Linked(w, l);
    var p := w[x].parent;
    if k != x && l != x {
      OneKidOnChain(w, h, bound, p, k, l);
    } else if k != l {
      ChainFacts(w, h, bound, p);
    }
  }

  // ---------- Weights ----------

  function Weight(w: World, x: Item): int
    requires x in w
  {
    w[x].own + w[x].total
  }

  function Sum(w: World, s: seq<Item>): int
    requires forall k | k in s :: k in w
  {
    if s == [] then 0 else Weight(w, s[0]) + Sum(w, s[1..])
  }

  // The cached total of x is the weight of what it holds.
  ghost predicate Weighed(w: World, x: Item)
    requires x in w && Linked(w, x)
  {
    w[x].total == Sum(w, w[x].kids)
  }

  ghost predicate Good(w: World, h: map<Item, nat>, bound: nat) {
    Forest(w, h, bound) && forall x {:trigger Weighed(w, x)} | x in w :: Linked(w, x) && Weighed(w, x)
  }

  // updateItemWeight: diff is added all along a chain.
  function Bump(w: World, chain: set<Item>, diff: int): World {
    map x | x in w :: if x in chain then w[x].(total := w[x].total + diff) else w[x]
  }

  lemma {:induction false} SumSame(w: World, v: World, s: seq<Item>)
    requires forall k | k in s :: k in w && k in v && Weight(w, k) == Weight(v, k)
    ensures Sum(w, s) == Sum(v, s)
  {
    if s != [] {
      SumSame(w, v, s[1..]);
    }
  }

  lemma {:induction false} SumAppend(w: World, a: seq<Item>, b: seq<Item>)
    requires forall k | k in a + b :: k in w
    ensures (forall k | k in a :: k in w) && (forall k | k in b :: k in w)
    ensures Sum(w, a + b) == Sum(w, a) + Sum(w, b)
  {
    assert forall k | k in a :: k in a + b;
    assert forall k | k in b :: k in a + b;
    if a == [] {
      assert a + b == b;
    } else {
      assert (a + b)[1..] == a[1..] + b;
      SumAppend(w, a[1..], b);
    }
  }

  // One item of the list weighs diff more, the others the same.
  lemma {:induction false} SumOneChanged(w: World, v: World, s: seq<Item>, i: nat, diff: int)
    requires i < |s| && forall k | k in s :: k in w && k in v
    requires Weight(v, s[i]) == Weight(w, s[i]) + diff
    requires forall j | 0 <= j < |s| && j != i :: Weight(v, s[j]) == Weight(w, s[j])
    ensures Sum(v, s) == Sum(w, s) + diff
  {
    if i == 0 {
      forall k | k in s[1..]
        ensures k in w && k in v && Weight(w, k) == Weight(v, k)
      {
        var j :| 0 <= j < |s[1..]| && s[1..][j] == k;
        assert s[j + 1] == k;
      }
      SumSame(w, v, s[1..]);
    } else {
      SumOneChanged(w, v, s[1..], i - 1, diff);
    }
  }

  // If only c's total is off, by diff, then adding diff along c's chain puts every
  // total right.
  lemma BumpMakesGood(w: World, h: map<Item, nat>, bound: nat, c: Item, diff: int)
    requires Forest(w, h, bound) && c in w && w[c].container
    requires forall x {:trigger Weighed(w, x)} | x in w && x != c :: Linked(w, x) && Weighed(w, x)
    requires Linked(w, c) && w[c].total + diff == Sum(w, w[c].kids)
    ensures Good(Bump(w, Chain(w, h, bound, c), diff), h, bound)
  {
    var chain := Chain(w, h, bound, c);
    var v := Bump(w, chain, diff);
    ChainFacts(w, h, bound, c);
    assert v.Keys == w.Keys;
    forall x | x in v
      ensures Linked(v, x) && Weighed(v, x) && Placed(v, h, bound, x)
    {
      assert Linked(w, x);
      BumpAt(w, h, bound, c, diff, x);
    }
  }

  // Above c, exactly one child of each container on the chain is on it too.
  lemma KidOnChain(w: World, h: map<Item, nat>, bound: nat, c: Item, x: Item) returns (i: nat)
    requires Forest(w, h, bound) && c in w && x in Chain(w, h, bound, c) && x != c && x in w
    ensures i < |w[x].kids| && w[x].kids[i] in Chain(w, h, bound, c)
    ensures forall j | 0 <= j < |w[x].kids| && j != i :: w[x].kids[j] !in Chain(w, h, bound, c)
  {
    var kids := w[x].kids;
    assert Linked(w, x);
    ChainFacts(w, h, bound, c);
    var k := ChainHasKid(w, h, bound, c, x);
    i :| 0 <= i < |kids| && kids[i] == k;
    forall j | 0 <= j < |kids| && j != i
      ensures kids[j] !in Chain(w, h, bound, c)
    {
      assert kids[j] in kids && kids[i] in kids;
      if kids[j] in Chain(w, h, bound, c) {
        OneKidOnChain(w, h, bound, c, k, kids[j]);
      }
    }
  }

  lemma NoKidOnChain(w: World, h: map<Item, nat>, bound: nat, c: Item, x: Item)
    requires Forest(w, h, bound) && c in w && x in w && (x == c || x !in Chain(w, h, bound, c))
    ensures forall k | k in w[x].kids :: k !in Chain(w, h, bound, c)
  {
    assert Linked(w, x);
    ChainFacts(w, h, bound, c);
    forall k | k in w[x].kids
      ensures k !in Chain(w, h, bound, c)
    {
      KidBelow(w, h, bound, x, k);
    }
  }

  lemma BumpLinked(w: World, chain: set<Item>, diff: int, x: Item)
    requires x in w && Linked(w, x) && (x in chain ==> w[x].container)
    ensures Linked(Bump(w, chain, diff), x)
  {
  }

  lemma BumpAt(w: World, h: map<Item, nat>, bound: nat, c: Item, diff: int, x: Item)
    requires Forest(w, h, bound) && c in w && w[c].container && x in w
    requires x != c ==> Linked(w, x) && Weighed(w, x)
    requires Linked(w, c) && w[c].total + diff == Sum(w, w[c].kids)
    ensures var v := Bump(w, Chain(w, h, bound, c), diff);
      Linked(v, x) && Weighed(v, x)
  {
    var chain := Chain(w, h, bound, c);
    var v := Bump(w, chain, diff);
    var kids := w[x].kids;
    assert Linked(w, x);
    if x in chain && x != c {
      var i := KidOnChain(w, h, bound, c, x);
      assert w[x].container;
      BumpLinked(w, chain, diff, x);
      assert forall j | 0 <= j < |kids| :: kids[j] in kids;
      SumOneChanged(w, v, kids, i, diff);
    } else {
      NoKidOnChain(w, h, bound, c, x);
      BumpLinked(w, chain, diff, x);
      SumSame(w, v, kids);
      assert c in chain;
    }
  }

  // ---------- The totals are the recursive weights ----------

  ghost predicate Below(w: World, h: map<Item, nat>, s: seq<Item>, limit: nat) {
    forall k | k in s :: k in w && k in h && h[k] < limit
  }

  lemma KidsBelow(w: World, h: map<Item, nat>, bound: nat, x: Item)
    requires Forest(w, h, bound) && x in w
    ensures Below(w, h, w[x].kids, h[x])
  {
    forall k | k in w[x].kids
      ensures k in w && k in h && h[k] < h[x]
    {
      KidBelow(w, h, bound, x, k);
    }
  }

  // The weight of x with everything in it, computed from scratch
  ghost function DeepWeight(w: World, h: map<Item, nat>, bound: nat, x: Item): int
    requires Forest(w, h, bound) && x in w
    decreases h[x], 1, 0
  {
    KidsBelow(w, h, bound, x);
    w[x].own + DeepSum(w, h, bound, w[x].kids, h[x])
  }

  ghost function DeepSum(w: World, h: map<Item, nat>, bound: nat, s: seq<Item>, limit: nat): int
    requires Forest(w, h, bound) && Below(w, h, s, limit)
    decreases limit, 0, |s|
  {
    if s == [] then 0 else DeepWeight(w, h, bound, s[0]) + DeepSum(w, h, bound, s[1..], limit)
  }

  // In a good world the weight the cache gives is the recursive weight.
  lemma {:induction false} WeightIsDeep(w: World, h: map<Item, nat>, bound: nat, x: Item)
    requires Good(w, h, bound) && x in w
    ensures Weight(w, x) == DeepWeight(w, h, bound, x)
    decreases h[x], 1, 0
  {
    assert Linked(w, x) && Weighed(w, x);
    KidsBelow(w, h, bound, x);
    SumIsDeep(w, h, bound, w[x].kids, h[x]);
  }

  lemma {:induction false} SumIsDeep(w: World, h: map<Item, nat>, bound: nat, s: seq<Item>, limit: nat)
    requires Good(w, h, bound) && Below(w, h, s, limit)
    ensures Sum(w, s) == DeepSum(w, h, bound, s, limit)
    decreases limit, 0, |s|
  {
    if s != [] {
      WeightIsDeep(w, h, bound, s[0]);
      SumIsDeep(w, h, bound, s[1..], limit);
    }
  }

  // ---------- What the operations do to the picture ----------

  // x, in no container before, becomes the i-th item of c.
  function Inserted(w: World, c: Item, x: Item, i: nat): World
    requires c in w && x in w && i <= |w[c].kids|
  {
    w[x := w[x].(parent := c)][c := w[c].(kids := w[c].kids[..i] + [x] + w[c].kids[i..])]
  }

  // The i-th item leaves c.
  function TakenOut(w: World, c: Item, i: nat): World
    requires c in w && i < |w[c].kids| && w[c].kids[i] in w
  {
    var x := w[c].kids[i];
    w[x := w[x].(parent := null)][c := w[c].(kids := w[c].kids[..i] + w[c].kids[i + 1..])]
  }

  // The totals on the chain change by diff, and no others.
  ghost predicate TotalsRise(w: World, v: World, chain: set<Item>, diff: int) {
    v.Keys == w.Keys && forall a | a in w :: v[a].total == w[a].total + if a in chain then diff else 0
  }

  // x's own weight becomes n.
  function Reweighed(w: World, x: Item, n: int): World
    requires x in w
  {
    w[x := w[x].(own := n)]
  }

  // Room for x below c: c and everything around it move up past x.
  function Raised(h: map<Item, nat>, chain: set<Item>, lift: nat): map<Item, nat> {
    map a | a in h :: if a in chain then h[a] + lift else h[a]
  }

  lemma InsertDistinct(s: seq<Item>, x: Item, i: nat)
    requires NoRepeats(s) && x !in s && i <= |s|
    ensures NoRepeats(s[..i] + [x] + s[i..])
    ensures forall k :: k in s[..i] + [x] + s[i..] <==> k == x || k in s
  {
    var t := s[..i] + [x] + s[i..];
    assert s == s[..i] + s[i..];
    forall a, b | 0 <= a < b < |t|
      ensures t[a] != t[b]
    {
      var a' := if a < i then a else a - 1;
      var b' := if b < i then b else b - 1;
      assert a != i ==> t[a] == s[a'];
      assert b != i ==> t[b] == s[b'];
    }
  }

  lemma RemoveDistinct(s: seq<Item>, i: nat)
    requires NoRepeats(s) && i < |s|
    ensures NoRepeats(s[..i] + s[i + 1..])
    ensures forall k :: k in s[..i] + s[i + 1..] <==> k in s && k != s[i]
  {
    var t := s[..i] + s[i + 1..];
    assert forall a | 0 <= a < |t| :: t[a] == s[if a < i then a else a + 1];
    forall k | k in s && k != s[i]
      ensures k in t
    {
      var a :| 0 <= a < |s| && s[a] == k;
      assert t[if a < i then a else a - 1] == k;
    }
  }

  lemma InsertedLinked(w: World, c: Item, x: Item, i: nat, y: Item)
    requires c in w && x in w && c != x && y in w && w[c].container && i <= |w[c].kids| && w[x].parent == null
    requires Linked(w, c) && Linked(w, x) && Linked(w, y)
    ensures Linked(Inserted(w, c, x, i), y)
  {
    assert x !in w[c].kids;
    InsertDistinct(w[c].kids, x, i);
    var v := Inserted(w, c, x, i);
    var p := v[y].parent;
    assert v[y].kids == if y == c then w[c].kids[..i] + [x] + w[c].kids[i..] else w[y].kids;
    forall k | k in v[y].kids
      ensures k in v && v[k].parent == y
    {
      if k != x {
        assert k in w[y].kids && w[k].parent == y;
      }
    }
  }

  lemma RaisedPlaced(w: World, h: map<Item, nat>, bound: nat, c: Item, x: Item, i: nat, y: Item)
    requires Forest(w, h, bound) && c in w && x in w && i <= |w[c].kids| && c != x && y in w
    requires x !in Chain(w, h, bound, c)
    requires Linked(Inserted(w, c, x, i), y)
    ensures var g := Raised(h, Chain(w, h, bound, c), h[x] + 1);
      g.Keys == w.Keys == Inserted(w, c, x, i).Keys && Placed(Inserted(w, c, x, i), g, bound + h[x] + 1, y)
  {
    var chain := Chain(w, h, bound, c);
    var v, g := Inserted(w, c, x, i), Raised(h, chain, h[x] + 1);
    assert Linked(w, y);
    ChainFacts(w, h, bound, c);
    assert v.Keys == w.Keys && g.Keys == h.Keys;
    assert v[y].parent == if y == x then c else w[y].parent;
  }

  // Adding: the guard is that x is in no container and c is not x nor inside x.
  lemma InsertedIsForest(w: World, h: map<Item, nat>, bound: nat, c: Item, x: Item, i: nat)
    requires Forest(w, h, bound) && c in w && x in w && w[c].container && i <= |w[c].kids|
    requires w[x].parent == null && x !in Chain(w, h, bound, c)
    ensures Forest(Inserted(w, c, x, i), Raised(h, Chain(w, h, bound, c), h[x] + 1), bound + h[x] + 1)
  {
    ChainFacts(w, h, bound, c);
    assert Linked(w, c) && Linked(w, x);
    var v := Inserted(w, c, x, i);
    assert v.Keys == w.Keys;
    assert Raised(h, Chain(w, h, bound, c), h[x] + 1).Keys == w.Keys;
    forall y | y in v
      ensures Linked(v, y) && Placed(v, Raised(h, Chain(w, h, bound, c), h[x] + 1), bound + h[x] + 1, y)
    {
      assert Linked(w, y);
      InsertedLinked(w, c, x, i, y);
      RaisedPlaced(w, h, bound, c, x, i, y);
    }
  }

  lemma TakenOutLinked(w: World, c: Item, i: nat, y: Item)
    requires c in w && y in w && i < |w[c].kids| && w[c].kids[i] in w && w[c].kids[i] != c
    requires Linked(w, c) && Linked(w, w[c].kids[i]) && Linked(w, y)
    ensures Linked(TakenOut(w, c, i), y)
  {
    var x, v := w[c].kids[i], TakenOut(w, c, i);
    RemoveDistinct(w[c].kids, i);
    assert x in w[c].kids && w[x].parent == c;
    assert v[y].kids == if y == c then w[c].kids[..i] + w[c].kids[i + 1..] else w[y].kids;
    forall k | k in v[y].kids
      ensures k in v && v[k].parent == y
    {
      assert k in w[y].kids && w[k].parent == y;
    }
  }

  lemma TakenOutIsForest(w: World, h: map<Item, nat>, bound: nat, c: Item, i: nat)
    requires Forest(w, h, bound) && c in w && i < |w[c].kids|
    ensures w[c].kids[i] in w && Forest(TakenOut(w, c, i), h, bound)
  {
    assert Linked(w, c);
    var x := w[c].kids[i];
    KidBelow(w, h, bound, c, x);
    assert Linked(w, x);
    var v := TakenOut(w, c, i);
    assert v.Keys == w.Keys;
    forall y | y in v
      ensures Linked(v, y) && Placed(v, h, bound, y)
    {
      assert Linked(w, y);
      TakenOutLinked(w, c, i, y);
      assert v[y].parent == if y == x then null else w[y].parent;
    }
  }

  // ---------- What every operation keeps ----------

  // addThing, addItemBack, internalAddThing: insert, then add the weight along the chain.
  function Added(w: World, c: Item, x: Item, i: nat, chain: set<Item>): World
    requires c in w && x in w && i <= |w[c].kids|
  {
    Bump(Inserted(w, c, x, i), chain, Weight(w, x))
  }

  // A list that holds the same items as before, with the same weights, still adds up.
  lemma StillWeighed(w: World, v: World, y: Item)
    requires y in w && y in v && Linked(w, y) && Weighed(w, y) && Linked(v, y)
    requires v[y].kids == w[y].kids && v[y].total == w[y].total
    requires forall k | k in w[y].kids :: k in v && Weight(v, k) == Weight(w, k)
    ensures Weighed(v, y)
  {
    SumSame(w, v, w[y].kids);
  }

  lemma InsertedWeight(w: World, c: Item, x: Item, i: nat, k: Item)
    requires c in w && x in w && i <= |w[c].kids| && k in w
    ensures k in Inserted(w, c, x, i) && Weight(Inserted(w, c, x, i), k) == Weight(w, k)
  {
  }

  lemma InsertedSum(w: World, c: Item, x: Item, i: nat)
    requires c in w && x in w && i <= |w[c].kids| && c != x && Linked(w, c)
    requires Linked(Inserted(w, c, x, i), c)
    ensures var v := Inserted(w, c, x, i);
      Sum(v, v[c].kids) == Sum(w, w[c].kids) + Weight(w, x)
  {
    var v, kids := Inserted(w, c, x, i), w[c].kids;
    var s := kids[..i] + [x] + kids[i..];
    forall k | k in s
      ensures k in w && k in v && Weight(w, k) == Weight(v, k)
    {
      assert k == x || k in kids;
      InsertedWeight(w, c, x, i, k);
    }
    SumWith(w, kids, x, i);
    SumSame(w, v, s);
  }

  lemma SumWith(w: World, s: seq<Item>, x: Item, i: nat)
    requires i <= |s| && x in w && forall k | k in s :: k in w
    ensures Sum(w, s[..i] + [x] + s[i..]) == Sum(w, s) + Weight(w, x)
  {
    SumAppend(w, s[..i], s[i..]);
    SumAppend(w, s[..i] + [x], s[i..]);
    SumAppend(w, s[..i], [x]);
    assert s == s[..i] + s[i..];
  }

  lemma SumWithout(w: World, s: seq<Item>, i: nat)
    requires i < |s| && forall k | k in s :: k in w
    ensures Sum(w, s[..i] + s[i + 1..]) == Sum(w, s) - Weight(w, s[i])
  {
    SumAppend(w, s[..i] + [s[i]], s[i + 1..]);
    SumAppend(w, s[..i], [s[i]]);
    SumAppend(w, s[..i], s[i + 1..]);
    assert s == s[..i] + [s[i]] + s[i + 1..];
  }

  // From w to v only c's contents changed; every other list holds the same weights.
  ghost predicate OnlyAt(w: World, v: World, c: Item) {
    v.Keys == w.Keys &&
    forall y {:trigger v[y]} | y in w && y != c ::
      v[y].kids == w[y].kids && v[y].total == w[y].total &&
      forall k | k in w[y].kids :: k in w && Weight(v, k) == Weight(w, k)
  }

  lemma OffAtOneIsGood(w: World, h: map<Item, nat>, bound: nat,
                       v: World, g: map<Item, nat>, b: nat, c: Item, diff: int)
    requires Good(w, h, bound) && Forest(v, g, b) && OnlyAt(w, v, c) && c in w && v[c].container
    requires Linked(v, c) && v[c].total + diff == Sum(v, v[c].kids)
    ensures Good(Bump(v, Chain(v, g, b, c), diff), g, b)
  {
    forall y | y in v && y != c
      ensures Linked(v, y) && Weighed(v, y)
    {
      assert Linked(v, y) && Linked(w, y) && Weighed(w, y);
      StillWeighed(w, v, y);
    }
    BumpMakesGood(v, g, b, c, diff);
  }

  lemma AddedIsGood(w: World, h: map<Item, nat>, bound: nat, c: Item, x: Item, i: nat)
    requires Good(w, h, bound) && c in w && x in w && w[c].container && i <= |w[c].kids|
    requires w[x].parent == null && x !in Chain(w, h, bound, c)
    ensures var chain := Chain(w, h, bound, c);
      Good(Added(w, c, x, i, chain), Raised(h, chain, h[x] + 1), bound + h[x] + 1)
  {
    var v, g, b := Inserted(w, c, x, i), Raised(h, Chain(w, h, bound, c), h[x] + 1), bound + h[x] + 1;
    InsertedIsForest(w, h, bound, c, x, i);
    SameChain(w, h, bound, v, g, b, c, x);
    assert Linked(w, c) && Weighed(w, c) && Linked(v, c);
    InsertedSum(w, c, x, i);
    InsertedOnlyAt(w, c, x, i);
    OffAtOneIsGood(w, h, bound, v, g, b, c, Weight(w, x));
  }

  lemma InsertedOnlyAt(w: World, c: Item, x: Item, i: nat)
    requires c in w && x in w && i <= |w[c].kids| && c != x
    requires forall y {:trigger Linked(w, y)} | y in w :: Linked(w, y)
    ensures OnlyAt(w, Inserted(w, c, x, i), c)
  {
    var v := Inserted(w, c, x, i);
    assert v.Keys == w.Keys;
    forall y | y in w && y != c
      ensures forall k | k in w[y].kids :: k in w && Weight(v, k) == Weight(w, k)
    {
      assert Linked(w, y);
    }
  }

  // A change of x's own parent leaves the chain of c alone when x is not on it.
  lemma {:induction false} SameChain(w: World, h: map<Item, nat>, bound: nat,
                                     v: World, g: map<Item, nat>, b: nat, c: Item, x: Item)
    requires Forest(w, h, bound) && Forest(v, g, b) && c in w && w.Keys == v.Keys
    requires x !in Chain(w, h, bound, c)
    requires forall y | y in w && y != x :: v[y].parent == w[y].parent
    ensures Chain(v, g, b, c) == Chain(w, h, bound, c)
    decreases bound - h[c]
  {
    assert Linked(w, c) && Linked(v, c);
    if w[c].parent != null {
      SameChain(w, h, bound, v, g, b, w[c].parent, x);
    }
  }

  // removeThing of a whole item
  function Removed(w: World, c: Item, i: nat, chain: set<Item>): World
    requires c in w && i < |w[c].kids| && w[c].kids[i] in w
  {
    Bump(TakenOut(w, c, i), chain, -Weight(w, w[c].kids[i]))
  }

  lemma TakenOutSum(w: World, c: Item, i: nat)
    requires c in w && i < |w[c].kids| && Linked(w, c) && w[c].kids[i] != c
    ensures w[c].kids[i] in w
    ensures var v := TakenOut(w, c, i);
      (forall k | k in v[c].kids :: k in v) && Sum(v, v[c].kids) == Sum(w, w[c].kids) - Weight(w, w[c].kids[i])
  {
    var kids, v := w[c].kids, TakenOut(w, c, i);
    assert kids[i] in kids;
    assert forall k | k in v[c].kids :: k in kids;
    SumWithout(w, kids, i);
    SumSame(w, v, v[c].kids);
  }

  lemma TakenOutOnlyAt(w: World, c: Item, i: nat)
    requires c in w && i < |w[c].kids| && w[c].kids[i] in w && c != w[c].kids[i]
    requires forall y {:trigger Linked(w, y)} | y in w :: Linked(w, y)
    ensures OnlyAt(w, TakenOut(w, c, i), c)
  {
    var v := TakenOut(w, c, i);
    assert v.Keys == w.Keys;
    forall y | y in w && y != c
      ensures forall k | k in w[y].kids :: k in w && Weight(v, k) == Weight(w, k)
    {
      assert Linked(w, y);
    }
  }

  lemma KidOffChain(w: World, h: map<Item, nat>, bound: nat, c: Item, x: Item)
    requires Forest(w, h, bound) && c in w && x in w[c].kids
    ensures x in w && x !in Chain(w, h, bound, c)
  {
    KidBelow(w, h, bound, c, x);
    ChainFacts(w, h, bound, c);
  }

  lemma TakenOutChain(w: World, h: map<Item, nat>, bound: nat, c: Item, i: nat)
    requires Forest(w, h, bound) && c in w && i < |w[c].kids|
    ensures w[c].kids[i] in w && w[c].kids[i] != c && Forest(TakenOut(w, c, i), h, bound)
    ensures Chain(TakenOut(w, c, i), h, bound, c) == Chain(w, h, bound, c)
  {
    var x := w[c].kids[i];
    KidOffChain(w, h, bound, c, x);
    KidBelow(w, h, bound, c, x);
    TakenOutIsForest(w, h, bound, c, i);
    SameChain(w, h, bound, TakenOut(w, c, i), h, bound, c, x);
  }

  lemma RemovedIs(w: World, c: Item, i: nat, diff: int, chain: set<Item>)
    requires c in w && i < |w[c].kids| && w[c].kids[i] in w && diff == -Weight(w, w[c].kids[i])
    ensures Removed(w, c, i, chain) == Bump(TakenOut(w, c, i), chain, diff)
  {
  }

  lemma RemovedIsGood(w: World, h: map<Item, nat>, bound: nat, c: Item, i: nat)
    requires Good(w, h, bound) && c in w && i < |w[c].kids|
    ensures w[c].kids[i] in w && Good(Removed(w, c, i, Chain(w, h, bound, c)), h, bound)
  {
    TakenOutChain(w, h, bound, c, i);
    var v, diff := TakenOut(w, c, i), -Weight(w, w[c].kids[i]);
    assert Linked(w, c) && Weighed(w, c) && Linked(v, c);
    TakenOutSum(w, c, i);
    TakenOutOnlyAt(w, c, i);
    RemovedIs(w, c, i, diff, Chain(w, h, bound, c));
    OffAtOneIsGood(w, h, bound, v, h, bound, c, diff);
  }

  // updateThing, and removeThing of a part of a stack: x in c now weighs n itself.
  function Updated(w: World, c: Item, x: Item, n: int, chain: set<Item>): World
    requires c in w && x in w
  {
    Bump(Reweighed(w, x, n), chain, n - w[x].own)
  }

  lemma ReweighedIsForest(w: World, h: map<Item, nat>, bound: nat, x: Item, n: int)
    requires Forest(w, h, bound) && x in w
    ensures Forest(Reweighed(w, x, n), h, bound)
  {
    var v := Reweighed(w, x, n);
    assert v.Keys == w.Keys;
    forall y | y in v
      ensures Linked(v, y) && Placed(v, h, bound, y)
    {
      assert Linked(w, y);
    }
  }

  lemma ReweighedSum(w: World, c: Item, i: nat, n: int)
    requires c in w && i < |w[c].kids| && (forall y {:trigger Linked(w, y)} | y in w :: Linked(w, y))
    ensures w[c].kids[i] in w
    ensures var x := w[c].kids[i];
      var v := Reweighed(w, x, n);
      OnlyAt(w, v, c) && (forall k | k in v[c].kids :: k in v) && Sum(v, v[c].kids) == Sum(w, w[c].kids) + n - w[x].own
  {
    var kids := w[c].kids;
    var x := kids[i];
    assert Linked(w, c) && x in kids;
    var v := Reweighed(w, x, n);
    assert v.Keys == w.Keys;
    assert forall j | 0 <= j < |kids| :: kids[j] in kids;
    SumOneChanged(w, v, kids, i, n - w[x].own);
    forall y | y in w && y != c
      ensures forall k | k in w[y].kids :: k in w && Weight(v, k) == Weight(w, k)
    {
      assert Linked(w, y);
    }
  }

  lemma ReweighedChain(w: World, h: map<Item, nat>, bound: nat, c: Item, i: nat, n: int)
    requires Forest(w, h, bound) && c in w && i < |w[c].kids|
    ensures w[c].kids[i] in w && Forest(Reweighed(w, w[c].kids[i], n), h, bound)
    ensures Chain(Reweighed(w, w[c].kids[i], n), h, bound, c) == Chain(w, h, bound, c)
  {
    KidOffChain(w, h, bound, c, w[c].kids[i]);
    ReweighedIsForest(w, h, bound, w[c].kids[i], n);
    SameChain(w, h, bound, Reweighed(w, w[c].kids[i], n), h, bound, c, w[c].kids[i]);
  }

  lemma UpdatedIsGood(w: World, h: map<Item, nat>, bound: nat, c: Item, i: nat, n: int)
    requires Good(w, h, bound) && c in w && i < |w[c].kids|
    ensures w[c].kids[i] in w && Good(Updated(w, c, w[c].kids[i], n, Chain(w, h, bound, c)), h, bound)
  {
    ReweighedSum(w, c, i, n);
    var x := w[c].kids[i];
    var v := Reweighed(w, x, n);
    ReweighedChain(w, h, bound, c, i, n);
    assert Linked(w, c) && Weighed(w, c) && Linked(v, c);
    UpdatedIs(w, c, x, n, n - w[x].own, Chain(w, h, bound, c));
    OffAtOneIsGood(w, h, bound, v, h, bound, c, n - w[x].own);
  }

  lemma UpdatedIs(w: World, c: Item, x: Item, n: int, diff: int, chain: set<Item>)
    requires c in w && x in w && diff == n - w[x].own
    ensures Updated(w, c, x, n, chain) == Bump(Reweighed(w, x, n), chain, diff)
  {
  }

  lemma UpdatedTotals(w: World, c: Item, x: Item, n: int, chain: set<Item>, diff: int)
    requires c in w && x in w && diff == n - w[x].own
    ensures TotalsRise(w, Updated(w, c, x, n, chain), chain, diff)
  {
  }

  // replaceThing: the i-th item makes room for x.
  function Replaced(w: World, c: Item, i: nat, x: Item, chain: set<Item>): World
    requires c in w && i < |w[c].kids| && w[c].kids[i] in w && x in w && c != x && x != w[c].kids[i] &&
      w[c].kids[i] != c
  {
    Added(Removed(w, c, i, chain), c, x, i, chain)
  }

  lemma RemovedChain(w: World, h: map<Item, nat>, bound: nat, c: Item, i: nat)
    requires Good(w, h, bound) && c in w && i < |w[c].kids|
    ensures w[c].kids[i] in w && Good(Removed(w, c, i, Chain(w, h, bound, c)), h, bound)
    ensures Chain(Removed(w, c, i, Chain(w, h, bound, c)), h, bound, c) == Chain(w, h, bound, c)
  {
    KidOffChain(w, h, bound, c, w[c].kids[i]);
    RemovedIsGood(w, h, bound, c, i);
    var v := Removed(w, c, i, Chain(w, h, bound, c));
    assert v.Keys == w.Keys;
    SameChain(w, h, bound, v, h, bound, c, w[c].kids[i]);
  }

  lemma ReplacedIsGood(w: World, h: map<Item, nat>, bound: nat, c: Item, i: nat, x: Item)
    requires Good(w, h, bound) && c in w && i < |w[c].kids| && x in w && w[c].container
    requires w[x].parent == null && x !in Chain(w, h, bound, c)
    ensures w[c].kids[i] in w && c != x && x != w[c].kids[i] && w[c].kids[i] != c
    ensures var chain := Chain(w, h, bound, c);
      Good(Replaced(w, c, i, x, chain), Raised(h, chain, h[x] + 1), bound + h[x] + 1)
  {
    var chain := Chain(w, h, bound, c);
    ChainFacts(w, h, bound, c);
    assert Linked(w, c);
    KidBelow(w, h, bound, c, w[c].kids[i]);
    RemovedChain(w, h, bound, c, i);
    AddedIsGood(Removed(w, c, i, chain), h, bound, c, x, i);
  }

  // ---------- Every run ----------

  datatype Shaped = Shaped(world: World, heights: map<Item, nat>, bound: nat)

  // addThing, addItemBack and internalAddThing; removeThing; replaceThing; updateThing
  // and the removal of a part of a stack
  datatype Op = Add(c: Item, x: Item, i: nat) | Remove(c: Item, i: nat) | Replace(c: Item, i: nat, x: Item) |
                Update(c: Item, i: nat, own: int)

  ghost predicate IsGood(s: Shaped) { Good(s.world, s.heights, s.bound) }

  ghost predicate CanDo(s: Shaped, op: Op)
    requires IsGood(s)
  {
    op.c in s.world && s.world[op.c].container &&
    match op
    case Add(c, x, i) => i <= |s.world[c].kids| && MayEnter(s, c, x)
    case Remove(c, i) => i < |s.world[c].kids|
    case Replace(c, i, x) => i < |s.world[c].kids| && MayEnter(s, c, x)
    case Update(c, i, _) => i < |s.world[c].kids|
  }

  // x is in no container, and c is neither x nor inside x: queryAdd's guard
  ghost predicate MayEnter(s: Shaped, c: Item, x: Item)
    requires IsGood(s) && c in s.world
  {
    x in s.world && s.world[x].parent == null && x !in Chain(s.world, s.heights, s.bound, c)
  }

  ghost function Do(s: Shaped, op: Op): (t: Shaped)
    requires IsGood(s) && CanDo(s, op)
    ensures IsGood(t)
  {
    var w := s.world;
    var chain := Chain(w, s.heights, s.bound, op.c);
    match op
    case Add(c, x, i) =>
      AddedIsGood(w, s.heights, s.bound, c, x, i);
      Shaped(Added(w, c, x, i, chain), Raised(s.heights, chain, s.heights[x] + 1), s.bound + s.heights[x] + 1)
    case Remove(c, i) =>
      RemovedIsGood(w, s.heights, s.bound, c, i);
      s.(world := Removed(w, c, i, chain))
    case Replace(c, i, x) =>
      ReplacedIsGood(w, s.heights, s.bound, c, i, x);
      Shaped(Replaced(w, c, i, x, chain), Raised(s.heights, chain, s.heights[x] + 1), s.bound + s.heights[x] + 1)
    case Update(c, i, own) =>
      UpdatedIsGood(w, s.heights, s.bound, c, i, own);
      s.(world := Updated(w, c, w[c].kids[i], own, chain))
  }

  // Goodness is asked of the start only; every operation is shown to keep it.
  ghost predicate CanRun(s: Shaped, ops: seq<Op>)
    requires IsGood(s)
    decreases |ops|
  {
    ops == [] || (CanDo(s, ops[0]) && CanRun(Do(s, ops[0]), ops[1..]))
  }

  ghost function Run(s: Shaped, ops: seq<Op>): Shaped
    requires IsGood(s) && CanRun(s, ops)
    decreases |ops|
  {
    if ops == [] then s else Run(Do(s, ops[0]), ops[1..])
  }

  // Whatever is added, removed, replaced and updated, at any depth, nothing comes to
  // contain itself, and the weight that the cache gives for any item is its recursive weight.
  lemma {:induction false} RunStaysGood(s: Shaped, ops: seq<Op>)
    requires IsGood(s) && CanRun(s, ops)
    ensures var t := Run(s, ops);
      Forest(t.world, t.heights, t.bound) &&
      forall x | x in t.world :: Weight(t.world, x) == DeepWeight(t.world, t.heights, t.bound, x)
    decreases |ops|
  {
    if ops == [] {
      forall x | x in s.world
        ensures Weight(s.world, x) == DeepWeight(s.world, s.heights, s.bound, x)
      {
        WeightIsDeep(s.world, s.heights, s.bound, x);
      }
    } else {
      RunStaysGood(Do(s, ops[0]), ops[1..]);
    }
  }

  // ==================== The iterator ====================

  // ---------- Recursive counts ----------

  function One(w: World, x: Item, containersOnly: bool): nat
    requires x in w
  {
    if containersOnly && !w[x].container then 0 else 1
  }

  // x and everything inside it, or only the containers among them
  ghost function DeepCount(w: World, h: map<Item, nat>, bound: nat, x: Item, containersOnly: bool): nat
    requires Forest(w, h, bound) && x in w
    decreases h[x], 1, 0
  {
    KidsBelow(w, h, bound, x);
    One(w, x, containersOnly) + DeepTotal(w, h, bound, w[x].kids, h[x], containersOnly)
  }

  ghost function DeepTotal(w: World, h: map<Item, nat>, bound: nat, s: seq<Item>, limit: nat, containersOnly: bool): nat
    requires Forest(w, h, bound) && Below(w, h, s, limit)
    decreases limit, 0, |s|
  {
    if s == [] then 0
    else DeepCount(w, h, bound, s[0], containersOnly) + DeepTotal(w, h, bound, s[1..], limit, containersOnly)
  }

  lemma {:induction false} DeepTotalLimit(w: World, h: map<Item, nat>, bound: nat, s: seq<Item>, a: nat, b: nat,
                                          only: bool)
    requires Forest(w, h, bound) && Below(w, h, s, a) && Below(w, h, s, b)
    ensures DeepTotal(w, h, bound, s, a, only) == DeepTotal(w, h, bound, s, b, only)
    decreases |s|
  {
    if s != [] {
      DeepTotalLimit(w, h, bound, s[1..], a, b, only);
    }
  }

  lemma {:induction false} DeepTotalAppend(w: World, h: map<Item, nat>, bound: nat, s: seq<Item>, t: seq<Item>,
                                           limit: nat, only: bool)
    requires Forest(w, h, bound) && Below(w, h, s, limit) && Below(w, h, t, limit)
    ensures DeepTotal(w, h, bound, s + t, limit, only) ==
            DeepTotal(w, h, bound, s, limit, only) + DeepTotal(w, h, bound, t, limit, only)
    decreases |s|
  {
    if s == [] {
      assert s + t == t;
    } else {
      assert (s + t)[1..] == s[1..] + t;
      DeepTotalAppend(w, h, bound, s[1..], t, limit, only);
    }
  }

  // ---------- The walk ----------

  // One advance: the first waiting item is visited, and its content waits behind the rest.
  function Advanced(w: World, s: seq<Item>): seq<Item>
    requires s != [] && s[0] in w
  {
    s[1..] + w[s[0]].kids
  }

  lemma AdvancedTotal(w: World, h: map<Item, nat>, bound: nat, s: seq<Item>, only: bool)
    requires Forest(w, h, bound) && Below(w, h, s, bound) && s != []
    ensures Below(w, h, Advanced(w, s), bound)
    ensures DeepTotal(w, h, bound, s, bound, only) ==
            One(w, s[0], only) + DeepTotal(w, h, bound, Advanced(w, s), bound, only)
  {
    var kids := w[s[0]].kids;
    KidsBelow(w, h, bound, s[0]);
    assert Below(w, h, kids, bound);
    DeepTotalLimit(w, h, bound, kids, h[s[0]], bound, only);
    DeepTotalAppend(w, h, bound, s[1..], kids, bound, only);
  }

  // Everything visited from the waiting items s on
  ghost function Walk(w: World, h: map<Item, nat>, bound: nat, s: seq<Item>): seq<Item>
    requires Forest(w, h, bound) && Below(w, h, s, bound)
    decreases DeepTotal(w, h, bound, s, bound, false)
  {
    if s == [] then []
    else
      AdvancedTotal(w, h, bound, s, false);
      [s[0]] + Walk(w, h, bound, Advanced(w, s))
  }

  function Tally(w: World, s: seq<Item>, containersOnly: bool): nat
    requires forall k | k in s :: k in w
  {
    if s == [] then 0 else One(w, s[0], containersOnly) + Tally(w, s[1..], containersOnly)
  }

  // Counting along the walk gives the recursive counts.
  lemma {:induction false} WalkCounts(w: World, h: map<Item, nat>, bound: nat, s: seq<Item>, only: bool)
    requires Forest(w, h, bound) && Below(w, h, s, bound)
    ensures forall k | k in Walk(w, h, bound, s) :: k in w
    ensures Tally(w, Walk(w, h, bound, s), only) == DeepTotal(w, h, bound, s, bound, only)
    decreases DeepTotal(w, h, bound, s, bound, false)
  {
    if s != [] {
      AdvancedTotal(w, h, bound, s, false);
      AdvancedTotal(w, h, bound, s, only);
      WalkCounts(w, h, bound, Advanced(w, s), only);
      var rest := Walk(w, h, bound, Advanced(w, s));
      assert ([s[0]] + rest)[1..] == rest;
    }
  }

  // The items' own weights, added up
  function OwnSum(w: World, s: seq<Item>): int
    requires forall k | k in s :: k in w
  {
    if s == [] then 0 else w[s[0]].own + OwnSum(w, s[1..])
  }

  // Adding up the items' own weights along the walk gives the cached weights.
  lemma {:induction false} WalkWeighs(w: World, h: map<Item, nat>, bound: nat, s: seq<Item>)
    requires Good(w, h, bound) && Below(w, h, s, bound)
    ensures forall k | k in Walk(w, h, bound, s) :: k in w
    ensures OwnSum(w, Walk(w, h, bound, s)) == Sum(w, s)
    decreases DeepTotal(w, h, bound, s, bound, false)
  {
    if s != [] {
      AdvancedTotal(w, h, bound, s, false);
      WalkWeighs(w, h, bound, Advanced(w, s));
      var rest := Walk(w, h, bound, Advanced(w, s));
      assert ([s[0]] + rest)[1..] == rest;
      SumAppend(w, s[1..], w[s[0]].kids);
      assert Linked(w, s[0]) && Weighed(w, s[0]);
    }
  }

  // ---------- Level order ----------

  // The contents of all items of one level, in order
  function NextLevel(w: World, s: seq<Item>): seq<Item>
    requires forall k | k in s :: k in w
  {
    if s == [] then [] else w[s[0]].kids + NextLevel(w, s[1..])
  }

  lemma {:induction false} NextLevelAppend(w: World, s: seq<Item>, t: seq<Item>)
    requires forall k | k in s + t :: k in w
    ensures (forall k | k in s :: k in w) && (forall k | k in t :: k in w)
    ensures NextLevel(w, s + t) == NextLevel(w, s) + NextLevel(w, t)
  {
    assert forall k | k in s :: k in s + t;
    assert forall k | k in t :: k in s + t;
    if s == [] {
      assert s + t == t;
    } else {
      assert (s + t)[1..] == s[1..] + t;
      NextLevelAppend(w, s[1..], t);
    }
  }

  lemma {:induction false} NextLevelBelow(w: World, h: map<Item, nat>, bound: nat, s: seq<Item>, limit: nat)
    requires Forest(w, h, bound) && Below(w, h, s, limit)
    ensures forall k | k in NextLevel(w, s) :: k in w && h[k] + 1 < limit
    decreases |s|
  {
    if s != [] {
      KidsBelow(w, h, bound, s[0]);
      NextLevelBelow(w, h, bound, s[1..], limit);
    }
  }

  ghost function LevelOrder(w: World, h: map<Item, nat>, bound: nat, s: seq<Item>, limit: nat): seq<Item>
    requires Forest(w, h, bound) && Below(w, h, s, limit)
    decreases limit
  {
    if s == [] then []
    else
      NextLevelBelow(w, h, bound, s, limit);
      assert s[0] in s;
      s + LevelOrder(w, h, bound, NextLevel(w, s), limit - 1)
  }

  // Advancing puts the contents of the first item behind everything that waits.
  lemma AdvancedBehind(w: World, a: seq<Item>, b: seq<Item>)
    requires a != [] && forall x | x in a :: x in w
    ensures Advanced(w, a + b) == a[1..] + (b + w[a[0]].kids)
    ensures (b + w[a[0]].kids) + NextLevel(w, a[1..]) == b + NextLevel(w, a)
  {
    var kids, deeper := w[a[0]].kids, NextLevel(w, a[1..]);
    TailOfConcat(a, b);
    Regroup(a[1..], b, kids);
    Regroup(b, kids, deeper);
  }

  lemma TailOfConcat(a: seq<Item>, b: seq<Item>)
    requires a != []
    ensures (a + b)[0] == a[0] && (a + b)[1..] == a[1..] + b
  {
  }

  lemma Regroup(a: seq<Item>, b: seq<Item>, c: seq<Item>)
    ensures a + b + c == a + (b + c)
  {
  }

  lemma Rejoin(a: seq<Item>, b: seq<Item>)
    requires a != []
    ensures [a[0]] + (a[1..] + b) == a + b
  {
  }

  // The walk finishes the waiting items a before anything that comes behind them.
  lemma {:induction false} WalkPasses(w: World, h: map<Item, nat>, bound: nat, a: seq<Item>, b: seq<Item>)
    requires Forest(w, h, bound) && Below(w, h, a, bound) && Below(w, h, b, bound)
    ensures Below(w, h, b + NextLevel(w, a), bound)
    ensures Walk(w, h, bound, a + b) == a + Walk(w, h, bound, b + NextLevel(w, a))
    decreases |a|
  {
    NextLevelBelow(w, h, bound, a, bound);
    if a == [] {
      assert a + b == b && b + NextLevel(w, a) == b;
    } else {
      var kids := w[a[0]].kids;
      KidsBelow(w, h, bound, a[0]);
      assert Below(w, h, b + kids, bound);
      AdvancedTotal(w, h, bound, a + b, false);
      AdvancedBehind(w, a, b);
      WalkPasses(w, h, bound, a[1..], b + kids);
      Rejoin(a, Walk(w, h, bound, (b + kids) + NextLevel(w, a[1..])));
    }
  }

  // The walk goes level by level.
  lemma {:induction false} WalkIsLevelOrder(w: World, h: map<Item, nat>, bound: nat, s: seq<Item>, limit: nat)
    requires Forest(w, h, bound) && Below(w, h, s, limit) && limit <= bound
    ensures Walk(w, h, bound, s) == LevelOrder(w, h, bound, s, limit)
    decreases limit
  {
    if s != [] {
      NextLevelBelow(w, h, bound, s, limit);
      assert s[0] in s;
      WalkPasses(w, h, bound, s, []);
      assert s + [] == s && [] + NextLevel(w, s) == NextLevel(w, s);
      WalkIsLevelOrder(w, h, bound, NextLevel(w, s), limit - 1);
    }
  }

  // ---------- Each item once, and exactly what lies inside ----------

  ghost predicate Inside(w: World, h: map<Item, nat>, bound: nat, y: Item, s: seq<Item>)
    requires Forest(w, h, bound) && y in w
  {
    exists k | k in s :: k in Chain(w, h, bound, y)
  }

  // What lies inside one of "s" is the first of them, or lies inside what is waiting after it.
  lemma InsideAdvanced(w: World, h: map<Item, nat>, bound: nat, y: Item, s: seq<Item>)
    requires Forest(w, h, bound) && Below(w, h, s, bound) && s != [] && y in w
    ensures Inside(w, h, bound, y, s) <==> y == s[0] || Inside(w, h, bound, y, Advanced(w, s))
  {
    var x, t := s[0], Advanced(w, s);
    ChainFacts(w, h, bound, y);
    if Inside(w, h, bound, y, s) && y != x {
      var k :| k in s && k in Chain(w, h, bound, y);
      if k in s[1..] {
        assert k in t;
      } else {
        assert k == x;
        var l := ChainHasKid(w, h, bound, y, x);
        assert l in t;
      }
    }
    if Inside(w, h, bound, y, t) {
      var k :| k in t && k in Chain(w, h, bound, y);
      if k in s[1..] {
        assert k in s;
      } else {
        KidBelow(w, h, bound, x, k);
        assert w[k].parent == x && x in s;
      }
    }
    if y == x {
      assert x in s;
    }
  }

  lemma {:induction false} WalkVisits(w: World, h: map<Item, nat>, bound: nat, s: seq<Item>, y: Item)
    requires Forest(w, h, bound) && Below(w, h, s, bound) && y in w
    ensures y in Walk(w, h, bound, s) <==> Inside(w, h, bound, y, s)
    decreases DeepTotal(w, h, bound, s, bound, false)
  {
    if s != [] {
      AdvancedTotal(w, h, bound, s, false);
      InsideAdvanced(w, h, bound, y, s);
      WalkVisits(w, h, bound, Advanced(w, s), y);
    }
  }

  // No item of s lies inside another one.
  ghost predicate Apart(w: World, h: map<Item, nat>, bound: nat, s: seq<Item>)
    requires Forest(w, h, bound) && Below(w, h, s, bound)
  {
    forall i, j | 0 <= i < |s| && 0 <= j < |s| && i != j :: s[i] !in Chain(w, h, bound, s[j])
  }

  lemma KidsApart(w: World, h: map<Item, nat>, bound: nat, x: Item)
    requires Forest(w, h, bound) && x in w
    ensures Below(w, h, w[x].kids, bound) && Apart(w, h, bound, w[x].kids)
  {
    KidsBelow(w, h, bound, x);
    assert Linked(w, x);
    var kids := w[x].kids;
    forall i, j | 0 <= i < |kids| && 0 <= j < |kids| && i != j
      ensures kids[i] !in Chain(w, h, bound, kids[j])
    {
      KidBelow(w, h, bound, x, kids[i]);
      KidBelow(w, h, bound, x, kids[j]);
      ChainFacts(w, h, bound, kids[j]);
      if kids[i] in Chain(w, h, bound, kids[j]) {
        OneKidOnChain(w, h, bound, kids[j], kids[i], kids[j]);
      }
    }
  }

  lemma AdvancedApart(w: World, h: map<Item, nat>, bound: nat, s: seq<Item>)
    requires Forest(w, h, bound) && Below(w, h, s, bound) && s != [] && Apart(w, h, bound, s)
    ensures Below(w, h, Advanced(w, s), bound) && Apart(w, h, bound, Advanced(w, s))
    ensures !Inside(w, h, bound, s[0], Advanced(w, s))
  {
    var x, t, n := s[0], Advanced(w, s), |s| - 1;
    AdvancedTotal(w, h, bound, s, false);
    KidsApart(w, h, bound, x);
    ChainFacts(w, h, bound, x);
    forall k | k in t
      ensures k !in Chain(w, h, bound, x)
    {
      if k in s[1..] {
        var i :| 0 <= i < n && s[1..][i] == k;
        assert s[i + 1] == k;
      } else {
        KidOffChain(w, h, bound, x, k);
      }
    }
    forall i, j | 0 <= i < |t| && 0 <= j < |t| && i != j
      ensures t[i] !in Chain(w, h, bound, t[j])
    {
      if i < n && j < n {
        assert t[i] == s[i + 1] && t[j] == s[j + 1];
      } else if n <= i && n <= j {
        assert t[i] == w[x].kids[i - n] && t[j] == w[x].kids[j - n];
      } else if i < n {
        assert t[i] in t && s[i + 1] == t[i] && t[j] in w[x].kids;
        KidBelow(w, h, bound, x, t[j]);
        assert s[0] !in Chain(w, h, bound, s[i + 1]);
        ChainFacts(w, h, bound, t[i]);
      } else {
        assert t[j] == s[j + 1] && t[i] in w[x].kids;
        KidBelow(w, h, bound, x, t[i]);
        assert s[0] !in Chain(w, h, bound, s[j + 1]);
        ChainFacts(w, h, bound, t[j]);
      }
    }
  }

  // No item is visited twice.
  lemma {:induction false} WalkDistinct(w: World, h: map<Item, nat>, bound: nat, s: seq<Item>)
    requires Forest(w, h, bound) && Below(w, h, s, bound) && Apart(w, h, bound, s)
    ensures NoRepeats(Walk(w, h, bound, s))
    decreases DeepTotal(w, h, bound, s, bound, false)
  {
    if s != [] {
      AdvancedTotal(w, h, bound, s, false);
      AdvancedApart(w, h, bound, s);
      WalkDistinct(w, h, bound, Advanced(w, s));
      WalkVisits(w, h, bound, Advanced(w, s), s[0]);
    }
  }

  // The iterator of a container visits every item that lies in it at any depth, each
  // once, level by level, and the counts along the way are the recursive ones.
  lemma WalkOfContainer(w: World, h: map<Item, nat>, bound: nat, c: Item)
    requires Forest(w, h, bound) && c in w
    ensures Below(w, h, w[c].kids, h[c]) && Below(w, h, w[c].kids, bound)
    ensures var walk := Walk(w, h, bound, w[c].kids);
      NoRepeats(walk) && walk == LevelOrder(w, h, bound, w[c].kids, h[c]) &&
      (forall y | y in w :: y in walk <==> y != c && c in Chain(w, h, bound, y)) &&
      (forall k | k in walk :: k in w) &&
      forall only :: One(w, c, only) + Tally(w, walk, only) == DeepCount(w, h, bound, c, only)
  {
    KidsBelow(w, h, bound, c);
    KidsApart(w, h, bound, c);
    var kids := w[c].kids;
    var walk := Walk(w, h, bound, kids);
    WalkDistinct(w, h, bound, kids);
    assert Linked(w, c);
    WalkIsLevelOrder(w, h, bound, kids, h[c]);
    forall y | y in w
      ensures y in walk <==> y != c && c in Chain(w, h, bound, y)
    {
      WalkVisits(w, h, bound, kids, y);
      InsideKids(w, h, bound, c, y);
    }
    forall only
      ensures (forall k | k in walk :: k in w)
      ensures One(w, c, only) + Tally(w, walk, only) == DeepCount(w, h, bound, c, only)
    {
      WalkCounts(w, h, bound, kids, only);
      DeepTotalLimit(w, h, bound, kids, h[c], bound, only);
    }
  }

  lemma InsideKids(w: World, h: map<Item, nat>, bound: nat, c: Item, y: Item)
    requires Forest(w, h, bound) && c in w && y in w
    ensures Inside(w, h, bound, y, w[c].kids) <==> y != c && c in Chain(w, h, bound, y)
  {
    ChainFacts(w, h, bound, y);
    if Inside(w, h, bound, y, w[c].kids) {
      var k :| k in w[c].kids && k in Chain(w, h, bound, y);
      KidBelow(w, h, bound, c, k);
    }
    if y != c && c in Chain(w, h, bound, y) {
      var k := ChainHasKid(w, h, bound, y, c);
    }
  }

  // ---------- The iterator's own queue ----------

  // "over" and "cur" of the iterator: no empty container waits, and cur points at an item.
  ghost predicate QueueOk(w: World, over: seq<Item>, cur: nat) {
    (forall c | c in over :: c in w && w[c].kids != []) &&
    (over != [] ==> cur < |w[over[0]].kids|)
  }

  ghost function QueueWaiting(w: World, over: seq<Item>, cur: nat): seq<Item>
    requires QueueOk(w, over, cur)
  {
    if over == [] then [] else w[over[0]].kids[cur..] + NextLevel(w, over[1..])
  }

  // A container that is met and is not empty goes to the back of the queue.
  function Enqueued(w: World, over: seq<Item>, item: Item): seq<Item>
    requires item in w
  {
    if w[item].container && w[item].kids != [] then over + [item] else over
  }

  lemma EnqueuedNext(w: World, over: seq<Item>, item: Item)
    requires over != [] && item in w && (forall c | c in over :: c in w)
    requires !w[item].container ==> w[item].kids == []
    ensures forall c | c in Enqueued(w, over, item)[1..] :: c in w
    ensures NextLevel(w, Enqueued(w, over, item)[1..]) == NextLevel(w, over[1..]) + w[item].kids
  {
    if w[item].container && w[item].kids != [] {
      assert (over + [item])[1..] == over[1..] + [item];
      NextLevelAppend(w, over[1..], [item]);
    }
  }

  // What advance() does to "over" and "cur"
  function QueueStep(w: World, over: seq<Item>, cur: nat): (seq<Item>, nat)
    requires over != [] && over[0] in w && cur < |w[over[0]].kids| && w[over[0]].kids[cur] in w
  {
    var kids := w[over[0]].kids;
    var back := Enqueued(w, over, kids[cur]);
    if cur + 1 < |kids| then (back, cur + 1)
    else if back[1..] == [] then ([], cur + 1)
    else (back[1..], 0)
  }

  // What waits once the first has been met
  lemma WaitingNext(w: World, over: seq<Item>, cur: nat)
    requires QueueOk(w, over, cur) && over != [] && w[over[0]].kids[cur] in w
    ensures var kids, next := w[over[0]].kids, NextLevel(w, over[1..]);
      QueueWaiting(w, over, cur)[0] == kids[cur] &&
      Advanced(w, QueueWaiting(w, over, cur)) == kids[cur + 1..] + (next + w[kids[cur]].kids)
  {
    var kids, next := w[over[0]].kids, NextLevel(w, over[1..]);
    assert (kids[cur..] + next)[1..] == kids[cur + 1..] + next;
  }

  lemma QueueAdvances(w: World, h: map<Item, nat>, bound: nat, over: seq<Item>, cur: nat)
    requires Forest(w, h, bound) && QueueOk(w, over, cur) && over != []
    ensures w[over[0]].kids[cur] in w && QueueWaiting(w, over, cur)[0] == w[over[0]].kids[cur]
    ensures var step := QueueStep(w, over, cur);
      QueueOk(w, step.0, step.1) && QueueWaiting(w, step.0, step.1) == Advanced(w, QueueWaiting(w, over, cur))
  {
    var kids := w[over[0]].kids;
    var item := kids[cur];
    KidBelow(w, h, bound, over[0], item);
    assert Linked(w, item);
    EnqueuedNext(w, over, item);
    WaitingNext(w, over, cur);
    var back := Enqueued(w, over, item);
    assert forall c | c in back :: c in w && w[c].kids != [];
    if cur + 1 == |kids| {
      var next := NextLevel(w, over[1..]) + w[item].kids;
      assert kids[cur + 1..] + next == next;
      FrontPopped(w, back);
    }
  }

  lemma FrontPopped(w: World, back: seq<Item>)
    requires back != [] && forall c | c in back :: c in w && w[c].kids != []
    ensures QueueOk(w, back[1..], 0) && QueueWaiting(w, back[1..], 0) == NextLevel(w, back[1..])
  {
    var rest := back[1..];
    assert forall c | c in rest :: c in back;
    if rest != [] {
      assert NextLevel(w, rest) == w[rest[0]].kids + NextLevel(w, rest[1..]);
    }
  }

  lemma CountStep(w: World, h: map<Item, nat>, bound: nat, todo: seq<Item>, only: bool, counter: nat, total: nat)
    requires Forest(w, h, bound) && Below(w, h, todo, bound) && todo != []
    requires counter + DeepTotal(w, h, bound, todo, bound, only) == total
    ensures todo[0] in w && Below(w, h, Advanced(w, todo), bound)
    ensures counter + One(w, todo[0], only) + DeepTotal(w, h, bound, Advanced(w, todo), bound, only) == total
    ensures DeepTotal(w, h, bound, Advanced(w, todo), bound, false) < DeepTotal(w, h, bound, todo, bound, false)
  {
    AdvancedTotal(w, h, bound, todo, only);
    AdvancedTotal(w, h, bound, todo, false);
  }

  lemma CountStart(w: World, h: map<Item, nat>, bound: nat, c: Item, only: bool)
    requires Forest(w, h, bound) && c in w
    ensures Below(w, h, w[c].kids, bound)
    ensures One(w, c, only) + DeepTotal(w, h, bound, w[c].kids, bound, only) == DeepCount(w, h, bound, c, only)
  {
    KidsBelow(w, h, bound, c);
    assert Linked(w, c);
    DeepTotalLimit(w, h, bound, w[c].kids, h[c], bound, only);
  }

  lemma SearchStep(w: World, h: map<Item, nat>, bound: nat, todo: seq<Item>, y: Item)
    requires Forest(w, h, bound) && Below(w, h, todo, bound) && todo != [] && y in w
    ensures todo[0] in w && Below(w, h, Advanced(w, todo), bound)
    ensures Inside(w, h, bound, y, todo) <==> y == todo[0] || Inside(w, h, bound, y, Advanced(w, todo))
    ensures DeepTotal(w, h, bound, Advanced(w, todo), bound, false) < DeepTotal(w, h, bound, todo, bound, false)
  {
    AdvancedTotal(w, h, bound, todo, false);
    InsideAdvanced(w, h, bound, y, todo);
  }

  // ==================== The items ====================

  ghost function View(items: set<Item>): World
    reads items
  {
    map i | i in items :: i.Picture()
  }

  lemma ViewIs(items: set<Item>, w: World)
    requires w.Keys == items && forall x | x in items :: x.Picture() == w[x]
    ensures View(items) == w
  {
  }

  // The first index of x
  function Place(s: seq<Item>, x: Item): (i: nat)
    requires x in s
    ensures i < |s| && s[i] == x
  {
    if s[0] == x then 0 else 1 + Place(s[1..], x)
  }

  lemma {:induction false} PlaceIs(s: seq<Item>, x: Item, i: nat)
    requires i < |s| && s[i] == x && x !in s[..i]
    ensures Place(s, x) == i
  {
    if i > 0 {
      assert s[..i][0] == s[0] && s[1..][..i - 1] == s[..i][1..];
      PlaceIs(s[1..], x, i - 1);
    }
  }

  lemma PictureOf(items: set<Item>, x: Item)
    requires x in items
    ensures View(items)[x] == x.Picture() && Weight(View(items), x) == x.GetWeight()
  {
  }

  lemma BumpNothing(w: World, diff: int)
    ensures Bump(w, {}, diff) == w
  {
  }

  // Up from somewhere on "chain", "done" has been seen and p and what is around it is left.
  ghost predicate WalkedTo(w: World, h: map<Item, nat>, bound: nat, p: Item, done: set<Item>, chain: set<Item>) {
    Forest(w, h, bound) && p in w && h[p] < bound && p !in done && chain == done + Chain(w, h, bound, p) &&
    forall a | a in done :: a in w && h[a] < h[p]
  }

  lemma ChainUp(w: World, h: map<Item, nat>, bound: nat, p: Item, done: set<Item>, chain: set<Item>)
    requires Forest(w, h, bound) && p in w
    requires chain == done + Chain(w, h, bound, p) && p !in done
    requires forall a | a in done :: a in w && h[a] < h[p]
    ensures var up := w[p].parent;
      if up == null then done + {p} == chain
      else up in w && h[p] < h[up] && WalkedTo(w, h, bound, up, done + {p}, chain)
  {
    assert Linked(w, p);
    var up := w[p].parent;
    if up != null {
      assert Linked(w, up);
    }
  }

  // The heights under which the totals are put right after an insertion
  lemma InsertedChain(w: World, h: map<Item, nat>, bound: nat, c: Item, x: Item, i: nat)
    returns (g: map<Item, nat>, b: nat)
    requires Good(w, h, bound) && c in w && x in w && w[c].container && i <= |w[c].kids|
    requires w[x].parent == null && x !in Chain(w, h, bound, c)
    ensures c != x && Forest(Inserted(w, c, x, i), g, b)
    ensures Chain(Inserted(w, c, x, i), g, b, c) == Chain(w, h, bound, c)
  {
    g, b := Raised(h, Chain(w, h, bound, c), h[x] + 1), bound + h[x] + 1;
    ChainFacts(w, h, bound, c);
    InsertedIsForest(w, h, bound, c, x, i);
    SameChain(w, h, bound, Inserted(w, c, x, i), g, b, c, x);
  }

  datatype ReturnValue =
    NoError | NotPossible | CannotPickup | ThisIsImpossible | ContainerNotEnoughRoom | Other(code: nat)

  const INDEX_WHEREEVER := -1

  // Where getTopParentContainer ends: it goes up while there are two containers around
  ghost function BelowTop(w: World, h: map<Item, nat>, bound: nat, c: Item): (top: Item)
    requires Forest(w, h, bound) && c in w
    ensures top in w && top in Chain(w, h, bound, c)
    decreases bound - h[c]
  {
    assert Linked(w, c);
    var p := w[c].parent;
    if p == null then c
    else
      assert Linked(w, p);
      if w[p].parent == null then c else BelowTop(w, h, bound, p)
  }

  // The outermost of x and the containers around it
  ghost predicate Outermost(w: World, h: map<Item, nat>, bound: nat, x: Item, o: Item)
    requires Forest(w, h, bound) && x in w
  {
    o in w && o in Chain(w, h, bound, x) && w[o].parent == null
  }

  // There is one outermost item, and the walk ends there exactly when it starts there;
  // otherwise it ends with something that lies directly in it.
  lemma {:induction false} BelowTopExactly(w: World, h: map<Item, nat>, bound: nat, c: Item)
    requires Forest(w, h, bound) && c in w
    ensures var top := BelowTop(w, h, bound, c);
      if w[c].parent == null then top == c else w[top].parent != null && Outermost(w, h, bound, c, w[top].parent)
    ensures forall o, u | Outermost(w, h, bound, c, o) && Outermost(w, h, bound, c, u) :: o == u
    decreases bound - h[c]
  {
    assert Linked(w, c);
    if w[c].parent != null {
      assert Linked(w, w[c].parent);
      BelowTopExactly(w, h, bound, w[c].parent);
      ChainFacts(w, h, bound, w[c].parent);
      forall o | Outermost(w, h, bound, c, o)
        ensures Outermost(w, h, bound, w[c].parent, o)
      {
        assert o != c;
      }
    }
  }

  // What the limits then count: for a container inside another, only what is in the part
  // of the outermost container that it lies in. Everything beside that part goes uncounted.
  lemma LimitsMiss(w: World, h: map<Item, nat>, bound: nat, c: Item)
    requires Forest(w, h, bound) && c in w && w[c].parent != null
    ensures var top := BelowTop(w, h, bound, c);
      w[top].parent != null && w[top].parent in w &&
      DeepCount(w, h, bound, top, false) < DeepCount(w, h, bound, w[top].parent, false)
  {
    BelowTopExactly(w, h, bound, c);
    var top := BelowTop(w, h, bound, c);
    var o := w[top].parent;
    assert Linked(w, top) && Linked(w, o);
    KidsBelow(w, h, bound, o);
    PartCounts(w, h, bound, w[o].kids, h[o], top);
  }

  lemma {:induction false} PartCounts(w: World, h: map<Item, nat>, bound: nat, s: seq<Item>, limit: nat, x: Item)
    requires Forest(w, h, bound) && Below(w, h, s, limit) && x in s
    ensures DeepCount(w, h, bound, x, false) <= DeepTotal(w, h, bound, s, limit, false)
  {
    if s[0] != x {
      PartCounts(w, h, bound, s[1..], limit, x);
    }
  }

  // The limits on what may lie below top once item is in it; a container brings its contents.
  ghost predicate WithinLimits(w: World, h: map<Item, nat>, bound: nat, top: Item, item: Item, maxItem: nat,
                               maxContainer: nat)
    requires Forest(w, h, bound) && top in w && item in w
  {
    var inTop := DeepCount(w, h, bound, top, false) - 1;
    inTop + 1 <= maxItem &&
    (w[item].container ==>
       DeepCount(w, h, bound, item, true) + DeepCount(w, h, bound, top, true) - One(w, top, true) <= maxContainer &&
       DeepCount(w, h, bound, item, false) + inTop <= maxItem)
  }

  // o holds c and d, and x is free.
  ghost function TwoInOne(o: Item, c: Item, d: Item, x: Item): World {
    map[o := Cell([c, d], null, 0, 0, true), c := Cell([], o, 0, 0, true), d := Cell([], o, 0, 0, false),
        x := Cell([], null, 0, 0, false)]
  }

  // So the limit on items can be passed: two may lie in the outermost container, two do,
  // and a third is still within the limits of the inner one.
  lemma LimitPassed(o: Item, c: Item, d: Item, x: Item)
    requires o != c && o != d && o != x && c != d && c != x && d != x
    ensures var w, h := TwoInOne(o, c, d, x), map[o := 1, c := 0, d := 0, x := 0];
      Forest(w, h, 2) && Outermost(w, h, 2, c, o) && WithinLimits(w, h, 2, BelowTop(w, h, 2, c), x, 2, 9) &&
      DeepCount(w, h, 2, o, false) - 1 == 2
  {
    var w, h := TwoInOne(o, c, d, x), map[o := 1, c := 0, d := 0, x := 0];
    assert w[o].kids == [c, d] && w[c].kids == [] && w[d].kids == [] && w[x].kids == [];
    assert forall y | y in w :: Linked(w, y) && Placed(w, h, 2, y);
    assert Below(w, h, [c, d], 1) && [c, d][1..] == [d] && Below(w, h, [d], 1) && [d][1..] == [];
    assert DeepTotal(w, h, 2, [], 0, false) == 0;
    assert DeepCount(w, h, 2, c, false) == 1 && DeepCount(w, h, 2, d, false) == 1;
    assert DeepTotal(w, h, 2, [d], 1, false) == 1;
    assert DeepTotal(w, h, 2, [c, d], 1, false) == 2;
    assert Chain(w, h, 2, o) == {o};
  }

  // What the items on a list weigh without their contents: the unit's weight for each piece of a
  // stack, and once for an empty stack and for what does not stack
  function PiecesWeight(s: seq<Item>): nat
    reads s
  {
    if s == [] then 0
    else
      var x := s[0];
      var unit := x.catalog.weight(x.id);
      (if x.catalog.stackable(x.id) && x.count >= 1 then unit * x.count else unit) + PiecesWeight(s[1..])
  }

  // A stack of so many pieces weighs so many units; an empty one, and what does not stack, one.
  lemma WeightInUnits(x: Item)
    ensures var unit := x.catalog.weight(x.id);
      x.GetWeight() == x.totalWeight + if x.catalog.stackable(x.id) && x.count >= 1 then unit * x.count else unit
  {
  }

  lemma CountsDiffer(unit: nat, a: nat, b: nat)
    ensures unit * a - unit * b == (a - b) * unit
  {
  }

  // Whenever a stack in c has changed its count, as when a part of it is removed, and its weight
  // has been followed, the totals of c and of all around it have changed by so many units, and
  // no others have.
  twostate lemma CountShowsInTotals(c: Item, x: Item, items: set<Item>, h: map<Item, nat>, bound: nat)
    requires c in items && x in items && old(Forest(View(items), h, bound))
    requires x.id == old(x.id) && x.catalog.stackable(x.id) && x.count >= 1 && old(x.count) >= 1
    requires View(items) == Updated(old(View(items)), c, x, x.OwnWeight(), Chain(old(View(items)), h, bound, c))
    ensures forall a | a in items ::
      a.totalWeight == old(a.totalWeight) +
        if a in Chain(old(View(items)), h, bound, c) then (x.count - old(x.count)) * x.catalog.weight(x.id) else 0
  {
    var w, v := old(View(items)), View(items);
    CountsDiffer(x.catalog.weight(x.id), x.count, old(x.count));
    assert w[x].own == old(x.OwnWeight());
    UpdatedTotals(w, c, x, x.OwnWeight(), Chain(w, h, bound, c), x.OwnWeight() - w[x].own);
    forall a | a in items
      ensures w[a].total == old(a.totalWeight) && v[a].total == a.totalWeight
    {
      assert w[a] == old(a.Picture()) && v[a] == a.Picture();
    }
  }

  lemma {:induction false} OwnSumIs(items: set<Item>, s: seq<Item>)
    requires forall k | k in s :: k in items
    ensures OwnSum(View(items), s) == PiecesWeight(s)
  {
    if s != [] {
      OwnSumIs(items, s[1..]);
      PictureOf(items, s[0]);
    }
  }

  // y lies in c, at any depth.
  ghost predicate IsInside(w: World, h: map<Item, nat>, bound: nat, y: Item, c: Item)
    requires Forest(w, h, bound) && y in w
  {
    y != c && c in Chain(w, h, bound, y)
  }

  // The cached total of a container is the weight of all that lies in it, at any depth, each
  // item once.
  lemma TotalIsAllPieces(items: set<Item>, h: map<Item, nat>, bound: nat, c: Item) returns (inside: seq<Item>)
    requires c in items && Good(View(items), h, bound)
    ensures NoRepeats(inside) && forall y :: y in inside <==> y in items && IsInside(View(items), h, bound, y, c)
    ensures c.totalWeight == PiecesWeight(inside)
  {
    var w := View(items);
    WalkOfContainer(w, h, bound, c);
    WalkWeighs(w, h, bound, w[c].kids);
    inside := Walk(w, h, bound, w[c].kids);
    OwnSumIs(items, inside);
    PictureOf(items, c);
    assert Linked(w, c) && Weighed(w, c);
  }

  // Item and Container in one class; "parent" is the enclosing container, null for an
  // item that is in no container (on a tile, with a player, or nowhere). Methods take
  // the set of all items around, with heights that show it to be a forest, as ghosts.
  class Item {
    const catalog: Catalog
    const isContainer: bool
    const maxSize: nat
    const unlocked: bool
    const pagination: bool
    const isInbox: bool
    const isPickupable: bool
    var id: nat
    var count: nat
    var parent: Item?
    var itemlist: seq<Item>
    var totalWeight: int

    constructor (catalog: Catalog, id: nat, count: nat, isContainer: bool, maxSize: nat)
      ensures this.catalog == catalog && this.id == id && this.count == count && this.isContainer == isContainer
      ensures parent == null && itemlist == [] && totalWeight == 0
    {
      this.catalog, this.id, this.count, this.isContainer, this.maxSize := catalog, id, count, isContainer, maxSize;
      unlocked, pagination, isInbox, isPickupable := true, false, false, true;
      parent, itemlist, totalWeight := null, [], 0;
    }

    predicate IsStackable()
      reads `id
    {
      catalog.stackable(id)
    }

    // Item::getWeight
    function OwnWeight(): nat
      reads `id, `count
    {
      if catalog.stackable(id) then StackWeight(catalog.weight(id), count) else catalog.weight(id)
    }

    // Container::getWeight
    function GetWeight(): int
      reads this
    {
      OwnWeight() + totalWeight
    }

    function Picture(): Cell
      reads this
    {
      Cell(itemlist, parent, OwnWeight(), totalWeight, isContainer)
    }

    method GetThingIndex(thing: Item) returns (index: int)
      ensures -1 <= index < |itemlist|
      ensures index == -1 ==> thing !in itemlist
      ensures index != -1 ==> itemlist[index] == thing && index == Place(itemlist, thing)
    {
      for i := 0 to |itemlist|
        invariant thing !in itemlist[..i]
      {
        if itemlist[i] == thing {
          PlaceIs(itemlist, thing, i);
          return i;
        }
      }
      return -1;
    }

    // Adds diff to this total and hands out getParentContainer().
    method AddToTotal(diff: int, ghost items: set<Item>, ghost w: World, ghost done: set<Item>)
      returns (parentContainer: Item?)
      requires this in items && this !in done && View(items) == Bump(w, done, diff)
      modifies this`totalWeight
      ensures View(items) == Bump(w, done + {this}, diff)
      ensures w.Keys == items && parentContainer == w[this].parent
    {
      assert View(items)[this] == Picture();
      assert w.Keys == Bump(w, done, diff).Keys == View(items).Keys;
      totalWeight := totalWeight + diff;
      forall x | x in items
        ensures x.Picture() == Bump(w, done + {this}, diff)[x]
      {
        assert old(View(items)[x] == x.Picture());
      }
      ViewIs(items, Bump(w, done + {this}, diff));
      return parent;
    }

    // Adds diff to the total of this container and of every container around it.
    method UpdateItemWeight(diff: int, ghost items: set<Item>, ghost h: map<Item, nat>, ghost bound: nat)
      requires this in items && Forest(View(items), h, bound)
      modifies items`totalWeight
      ensures View(items) == Bump(old(View(items)), Chain(old(View(items)), h, bound, this), diff)
    {
      ghost var w := View(items);
      ghost var chain := Chain(w, h, bound, this);
      BumpNothing(w, diff);
      assert Linked(w, this);
      var parentContainer, done := AddAndGoUp(diff, items, w, h, bound, {}, chain);
      while parentContainer != null
        invariant View(items) == Bump(w, done, diff)
        invariant parentContainer == null ==> done == chain
        invariant parentContainer != null ==>
          parentContainer in w && WalkedTo(w, h, bound, parentContainer, done, chain)
        decreases if parentContainer == null then 0 else bound - h[parentContainer] + 1
      {
        parentContainer, done := parentContainer.AddAndGoUp(diff, items, w, h, bound, done, chain);
      }
    }

    // One container on the way up
    method AddAndGoUp(diff: int, ghost items: set<Item>, ghost w: World, ghost h: map<Item, nat>, ghost bound: nat,
                      ghost done: set<Item>, ghost chain: set<Item>)
      returns (parentContainer: Item?, ghost now: set<Item>)
      requires this in items && View(items) == Bump(w, done, diff) && w.Keys == items
      requires this in w && WalkedTo(w, h, bound, this, done, chain)
      modifies this`totalWeight
      ensures View(items) == Bump(w, now, diff)
      ensures if parentContainer == null then now == chain
        else parentContainer in w && h[this] < h[parentContainer] && WalkedTo(w, h, bound, parentContainer, now, chain)
    {
      parentContainer := AddToTotal(diff, items, w, done);
      ChainUp(w, h, bound, this, done, chain);
      now := done + {this};
    }

    // The same, where it is known what comes of it
    method UpdateTo(diff: int, ghost v: World, ghost items: set<Item>, ghost h: map<Item, nat>, ghost bound: nat)
      requires this in items && Forest(View(items), h, bound)
      requires v == Bump(View(items), Chain(View(items), h, bound, this), diff)
      modifies items`totalWeight
      ensures View(items) == v
    {
      UpdateItemWeight(diff, items, h, bound);
    }

    // item, in no container before, becomes the i-th of this one.
    method PutIn(item: Item, i: nat, ghost items: set<Item>)
      requires this in items && item in items && this != item && i <= |itemlist|
      modifies this`itemlist, item`parent
      ensures View(items) == Inserted(old(View(items)), this, item, i)
      ensures item.GetWeight() == Weight(old(View(items)), item)
    {
      ghost var w := View(items);
      assert w[item] == item.Picture();
      item.parent := this;
      itemlist := itemlist[..i] + [item] + itemlist[i..];
      forall x | x in items
        ensures x.Picture() == Inserted(w, this, item, i)[x]
      {
        assert old(View(items)[x] == x.Picture());
      }
      ViewIs(items, Inserted(w, this, item, i));
    }

    // addThing at the front; an index beyond the capacity or a thing that is no item is ignored.
    method AddThing(index: int, item: Item?, ghost items: set<Item>, ghost h: map<Item, nat>, ghost bound: nat)
      requires this in items && isContainer && Good(View(items), h, bound)
      requires item != null ==> item in items && item.parent == null && item !in Chain(View(items), h, bound, this)
      modifies this, item, items`totalWeight
      ensures View(items) ==
        if maxSize <= index || item == null then old(View(items))
        else Added(old(View(items)), this, item, 0, Chain(old(View(items)), h, bound, this))
    {
      if index >= maxSize {
        return;
      }
      if item == null {
        return;
      }
      InternalAddThing(item, items, h, bound);
    }

    // internalAddThing
    method InternalAddThing(item: Item, ghost items: set<Item>, ghost h: map<Item, nat>, ghost bound: nat)
      requires this in items && isContainer && Good(View(items), h, bound)
      requires item in items && item.parent == null && item !in Chain(View(items), h, bound, this)
      modifies this`itemlist, item`parent, items`totalWeight
      ensures View(items) == Added(old(View(items)), this, item, 0, Chain(old(View(items)), h, bound, this))
    {
      AddAt(item, 0, items, h, bound);
    }

    // addItemBack
    method AddItemBack(item: Item, ghost items: set<Item>, ghost h: map<Item, nat>, ghost bound: nat)
      requires this in items && isContainer && Good(View(items), h, bound)
      requires item in items && item.parent == null && item !in Chain(View(items), h, bound, this)
      modifies this`itemlist, item`parent, items`totalWeight
      ensures View(items) ==
        Added(old(View(items)), this, item, |old(itemlist)|, Chain(old(View(items)), h, bound, this))
    {
      AddAt(item, |itemlist|, items, h, bound);
    }

    method AddAt(item: Item, i: nat, ghost items: set<Item>, ghost h: map<Item, nat>, ghost bound: nat)
      requires this in items && isContainer && Good(View(items), h, bound) && i <= |itemlist|
      requires item in items && item.parent == null && item !in Chain(View(items), h, bound, this)
      modifies this`itemlist, item`parent, items`totalWeight
      ensures View(items) == Added(old(View(items)), this, item, i, Chain(old(View(items)), h, bound, this))
    {
      ghost var w := View(items);
      ghost var g, b := InsertedChain(w, h, bound, this, item, i);
      assert w[this] == Picture() && w[item] == item.Picture();
      PutIn(item, i, items);
      UpdateItemWeight(item.GetWeight(), items, g, b);
    }

    // item gives up its place as the i-th of this container.
    method TakeOut(item: Item, i: nat, ghost items: set<Item>)
      requires this in items && i < |itemlist| && itemlist[i] == item && item in items && item != this
      modifies this`itemlist, item`parent
      ensures View(items) == TakenOut(old(View(items)), this, i)
    {
      ghost var w := View(items);
      assert w[this] == Picture() && w[item] == item.Picture();
      item.parent := null;
      itemlist := itemlist[..i] + itemlist[i + 1..];
      forall x | x in items
        ensures x.Picture() == TakenOut(w, this, i)[x]
      {
        assert old(View(items)[x] == x.Picture());
      }
      ViewIs(items, TakenOut(w, this, i));
    }

    method SetKind(itemId: nat, newCount: nat, ghost items: set<Item>)
      requires this in items
      modifies `id, `count
      ensures id == itemId && count == newCount && totalWeight == old(totalWeight)
      ensures View(items) == Reweighed(old(View(items)), this, OwnWeight())
    {
      ghost var w := View(items);
      PictureOf(items, this);
      id := itemId;
      count := newCount;
      forall x | x in items
        ensures x.Picture() == Reweighed(w, this, OwnWeight())[x]
      {
        assert old(View(items)[x] == x.Picture());
      }
      ViewIs(items, Reweighed(w, this, OwnWeight()));
    }

    // The count after setID and setSubType, which is stored in 8 bits; a fluid and a number of
    // charges are kept elsewhere.
    function CountAfter(itemId: nat, subType: nat): nat
      reads `count
    {
      if catalog.counted(itemId) then subType % 256 else count
    }

    // updateThing
    method UpdateThing(thing: Item, itemId: nat, amount: nat,
                       ghost items: set<Item>, ghost h: map<Item, nat>, ghost bound: nat)
      requires this in items && Good(View(items), h, bound)
      modifies thing`id, thing`count, items`totalWeight
      ensures thing in itemlist ==>
        thing in items && thing.id == itemId && thing.count == old(thing.CountAfter(itemId, amount)) &&
        View(items) ==
          Updated(old(View(items)), this, thing, thing.OwnWeight(), Chain(old(View(items)), h, bound, this))
      ensures thing !in itemlist ==>
        thing.id == old(thing.id) && thing.count == old(thing.count) && View(items) == old(View(items))
    {
      var index := GetThingIndex(thing);
      if index == -1 {
        return;
      }
      Reweigh(thing, index, itemId, thing.CountAfter(itemId, amount), items, h, bound);
    }

    // The index-th item changes id and count, and the totals follow.
    method Reweigh(item: Item, index: nat, itemId: nat, newCount: nat,
                   ghost items: set<Item>, ghost h: map<Item, nat>, ghost bound: nat)
      requires this in items && Good(View(items), h, bound) && index < |itemlist| && itemlist[index] == item
      modifies item`id, item`count, items`totalWeight
      ensures item in items && item.id == itemId && item.count == newCount
      ensures View(items) ==
        Updated(old(View(items)), this, item, item.OwnWeight(), Chain(old(View(items)), h, bound, this))
    {
      ghost var w := View(items);
      PictureOf(items, this);
      KidOffChain(w, h, bound, this, item);
      PictureOf(items, item);
      var oldWeight := item.GetWeight();
      item.SetKind(itemId, newCount, items);
      ghost var n := item.OwnWeight();
      ReweighedChain(w, h, bound, this, index, n);
      var diff := -oldWeight + item.GetWeight();
      UpdatedIs(w, this, item, n, diff, Chain(w, h, bound, this));
      UpdateItemWeight(diff, items, h, bound);
    }

    // What is left of a stack, in 8 bits
    static function Reduced(count: nat, amount: nat): nat {
      (if count < amount then 0 else count - amount) % 256
    }

    // removeThing: a part of a stack, or the whole item
    method RemoveThing(thing: Item, amount: nat, ghost items: set<Item>, ghost h: map<Item, nat>, ghost bound: nat)
      requires this in items && Good(View(items), h, bound)
      modifies this`itemlist, thing`parent, thing`id, thing`count, items`totalWeight
      ensures thing !in old(itemlist) ==> View(items) == old(View(items)) && thing.count == old(thing.count)
      ensures thing in old(itemlist) && old(thing.IsStackable() && amount != thing.count) ==>
        thing in items && thing.id == old(thing.id) &&
        thing.count == Reduced(old(thing.count), amount) &&
        View(items) ==
          Updated(old(View(items)), this, thing, thing.OwnWeight(), Chain(old(View(items)), h, bound, this))
      ensures thing in old(itemlist) && !old(thing.IsStackable() && amount != thing.count) ==>
        thing.id == old(thing.id) && thing.count == old(thing.count) &&
        thing in items && old(View(items))[this].kids == old(itemlist) &&
        View(items) ==
          Removed(old(View(items)), this, Place(old(itemlist), thing), Chain(old(View(items)), h, bound, this))
    {
      var index := GetThingIndex(thing);
      assert View(items) == old(View(items));
      if index == -1 {
        return;
      }
      RemoveFrom(thing, index, amount, items, h, bound);
    }

    method RemoveFrom(thing: Item, index: nat, amount: nat,
                      ghost items: set<Item>, ghost h: map<Item, nat>, ghost bound: nat)
      requires this in items && Good(View(items), h, bound) && index < |itemlist| && itemlist[index] == thing
      modifies this`itemlist, thing`parent, thing`id, thing`count, items`totalWeight
      ensures thing in items && thing.id == old(thing.id)
      ensures old(thing.IsStackable() && amount != thing.count) ==>
        thing.count == Reduced(old(thing.count), amount) &&
        View(items) ==
          Updated(old(View(items)), this, thing, thing.OwnWeight(), Chain(old(View(items)), h, bound, this))
      ensures !old(thing.IsStackable() && amount != thing.count) ==>
        thing.count == old(thing.count) && old(View(items))[this].kids == old(itemlist) &&
        View(items) == Removed(old(View(items)), this, index, Chain(old(View(items)), h, bound, this))
    {
      if thing.IsStackable() && amount != thing.count {
        RemovePart(thing, index, amount, items, h, bound);
      } else {
        RemoveAt(thing, index, items, h, bound);
      }
    }

    method RemovePart(item: Item, index: nat, amount: nat,
                      ghost items: set<Item>, ghost h: map<Item, nat>, ghost bound: nat)
      requires this in items && Good(View(items), h, bound) && index < |itemlist| && itemlist[index] == item
      modifies item`id, item`count, items`totalWeight
      ensures item in items && item.id == old(item.id)
      ensures item.count == Reduced(old(item.count), amount)
      ensures View(items) ==
        Updated(old(View(items)), this, item, item.OwnWeight(), Chain(old(View(items)), h, bound, this))
    {
      var newCount := if item.count < amount then 0 else item.count - amount;
      Reweigh(item, index, item.id, newCount % 256, items, h, bound);
    }

    method RemoveAt(item: Item, index: nat, ghost items: set<Item>, ghost h: map<Item, nat>, ghost bound: nat)
      requires this in items && Good(View(items), h, bound) && index < |itemlist| && itemlist[index] == item
      modifies this`itemlist, item`parent, items`totalWeight
      ensures item in items && old(View(items))[this].kids == old(itemlist)
      ensures View(items) == Removed(old(View(items)), this, index, Chain(old(View(items)), h, bound, this))
    {
      ghost var w := View(items);
      PictureOf(items, this);
      TakenOutChain(w, h, bound, this, index);
      PictureOf(items, item);
      var weight := item.GetWeight();
      ghost var chain := Chain(w, h, bound, this);
      ghost var v := Removed(w, this, index, chain);
      RemovedIs(w, this, index, -weight, chain);
      TakeOut(item, index, items);
      UpdateTo(-weight, v, items, h, bound);
    }

    // replaceThing
    method ReplaceThing(index: nat, item: Item, ghost items: set<Item>, ghost h: map<Item, nat>, ghost bound: nat)
      requires this in items && isContainer && Good(View(items), h, bound)
      requires item in items && item.parent == null && item !in Chain(View(items), h, bound, this)
      modifies this`itemlist, item`parent, items`totalWeight,
               if index < |itemlist| then {itemlist[index]} else {}
      ensures |old(itemlist)| <= index ==> View(items) == old(View(items))
      ensures index < |old(itemlist)| ==>
        var old' := old(itemlist)[index];
        old' in items && this != item && item != old' && old' != this &&
        View(items) == Replaced(old(View(items)), this, index, item, Chain(old(View(items)), h, bound, this))
    {
      if index >= |itemlist| {
        return;
      }
      ghost var w := View(items);
      ghost var chain := Chain(w, h, bound, this);
      var replacedItem := itemlist[index];
      assert w[this] == Picture() && Linked(w, this) && replacedItem in w[this].kids;
      KidOffChain(w, h, bound, this, replacedItem);
      RemoveAt(replacedItem, index, items, h, bound);
      RemovedIsGood(w, h, bound, this, index);
      ghost var v := Removed(w, this, index, chain);
      RemovedChain(w, h, bound, this, index);
      assert v[this] == Picture() && v[item] == item.Picture();
      AddAt(item, index, items, h, bound);
    }

    // iterator()
    method Iterator(ghost items: set<Item>, ghost h: map<Item, nat>, ghost bound: nat) returns (it: ContainerIterator)
      requires this in items && Forest(View(items), h, bound)
      ensures View(items) == old(View(items))
      ensures fresh(it) && it.Valid(View(items)) && it.Waiting(View(items)) == View(items)[this].kids
    {
      PictureOf(items, this);
      it := new ContainerIterator();
      if itemlist != [] {
        it.over := [this];
        it.cur := 0;
      }
      assert unchanged(items);
    }

    // getItemHoldingCount and getContainerHoldingCount, which differ in what they count
    method HoldingCount(containersOnly: bool, ghost items: set<Item>, ghost h: map<Item, nat>, ghost bound: nat)
      returns (counter: nat)
      requires this in items && Forest(View(items), h, bound)
      ensures counter + One(View(items), this, containersOnly) == DeepCount(View(items), h, bound, this, containersOnly)
    {
      ghost var w := View(items);
      CountStart(w, h, bound, this, containersOnly);
      ghost var total := DeepTotal(w, h, bound, w[this].kids, bound, containersOnly);
      counter := 0;
      var it := Iterator(items, h, bound);
      ghost var todo := it.Waiting(w);
      while it.HasNext()
        invariant fresh(it) && View(items) == w && it.Valid(w) && todo == it.Waiting(w)
        invariant Below(w, h, todo, bound) && counter + DeepTotal(w, h, bound, todo, bound, containersOnly) == total
        decreases DeepTotal(w, h, bound, todo, bound, false)
      {
        counter, todo := CountNext(it, containersOnly, counter, todo, total, items, h, bound);
      }
    }

    // One turn of the loop of HoldingCount
    static method CountNext(it: ContainerIterator, containersOnly: bool, counter: nat, ghost todo: seq<Item>,
                            ghost total: nat, ghost items: set<Item>, ghost h: map<Item, nat>, ghost bound: nat)
      returns (newCounter: nat, ghost rest: seq<Item>)
      requires Forest(View(items), h, bound) && it.Valid(View(items)) && it.HasNext()
      requires todo == it.Waiting(View(items)) && Below(View(items), h, todo, bound)
      requires counter + DeepTotal(View(items), h, bound, todo, bound, containersOnly) == total
      modifies it
      ensures View(items) == old(View(items)) && it.Valid(View(items)) && rest == it.Waiting(View(items))
      ensures Below(View(items), h, rest, bound)
      ensures newCounter + DeepTotal(View(items), h, bound, rest, bound, containersOnly) == total
      ensures
        DeepTotal(View(items), h, bound, rest, bound, false) < DeepTotal(View(items), h, bound, todo, bound, false)
    {
      ghost var w := View(items);
      CountStep(w, h, bound, todo, containersOnly, counter, total);
      newCounter := counter;
      var item := it.Current(items, h, bound);
      if !containersOnly || item.isContainer {
        newCounter := newCounter + 1;
      }
      it.Advance(items, h, bound);
      rest := Advanced(w, todo);
    }

    // isHoldingItem
    method IsHoldingItem(item: Item, ghost items: set<Item>, ghost h: map<Item, nat>, ghost bound: nat)
      returns (r: bool)
      requires this in items && item in items && Forest(View(items), h, bound)
      ensures r <==> item != this && this in Chain(View(items), h, bound, item)
    {
      ghost var w := View(items);
      CountStart(w, h, bound, this, false);
      InsideKids(w, h, bound, this, item);
      var it := Iterator(items, h, bound);
      ghost var todo := it.Waiting(w);
      while it.HasNext()
        invariant fresh(it) && View(items) == w && it.Valid(w) && todo == it.Waiting(w)
        invariant Below(w, h, todo, bound)
        invariant Inside(w, h, bound, item, w[this].kids) <==> Inside(w, h, bound, item, todo)
        decreases DeepTotal(w, h, bound, todo, bound, false)
      {
        SearchStep(w, h, bound, todo, item);
        var x := it.Current(items, h, bound);
        if x == item {
          return true;
        }
        it.Advance(items, h, bound);
        todo := Advanced(w, todo);
      }
      return false;
    }

    // getTopParentContainer. It stops one short: for a container inside others it gives
    // the one just below the outermost.
    method GetTopParentContainer(ghost items: set<Item>, ghost h: map<Item, nat>, ghost bound: nat)
      returns (top: Item)
      requires this in items && Forest(View(items), h, bound)
      ensures top in items && top == BelowTop(View(items), h, bound, this)
      ensures if parent == null then top == this
        else top.parent != null && Outermost(View(items), h, bound, this, top.parent)
    {
      BelowTopExactly(View(items), h, bound, this);
      top := this;
      PictureOf(items, this);
      if parent == null {
        return;
      }
      var thing := UpFrom(this, items, h, bound);
      while thing.parent != null
        invariant top in items && top.parent == thing && thing in items
        invariant BelowTop(View(items), h, bound, top) == BelowTop(View(items), h, bound, this)
        decreases bound - h[thing]
      {
        PictureOf(items, top);
        PictureOf(items, thing);
        var up := UpFrom(thing, items, h, bound);
        top := thing;
        thing := up;
      }
      PictureOf(items, top);
      PictureOf(items, thing);
    }

    // One step from a thing to the container around it
    static method UpFrom(x: Item, ghost items: set<Item>, ghost h: map<Item, nat>, ghost bound: nat) returns (up: Item)
      requires x in items && x.parent != null && Forest(View(items), h, bound)
      ensures up == x.parent && up in items && h[x] < h[up] < bound
    {
      PictureOf(items, x);
      assert Linked(View(items), x);
      up := x.parent;
      assert Linked(View(items), up);
    }

    // The walk of queryAdd up the cylinders around this container; Inboxes matter only
    // without FLAG_NOLIMIT.
    method QueryChain(item: Item, noLimit: bool, ghost items: set<Item>, ghost h: map<Item, nat>, ghost bound: nat)
      returns (r: ReturnValue)
      requires this in items && item != this && Forest(View(items), h, bound)
      ensures r == NoError <==>
        item !in Chain(View(items), h, bound, this) &&
        (noLimit || forall a | a in Chain(View(items), h, bound, this) && a != this :: !a.isInbox)
      ensures noLimit && item in Chain(View(items), h, bound, this) ==> r == ThisIsImpossible
    {
      ghost var w := View(items);
      ghost var chain := Chain(w, h, bound, this);
      ghost var seen: set<Item> := {};
      ChainUp(w, h, bound, this, {}, chain);
      PictureOf(items, this);
      seen := {} + {this};
      var cylinder := parent;
      while cylinder != null
        invariant cylinder == null ==> seen == chain
        invariant cylinder != null ==> cylinder in w && WalkedTo(w, h, bound, cylinder, seen, chain)
        invariant item !in seen && (noLimit || forall a | a in seen && a != this :: !a.isInbox)
        decreases if cylinder == null then 0 else bound - h[cylinder] + 1
      {
        ChainUp(w, h, bound, cylinder, seen, chain);
        ChainFacts(w, h, bound, cylinder);
        PictureOf(items, cylinder);
        if cylinder == item {
          return ThisIsImpossible;
        }
        if !noLimit && cylinder.isInbox {
          return ContainerNotEnoughRoom;
        }
        seen := seen + {cylinder};
        cylinder := cylinder.parent;
      }
      return NoError;
    }

    // queryAdd. "item" is null for a thing that is no item; "carrier" is what the creature
    // carrying the outermost container answers, NoError when there is none.
    method QueryAdd(addIndex: int, item: Item?, childIsOwner: bool, noLimit: bool, maxItem: nat, maxContainer: nat,
                    carrier: ReturnValue, ghost items: set<Item>, ghost h: map<Item, nat>, ghost bound: nat)
      returns (r: ReturnValue)
      requires this in items && Forest(View(items), h, bound) && (item != null ==> item in items)
      ensures childIsOwner ==> r == NoError
      ensures !childIsOwner && item != null && item in Chain(View(items), h, bound, this) ==> r != NoError
      ensures !childIsOwner ==> (r == NoError <==>
        unlocked && item != null && item.isPickupable && carrier == NoError &&
        item !in Chain(View(items), h, bound, this) &&
        (noLimit ||
          ((forall a | a in Chain(View(items), h, bound, this) && a != this :: !a.isInbox) &&
           (addIndex != INDEX_WHEREEVER || |itemlist| < maxSize || pagination))) &&
        WithinLimits(View(items), h, bound, BelowTop(View(items), h, bound, this), item, maxItem, maxContainer))
    {
      ChainFacts(View(items), h, bound, this);
      if childIsOwner {
        return NoError;
      }
      if !unlocked {
        return NotPossible;
      }
      if item == null {
        return NotPossible;
      }
      if !item.isPickupable {
        return CannotPickup;
      }
      if item == this {
        return ThisIsImpossible;
      }
      r := QueryChain(item, noLimit, items, h, bound);
      if r != NoError {
        return;
      }
      if !noLimit && addIndex == INDEX_WHEREEVER && |itemlist| >= maxSize && !pagination {
        return ContainerNotEnoughRoom;
      }
      var top := GetTopParentContainer(items, h, bound);
      var fits := QueryLimits(top, item, maxItem, maxContainer, items, h, bound);
      if !fits {
        return NotPossible;
      }
      return carrier;
    }

    static method QueryLimits(top: Item, item: Item, maxItem: nat, maxContainer: nat,
                              ghost items: set<Item>, ghost h: map<Item, nat>, ghost bound: nat) returns (fits: bool)
      requires top in items && item in items && Forest(View(items), h, bound)
      ensures fits <==> WithinLimits(View(items), h, bound, top, item, maxItem, maxContainer)
    {
      PictureOf(items, item);
      PictureOf(items, top);
      var topItems := top.HoldingCount(false, items, h, bound);
      if item.isContainer {
        var addContainerCount := item.HoldingCount(true, items, h, bound);
        var topContainers := top.HoldingCount(true, items, h, bound);
        if addContainerCount + 1 + topContainers > maxContainer {
          return false;
        }
        var addItemCount := item.HoldingCount(false, items, h, bound);
        if addItemCount + 1 + topItems > maxItem {
          return false;
        }
      }
      return topItems + 1 <= maxItem;
    }
  }

  // The containers still to be read, the front one from "cur" on. A container that is met
  // on the way, and is not empty, goes to the back.
  class ContainerIterator {
    var over: seq<Item>
    var cur: nat

    constructor ()
      ensures over == []
    {
      over, cur := [], 0;
    }

    ghost predicate Valid(w: World)
      reads this
    {
      QueueOk(w, over, cur)
    }

    ghost function Waiting(w: World): seq<Item>
      requires Valid(w)
      reads this
    {
      QueueWaiting(w, over, cur)
    }

    predicate HasNext()
      reads this
    {
      over != []
    }

    method Current(ghost items: set<Item>, ghost h: map<Item, nat>, ghost bound: nat) returns (item: Item)
      requires Forest(View(items), h, bound) && Valid(View(items)) && HasNext()
      ensures item == Waiting(View(items))[0] && item in items && item.isContainer == View(items)[item].container
    {
      ghost var w := View(items);
      PictureOf(items, over[0]);
      item := over[0].itemlist[cur];
      KidBelow(w, h, bound, over[0], item);
      PictureOf(items, item);
    }

    method Advance(ghost items: set<Item>, ghost h: map<Item, nat>, ghost bound: nat)
      requires Forest(View(items), h, bound) && Valid(View(items)) && HasNext()
      modifies this
      ensures View(items) == old(View(items))
      ensures var w := View(items);
        Valid(w) && old(Waiting(w))[0] in w && Waiting(w) == Advanced(w, old(Waiting(w)))
    {
      ghost var w := View(items);
      QueueAdvances(w, h, bound, over, cur);
      Step(items);
      assert unchanged(items);
    }

    method Step(ghost items: set<Item>)
      requires over != [] && over[0] in items && cur < |over[0].itemlist| && over[0].itemlist[cur] in items
      modifies this
      ensures (over, cur) == QueueStep(View(items), old(over), old(cur))
    {
      PictureOf(items, over[0]);
      var size := |over[0].itemlist|;
      var item := over[0].itemlist[cur];
      PictureOf(items, item);
      if item.isContainer {
        if item.itemlist != [] {
          over := over + [item];
        }
      }
      cur := cur + 1;
      if cur == size {
        over := over[1..];
        if over != [] {
          cur := 0;
        }
      }
    }
  }
}
