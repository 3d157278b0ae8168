// What an accepted OTB file holds: where the property ranges lie, and the round trip
// from a tree through its file and back.
module OtbTrees {
  import opened OtbFormat

  // ---------- The ranges of an accepted file ----------

  // The property ranges of a node and everything below it, in file order
  function Ranges(n: Node): seq<(nat, nat)>
    decreases n, |n.children| + 1
  {
    [(n.propsBegin, n.propsEnd)] + RangesOfChildren(n, |n.children|)
  }

  function RangesOfChildren(n: Node, k: nat): seq<(nat, nat)>
    requires k <= |n.children|
    decreases n, k
  {
    if k == 0 then [] else RangesOfChildren(n, k - 1) + Ranges(n.children[k - 1])
  }

  // Clean ranges, one after the other, each preceded by its START and type byte, all
  // inside file[lo..hi].
  ghost predicate Ordered(file: Bytes, ranges: seq<(nat, nat)>, lo: nat, hi: nat) {
    hi <= |file| &&
    (forall i | 0 <= i < |ranges| :: GoodRange(file, ranges[i], lo, hi)) &&
    (forall i, j | 0 <= i < j < |ranges| :: ranges[i].1 + 2 <= ranges[j].0)
  }

  ghost predicate GoodRange(file: Bytes, r: (nat, nat), lo: nat, hi: nat) {
    lo + 2 <= r.0 <= r.1 <= hi <= |file| && file[r.0 - 2] == START && Clean(file[r.0..r.1])
  }

  lemma OrderedAppend(file: Bytes, a: seq<(nat, nat)>, b: seq<(nat, nat)>, lo: nat, mid: nat, hi: nat)
    requires lo <= mid <= hi && Ordered(file, a, lo, mid) && Ordered(file, b, mid, hi)
    ensures Ordered(file, a + b, lo, hi)
  {
    var c := a + b;
    forall i | 0 <= i < |c|
      ensures GoodRange(file, c[i], lo, hi)
    {
      if i < |a| { assert c[i] == a[i]; } else { assert c[i] == b[i - |a|]; }
    }
    forall i, j | 0 <= i < j < |c|
      ensures c[i].1 + 2 <= c[j].0
    {
      if i < |a| && |a| <= j {
        assert GoodRange(file, a[i], lo, mid) && GoodRange(file, b[j - |a|], mid, hi);
      }
    }
  }

  lemma {:induction false} ChildRangesOrdered(file: Bytes, at: nat, l: Layout, n: nat)
    requires WellFormed(l) && n <= |l.items|
    requires LiesAt(file, at + 2, l.props + PrintItems(l, n))
    ensures Ordered(file, RangesOfChildren(NodeAt(l, at), n),
              at + 2 + |l.props|, at + 2 + |l.props| + |PrintItems(l, n)|)
    decreases l, n
  {
    if n > 0 {
      ItemParts(file, at + 2, l, n);
      ChildRangesOrdered(file, at, l, n - 1);
      RangesOrdered(file, at + 2 + |l.props| + |PrintItems(l, n - 1)|, l.items[n - 1].node);
      ChildRangeJoins(file, at, l, n);
    }
  }

  // The ranges of the n-th child follow those of the children before it.
  lemma ChildRangeJoins(file: Bytes, at: nat, l: Layout, n: nat)
    requires 0 < n <= |l.items| && at + 2 + |l.props| + |PrintItems(l, n)| <= |file|
    requires var p := at + 2 + |l.props|;
      var q, child := p + |PrintItems(l, n - 1)|, l.items[n - 1].node;
      Ordered(file, RangesOfChildren(NodeAt(l, at), n - 1), p, q) &&
      Ordered(file, Ranges(NodeAt(child, q)), q, q + |Print(child)|)
    ensures var p := at + 2 + |l.props|;
      Ordered(file, RangesOfChildren(NodeAt(l, at), n), p, p + |PrintItems(l, n)|)
  {
    var p := at + 2 + |l.props|;
    var q, child := p + |PrintItems(l, n - 1)|, l.items[n - 1].node;
    assert q + |Print(child)| <= p + |PrintItems(l, n)|;
    NodesAtIndex(l, at, |l.items|, n - 1);
    assert RangesOfChildren(NodeAt(l, at), n) == RangesOfChildren(NodeAt(l, at), n - 1) + Ranges(NodeAt(child, q));
    OrderedAppend(file, RangesOfChildren(NodeAt(l, at), n - 1), Ranges(NodeAt(child, q)), p, q, q + |Print(child)|);
    WiderBound(file, RangesOfChildren(NodeAt(l, at), n), p, q + |Print(child)|, p + |PrintItems(l, n)|);
  }

  lemma WiderBound(file: Bytes, r: seq<(nat, nat)>, lo: nat, hi: nat, hi': nat)
    requires Ordered(file, r, lo, hi) && hi <= hi' <= |file|
    ensures Ordered(file, r, lo, hi')
  {
    forall i | 0 <= i < |r|
      ensures GoodRange(file, r[i], lo, hi')
    {
      assert GoodRange(file, r[i], lo, hi);
    }
  }

  lemma {:induction false} NodesAtIndex(l: Layout, at: nat, n: nat, k: nat)
    requires k < n <= |l.items|
    ensures NodesAt(l, at, n)[k] == NodeAt(l.items[k].node, at + 2 + |l.props| + |PrintItems(l, k)|)
    decreases n
  {
    if k < n - 1 {
      NodesAtIndex(l, at, n - 1, k);
    }
  }

  // In an accepted file the ranges of all nodes are set, in bounds, clean and apart.
  lemma {:induction false} RangesOrdered(file: Bytes, at: nat, l: Layout)
    requires WellFormed(l) && LiesAt(file, at, Print(l))
    ensures Ordered(file, Ranges(NodeAt(l, at)), at, at + |Print(l)|)
    decreases l, |l.items| + 1
  {
    var n := |l.items|;
    var node := NodeAt(l, at);
    var p := at + 2 + |l.props|;
    var e := p + |PrintItems(l, n)|;
    PrintedParts(file, at, l);
    ChildRangesOrdered(file, at, l, n);
    OwnRange(file, at, l);
    OrderedAppend(file, [(at + 2, p)], RangesOfChildren(node, n), at, p, e);
    WiderBound(file, Ranges(node), at, e, e + 1);
  }

  lemma OwnRange(file: Bytes, at: nat, l: Layout)
    requires WellFormed(l) && LiesAt(file, at, Print(l))
    ensures Ordered(file, [(at + 2, at + 2 + |l.props|)], at, at + 2 + |l.props|)
    ensures file[at + 2..at + 2 + |l.props|] == l.props
  {
    PrintedParts(file, at, l);
    LiesSplit(file, at + 2, l.props, PrintItems(l, |l.items|));
    assert file[at] == file[at..at + 2][0];
  }

  lemma AcceptedRanges(file: Bytes)
    requires MINIMAL_SIZE < |file| && Parse(file).Ok?
    ensures Ordered(file, Ranges(Parse(file).value), IDENTIFIER_SIZE, |file|)
  {
    var l, skipped := AcceptedWasPrinted(file);
    ParsePrinted(file, l, skipped);
    GrammarParts(file, l, skipped);
    RangesOrdered(file, IDENTIFIER_SIZE, l);
    WiderBound(file, Ranges(NodeAt(l, IDENTIFIER_SIZE)), IDENTIFIER_SIZE, IDENTIFIER_SIZE + |Print(l)|, |file|);
  }

  // ---------- Trees with plain properties ----------

  datatype Tree = Tree(kind: Byte, props: Bytes, children: seq<Tree>)

  // A writer puts ESCAPE before each of the three special bytes.
  function Escaped(s: Bytes): Bytes {
    if s == [] then []
    else (if s[0] >= ESCAPE then [ESCAPE, s[0]] else [s[0]]) + Escaped(s[1..])
  }

  // The copy_if of getProps, with its flag
  function Unescaped(s: Bytes, lastEscaped: bool): Bytes {
    if s == [] then []
    else
      var escaped := s[0] == ESCAPE && !lastEscaped;
      (if escaped then [] else [s[0]]) + Unescaped(s[1..], escaped)
  }

  lemma {:induction false} UnescapeEscaped(s: Bytes)
    ensures Clean(Escaped(s)) && Unescaped(Escaped(s), false) == s
    ensures Escaped(s) == [] <==> s == []
  {
    if s != [] {
      UnescapeEscaped(s[1..]);
      var e := Escaped(s[1..]);
      if s[0] >= ESCAPE {
        assert Escaped(s)[1..] == [s[0]] + e && ([s[0]] + e)[1..] == e && Escaped(s)[2..] == e;
      } else {
        assert Escaped(s)[1..] == e;
      }
    }
  }

  function LayoutOf(t: Tree): Layout {
    Layout(t.kind, Escaped(t.props),
      seq(|t.children|, i requires 0 <= i < |t.children| => Item(LayoutOf(t.children[i]), [])))
  }

  // The plain tree a parsed node stands for, with getProps applied to every node
  function TreeOf(file: Bytes, n: Node): Result<Tree> {
    if !(n.propsBegin <= n.propsEnd <= |file|) then InvalidFormat
    else if exists i | 0 <= i < |n.children| :: TreeOf(file, n.children[i]).InvalidFormat? then InvalidFormat
    else Ok(Tree(n.kind, Unescaped(file[n.propsBegin..n.propsEnd], false),
      seq(|n.children|, i requires 0 <= i < |n.children| => TreeOf(file, n.children[i]).value)))
  }

  lemma {:induction false} LayoutOfWellFormed(t: Tree)
    ensures WellFormed(LayoutOf(t))
  {
    UnescapeEscaped(t.props);
    forall i | 0 <= i < |t.children|
      ensures WellFormed(LayoutOf(t).items[i].node) && Clean(LayoutOf(t).items[i].skipped)
    {
      LayoutOfWellFormed(t.children[i]);
    }
  }

  lemma {:induction false} PrintedTree(file: Bytes, at: nat, t: Tree)
    requires LiesAt(file, at, Print(LayoutOf(t)))
    ensures TreeOf(file, NodeAt(LayoutOf(t), at)) == Ok(t)
    decreases t
  {
    var n := NodeAt(LayoutOf(t), at);
    OwnProps(file, at, t);
    forall i | 0 <= i < |t.children|
      ensures TreeOf(file, n.children[i]) == Ok(t.children[i])
    {
      var q := ChildPlace(file, at, t, i);
      PrintedTree(file, q, t.children[i]);
    }
    TreeOfParts(file, n, t);
  }

  lemma OwnProps(file: Bytes, at: nat, t: Tree)
    requires LiesAt(file, at, Print(LayoutOf(t)))
    ensures var n := NodeAt(LayoutOf(t), at);
      n.propsBegin <= n.propsEnd <= |file| && Unescaped(file[n.propsBegin..n.propsEnd], false) == t.props &&
      |n.children| == |t.children| && n.kind == t.kind
  {
    LayoutOfWellFormed(t);
    OwnRange(file, at, LayoutOf(t));
    PrintedParts(file, at, LayoutOf(t));
    UnescapeEscaped(t.props);
  }

  lemma ChildPlace(file: Bytes, at: nat, t: Tree, i: nat) returns (q: nat)
    requires LiesAt(file, at, Print(LayoutOf(t))) && i < |t.children|
    ensures LiesAt(file, q, Print(LayoutOf(t.children[i])))
    ensures |NodeAt(LayoutOf(t), at).children| == |t.children|
    ensures NodeAt(LayoutOf(t), at).children[i] == NodeAt(LayoutOf(t.children[i]), q)
  {
    var l := LayoutOf(t);
    q := at + 2 + |l.props| + |PrintItems(l, i)|;
    PrintedParts(file, at, l);
    ChildLies(file, at + 2, l, |l.items|, i);
    NodesAtIndex(l, at, |l.items|, i);
  }

  lemma TreeOfParts(file: Bytes, n: Node, t: Tree)
    requires n.propsBegin <= n.propsEnd <= |file| && n.kind == t.kind
    requires Unescaped(file[n.propsBegin..n.propsEnd], false) == t.props
    requires |n.children| == |t.children|
    requires forall i | 0 <= i < |t.children| :: TreeOf(file, n.children[i]) == Ok(t.children[i])
    ensures TreeOf(file, n) == Ok(t)
  {
    assert TreeOf(file, n).value.children == t.children;
  }

  lemma {:induction false} ChildLies(file: Bytes, at: nat, l: Layout, n: nat, k: nat)
    requires k < n <= |l.items| && LiesAt(file, at, l.props + PrintItems(l, n))
    ensures LiesAt(file, at + |l.props| + |PrintItems(l, k)|, Print(l.items[k].node))
    decreases n
  {
    ItemParts(file, at, l, n);
    if k < n - 1 {
      ChildLies(file, at, l, n - 1, k);
    }
  }

  lemma PrintedLength(t: Tree)
    ensures |Print(LayoutOf(t))| > 3 <==> t.props != [] || t.children != []
    ensures |Print(LayoutOf(t))| >= 3
  {
    var l := LayoutOf(t);
    UnescapeEscaped(t.props);
    if |t.children| > 0 {
      assert PrintItems(l, |l.items|) ==
        PrintItems(l, |l.items| - 1) + Print(l.items[|l.items| - 1].node) + l.items[|l.items| - 1].skipped;
    }
  }

  // Round trip: what is written for a tree is read back as that tree, exactly when the
  // file is above the minimal size, that is unless the tree is one node without properties.
  lemma RoundTrip(identifier: Bytes, t: Tree)
    requires |identifier| == IDENTIFIER_SIZE
    ensures var file := identifier + Print(LayoutOf(t));
      Loadable(file, identifier) <==> t.props != [] || t.children != []
    ensures var file := identifier + Print(LayoutOf(t));
      MINIMAL_SIZE < |file| ==> Parse(file).Ok? && TreeOf(file, Parse(file).value) == Ok(t)
  {
    var l := LayoutOf(t);
    var file := identifier + Print(l);
    assert file[..IDENTIFIER_SIZE] == identifier;
    PrintedLength(t);
    if MINIMAL_SIZE < |file| {
      assert Print(l) + [] == Print(l);
      LayoutOfWellFormed(t);
      assert InGrammar(file, l, []);
      GrammarParts(file, l, []);
      ParsePrinted(file, l, []);
      PrintedTree(file, IDENTIFIER_SIZE, t);
    }
  }

  // A written file is loadable for those who accept its identifier, or for everyone if that is
  // four zeros, and for no one else.
  lemma IdentifierExactly(identifier: Bytes, accepted: Bytes, t: Tree)
    requires |identifier| == 4 && (t.props != [] || t.children != [])
    ensures Loadable(identifier + Print(LayoutOf(t)), accepted) <==>
      identifier == accepted || identifier == [0, 0, 0, 0]
  {
    RoundTrip(identifier, t);
    assert (identifier + Print(LayoutOf(t)))[..4] == identifier;
  }
}
