// The OTB node-tree file format (fileloader.h, fileloader.cpp): the grammar of the
// files the loader takes, what each file means, and the loader's stack machine.
module OtbFormat {

  type Byte = b: int | 0 <= b < 256
  type Bytes = seq<Byte>

  const ESCAPE: Byte := 0xFD
  const START: Byte := 0xFE
  const END: Byte := 0xFF

  const IDENTIFIER_SIZE := 4
  // sizeof(Identifier) + sizeof(START) + sizeof(type) + sizeof(END)
  const MINIMAL_SIZE := 7
  const WILDCARD: Bytes := [0, 0, 0, 0]

  // A parsed node: its type byte and the range of its still escaped properties.
  datatype Node = Node(kind: Byte, propsBegin: nat, propsEnd: nat, children: seq<Node>)

  datatype Result<+T> = Ok(value: T) | InvalidFormat

  // ---------- The grammar ----------

  // No START or END outside an escape pair, and no escape pair cut short.
  predicate Clean(s: Bytes) {
    s == [] ||
    if s[0] == ESCAPE then 2 <= |s| && Clean(s[2..])
    else s[0] != START && s[0] != END && Clean(s[1..])
  }

  // A node as it lies in a file. The bytes after a child are skipped by the loader.
  datatype Layout = Layout(kind: Byte, props: Bytes, items: seq<Item>)
  datatype Item = Item(node: Layout, skipped: Bytes)

  predicate WellFormed(l: Layout) {
    Clean(l.props) && forall i | 0 <= i < |l.items| :: WellFormed(l.items[i].node) && Clean(l.items[i].skipped)
  }

  function Print(l: Layout): Bytes
    decreases l, |l.items| + 1
  {
    [START, l.kind] + l.props + PrintItems(l, |l.items|) + [END]
  }

  // The first n children of l
  function PrintItems(l: Layout, n: nat): Bytes
    requires n <= |l.items|
    decreases l, n
  {
    if n == 0 then []
    else PrintItems(l, n - 1) + Print(l.items[n - 1].node) + l.items[n - 1].skipped
  }

  // The node a layout printed at offset "at" is read as.
  function NodeAt(l: Layout, at: nat): Node
    decreases l, |l.items| + 1
  {
    Node(l.kind, at + 2, at + 2 + |l.props|, NodesAt(l, at, |l.items|))
  }

  function NodesAt(l: Layout, at: nat, n: nat): (nodes: seq<Node>)
    requires n <= |l.items|
    ensures |nodes| == n
    decreases l, n
  {
    if n == 0 then []
    else NodesAt(l, at, n - 1) + [NodeAt(l.items[n - 1].node, at + 2 + |l.props| + |PrintItems(l, n - 1)|)]
  }

  // ---------- The loader as a machine ----------

  // The open nodes from the root down; a node joins its parent's children when it
  // closes. "propsEnd" means something once there are children.
  datatype State = State(stack: seq<Node>, root: Result<Node>)

  // Closes the innermost open node.
  function Close(s: State, it: nat): (t: State)
    requires s.stack != []
    ensures |t.stack| == |s.stack| - 1
  {
    var rest, top := s.stack[..|s.stack| - 1], s.stack[|s.stack| - 1];
    var closed := Marked(top, it);
    if rest == [] then State([], Ok(closed))
    else
      var parent := rest[|rest| - 1];
      State(rest[|rest| - 1 := parent.(children := parent.children + [closed])], s.root)
  }

  // Opens a child of the innermost open node; "it" is the offset of its START.
  function Open(s: State, it: nat, kind: Byte): (t: State)
    requires s.stack != []
    ensures |t.stack| == |s.stack| + 1
  {
    var top := s.stack[|s.stack| - 1];
    State(s.stack[|s.stack| - 1 := Marked(top, it)] + [Node(kind, it + 2, 0, [])], s.root)
  }

  // The first child, or the end of the node, ends its properties.
  function Marked(n: Node, it: nat): Node {
    if n.children == [] then n.(propsEnd := it) else n
  }

  function Run(file: Bytes, it: nat, s: State): Result<Node>
    decreases |file| - it
  {
    if |file| <= it then
      if s.stack == [] then s.root else InvalidFormat
    else if file[it] == START then
      if s.stack == [] || |file| <= it + 1 then InvalidFormat
      else Run(file, it + 2, Open(s, it, file[it + 1]))
    else if file[it] == END then
      if s.stack == [] then InvalidFormat
      else Run(file, it + 1, Close(s, it))
    else if file[it] == ESCAPE then
      if |file| <= it + 1 then InvalidFormat
      else Run(file, it + 2, s)
    else
      Run(file, it + 1, s)
  }

  // What the constructor checks
  predicate Loadable(file: Bytes, accepted: Bytes) {
    MINIMAL_SIZE < |file| && (file[..IDENTIFIER_SIZE] == accepted || file[..IDENTIFIER_SIZE] == WILDCARD)
  }

  // What parseTree returns for a loaded file
  function Parse(file: Bytes): Result<Node>
    requires MINIMAL_SIZE < |file|
  {
    if file[IDENTIFIER_SIZE] != START then InvalidFormat
    else
      var root := Node(file[IDENTIFIER_SIZE + 1], IDENTIFIER_SIZE + 2, 0, []);
      Run(file, IDENTIFIER_SIZE + 2, State([root], InvalidFormat))
  }

  // ---------- Reading what was printed ----------

  // "part" lies at offset "at" of the file.
  predicate LiesAt(file: Bytes, at: nat, part: Bytes) {
    at + |part| <= |file| && file[at..at + |part|] == part
  }

  lemma LiesSplit(file: Bytes, at: nat, a: Bytes, b: Bytes)
    ensures LiesAt(file, at, a + b) <==> LiesAt(file, at, a) && LiesAt(file, at + |a|, b)
  {
    if LiesAt(file, at, a + b) {
      assert file[at..at + |a|] == (a + b)[..|a|] == a;
      assert file[at + |a|..at + |a| + |b|] == (a + b)[|a|..] == b;
    }
    if LiesAt(file, at, a) && LiesAt(file, at + |a|, b) {
      assert file[at..at + |a + b|] == file[at..at + |a|] + file[at + |a|..at + |a| + |b|];
    }
  }

  lemma {:induction false} RunClean(file: Bytes, it: nat, s: State, part: Bytes)
    requires Clean(part) && LiesAt(file, it, part)
    ensures Run(file, it, s) == Run(file, it + |part|, s)
    decreases |part|
  {
    if part != [] {
      assert file[it] == file[it..it + |part|][0] == part[0];
      var n := if part[0] == ESCAPE then 2 else 1;
      LiesSplit(file, it, part[..n], part[n..]);
      assert part[..n] + part[n..] == part;
      RunClean(file, it + n, s, part[n..]);
    }
  }

  lemma RunStart(file: Bytes, at: nat, s: State, kind: Byte)
    requires s.stack != [] && LiesAt(file, at, [START, kind])
    ensures Run(file, at, s) == Run(file, at + 2, Open(s, at, kind))
  {
    assert file[at] == file[at..at + 2][0] && file[at + 1] == file[at..at + 2][1];
  }

  lemma RunEnd(file: Bytes, at: nat, s: State)
    requires s.stack != [] && LiesAt(file, at, [END])
    ensures Run(file, at, s) == Run(file, at + 1, Close(s, at))
  {
    assert file[at] == file[at..at + 1][0];
  }

  // The open node after its properties and first n children have been read
  function OpenNode(l: Layout, at: nat, n: nat): Node
    requires n <= |l.items|
  {
    Node(l.kind, at + 2, if n == 0 then 0 else at + 2 + |l.props|, NodesAt(l, at, n))
  }

  // A child joins the innermost open node.
  function Joined(parent: Node, at: nat, child: Node): Node {
    Marked(parent, at).(children := parent.children + [child])
  }

  lemma PrintedParts(file: Bytes, at: nat, l: Layout)
    requires LiesAt(file, at, Print(l))
    ensures var items := PrintItems(l, |l.items|);
      LiesAt(file, at, [START, l.kind]) &&
      LiesAt(file, at + 2, l.props + items) &&
      LiesAt(file, at + 2 + |l.props| + |items|, [END]) &&
      |Print(l)| == 3 + |l.props| + |items|
  {
    var items := PrintItems(l, |l.items|);
    assert Print(l) == [START, l.kind] + (l.props + items) + [END];
    LiesSplit(file, at, [START, l.kind] + (l.props + items), [END]);
    LiesSplit(file, at, [START, l.kind], l.props + items);
  }

  lemma ItemParts(file: Bytes, at: nat, l: Layout, n: nat)
    requires 0 < n <= |l.items| && LiesAt(file, at, l.props + PrintItems(l, n))
    ensures var before, printed, skipped := PrintItems(l, n - 1), Print(l.items[n - 1].node), l.items[n - 1].skipped;
      LiesAt(file, at, l.props + before) &&
      LiesAt(file, at + |l.props| + |before|, printed) &&
      LiesAt(file, at + |l.props| + |before| + |printed|, skipped) &&
      |PrintItems(l, n)| == |before| + |printed| + |skipped|
  {
    var before, printed, skipped := PrintItems(l, n - 1), Print(l.items[n - 1].node), l.items[n - 1].skipped;
    assert l.props + PrintItems(l, n) == ((l.props + before) + printed) + skipped;
    LiesSplit(file, at, (l.props + before) + printed, skipped);
    LiesSplit(file, at, l.props + before, printed);
  }

  // The n-th child joins the first n - 1.
  lemma JoinedItem(l: Layout, at: nat, n: nat)
    requires 0 < n <= |l.items|
    ensures var q := at + 2 + |l.props| + |PrintItems(l, n - 1)|;
      Joined(OpenNode(l, at, n - 1), q, NodeAt(l.items[n - 1].node, q)) == OpenNode(l, at, n)
  {
    assert n == 1 ==> PrintItems(l, n - 1) == [];
  }

  // From just behind the type byte of a node, the machine reads the properties and
  // the first n children into the innermost open node.
  lemma {:induction false} RunItems(file: Bytes, at: nat, l: Layout, n: nat, below: seq<Node>, root: Result<Node>)
    requires WellFormed(l) && n <= |l.items|
    requires LiesAt(file, at + 2, l.props + PrintItems(l, n))
    ensures Run(file, at + 2, State(below + [OpenNode(l, at, 0)], root)) ==
            Run(file, at + 2 + |l.props| + |PrintItems(l, n)|, State(below + [OpenNode(l, at, n)], root))
    decreases l, n, 1
  {
    if n == 0 {
      LiesSplit(file, at + 2, l.props, []);
      RunClean(file, at + 2, State(below + [OpenNode(l, at, 0)], root), l.props);
    } else {
      ItemParts(file, at + 2, l, n);
      RunItems(file, at, l, n - 1, below, root);
      RunItem(file, at, l, n, at + 2 + |l.props| + |PrintItems(l, n - 1)|, below, root);
    }
  }

  // The n-th child, and what is skipped behind it
  lemma {:induction false} RunItem(file: Bytes, at: nat, l: Layout, n: nat, q: nat, below: seq<Node>,
                                   root: Result<Node>)
    requires WellFormed(l) && 0 < n <= |l.items| && q == at + 2 + |l.props| + |PrintItems(l, n - 1)|
    requires LiesAt(file, at + 2, l.props + PrintItems(l, n))
    ensures Run(file, q, State(below + [OpenNode(l, at, n - 1)], root)) ==
            Run(file, at + 2 + |l.props| + |PrintItems(l, n)|, State(below + [OpenNode(l, at, n)], root))
    decreases l, n, 0
  {
    ItemParts(file, at + 2, l, n);
    RunNode(file, q, l.items[n - 1].node, below, OpenNode(l, at, n - 1), root);
    RunSkipped(file, at, l, n, below, root);
  }

  // Behind the n-th child, the skipped bytes lead to the next item.
  lemma RunSkipped(file: Bytes, at: nat, l: Layout, n: nat, below: seq<Node>, root: Result<Node>)
    requires WellFormed(l) && 0 < n <= |l.items|
    requires LiesAt(file, at + 2, l.props + PrintItems(l, n))
    ensures var q := at + 2 + |l.props| + |PrintItems(l, n - 1)|;
      var child := l.items[n - 1].node;
      Run(file, q + |Print(child)|, State(below + [Joined(OpenNode(l, at, n - 1), q, NodeAt(child, q))], root)) ==
      Run(file, at + 2 + |l.props| + |PrintItems(l, n)|, State(below + [OpenNode(l, at, n)], root))
  {
    var child, skipped := l.items[n - 1].node, l.items[n - 1].skipped;
    var q := at + 2 + |l.props| + |PrintItems(l, n - 1)|;
    ItemParts(file, at + 2, l, n);
    JoinedItem(l, at, n);
    var e := q + |Print(child)|;
    assert e + |skipped| == at + 2 + |l.props| + |PrintItems(l, n)|;
    RunClean(file, e, State(below + [OpenNode(l, at, n)], root), skipped);
  }

  // A printed node, read inside the open node "parent", joins its children.
  lemma {:induction false} RunNode(file: Bytes, at: nat, l: Layout, below: seq<Node>, parent: Node, root: Result<Node>)
    requires WellFormed(l) && LiesAt(file, at, Print(l))
    ensures Run(file, at, State(below + [parent], root)) ==
      Run(file, at + |Print(l)|, State(below + [Joined(parent, at, NodeAt(l, at))], root))
    decreases l, |l.items| + 1, 0
  {
    var n := |l.items|;
    var marked := Marked(parent, at);
    var s := State(below + [parent], root);
    PrintedParts(file, at, l);
    RunStart(file, at, s, l.kind);
    OpenAt(below, parent, root, at, l);
    RunItems(file, at, l, n, below + [marked], root);
    var e := at + 2 + |l.props| + |PrintItems(l, n)|;
    RunEnd(file, e, State(below + [marked] + [OpenNode(l, at, n)], root));
    CloseAt(below, parent, root, at, l);
  }

  lemma OpenAt(below: seq<Node>, parent: Node, root: Result<Node>, at: nat, l: Layout)
    ensures var marked := Marked(parent, at);
      Open(State(below + [parent], root), at, l.kind) == State(below + [marked] + [OpenNode(l, at, 0)], root)
  {
  }

  lemma CloseAt(below: seq<Node>, parent: Node, root: Result<Node>, at: nat, l: Layout)
    ensures var marked := Marked(parent, at);
      var n := |l.items|;
      Close(State(below + [marked] + [OpenNode(l, at, n)], root), at + |Print(l)| - 1) ==
      State(below + [Joined(parent, at, NodeAt(l, at))], root)
  {
    var marked := Marked(parent, at);
    var full := below + [marked] + [OpenNode(l, at, |l.items|)];
    assert full[..|full| - 1] == below + [marked];
    assert |Print(l)| == 3 + |l.props| + |PrintItems(l, |l.items|)|;
  }

  // The identifier, one printed node, and any clean bytes behind it
  ghost predicate InGrammar(file: Bytes, l: Layout, skipped: Bytes) {
    IDENTIFIER_SIZE <= |file| && WellFormed(l) && Clean(skipped) && file[IDENTIFIER_SIZE..] == Print(l) + skipped
  }

  lemma GrammarParts(file: Bytes, l: Layout, skipped: Bytes)
    requires InGrammar(file, l, skipped)
    ensures LiesAt(file, IDENTIFIER_SIZE, Print(l)) && LiesAt(file, IDENTIFIER_SIZE + |Print(l)|, skipped)
    ensures IDENTIFIER_SIZE + |Print(l)| + |skipped| == |file|
  {
    LiesSplit(file, IDENTIFIER_SIZE, Print(l), skipped);
  }

  // Every file of the grammar is accepted and read as its layout says.
  lemma ParsePrinted(file: Bytes, l: Layout, skipped: Bytes)
    requires MINIMAL_SIZE < |file| && InGrammar(file, l, skipped)
    ensures Parse(file) == Ok(NodeAt(l, IDENTIFIER_SIZE))
  {
    var at, n := IDENTIFIER_SIZE, |l.items|;
    GrammarParts(file, l, skipped);
    PrintedParts(file, at, l);
    assert file[at] == file[at..at + 2][0] && file[at + 1] == file[at..at + 2][1];
    RunItems(file, at, l, n, [], InvalidFormat);
    assert [] + [OpenNode(l, at, 0)] == [OpenNode(l, at, 0)] && [] + [OpenNode(l, at, n)] == [OpenNode(l, at, n)];
    RunClosed(file, l, skipped);
  }

  lemma RunClosed(file: Bytes, l: Layout, skipped: Bytes)
    requires InGrammar(file, l, skipped)
    ensures Run(file, IDENTIFIER_SIZE + 2 + |l.props| + |PrintItems(l, |l.items|)|,
                State([OpenNode(l, IDENTIFIER_SIZE, |l.items|)], InvalidFormat)) == Ok(NodeAt(l, IDENTIFIER_SIZE))
  {
    var at, n := IDENTIFIER_SIZE, |l.items|;
    var e := at + 2 + |l.props| + |PrintItems(l, n)|;
    GrammarParts(file, l, skipped);
    PrintedParts(file, at, l);
    RunEnd(file, e, State([OpenNode(l, at, n)], InvalidFormat));
    RunClean(file, e + 1, State([], Ok(NodeAt(l, at))), skipped);
  }

  // ---------- Whatever is accepted was printed ----------

  lemma {:induction false} CleanAppend(a: Bytes, b: Bytes)
    requires Clean(a) && Clean(b)
    ensures Clean(a + b)
    decreases |a|
  {
    if a == [] {
      assert a + b == b;
    } else {
      var n := if a[0] == ESCAPE then 2 else 1;
      CleanAppend(a[n..], b);
      assert (a + b)[n..] == a[n..] + b;
    }
  }

  // More skipped bytes behind what has been read of l so far
  function Extended(l: Layout, more: Bytes): Layout {
    if l.items == [] then l.(props := l.props + more)
    else
      var last := |l.items| - 1;
      l.(items := l.items[last := l.items[last].(skipped := l.items[last].skipped + more)])
  }

  function WithChild(l: Layout, child: Layout): Layout {
    l.(items := l.items + [Item(child, [])])
  }

  // Layouts that agree on their first n children print and read those alike.
  lemma {:induction false} SamePrefix(l: Layout, m: Layout, at: nat, n: nat)
    requires n <= |l.items| && n <= |m.items| && l.items[..n] == m.items[..n] && l.props == m.props
    ensures PrintItems(l, n) == PrintItems(m, n) && NodesAt(l, at, n) == NodesAt(m, at, n)
    decreases n
  {
    if n > 0 {
      assert l.items[n - 1] == l.items[..n][n - 1] == m.items[..n][n - 1] == m.items[n - 1];
      assert l.items[..n - 1] == l.items[..n][..n - 1] == m.items[..n][..n - 1] == m.items[..n - 1];
      SamePrefix(l, m, at, n - 1);
    }
  }

  lemma ExtendedIsWellFormed(l: Layout, more: Bytes)
    requires WellFormed(l) && Clean(more)
    ensures WellFormed(Extended(l, more))
  {
    var m, n := Extended(l, more), |l.items|;
    if n == 0 {
      CleanAppend(l.props, more);
    } else {
      CleanAppend(l.items[n - 1].skipped, more);
      forall i | 0 <= i < n
        ensures WellFormed(m.items[i].node) && Clean(m.items[i].skipped)
      {
        assert i < n - 1 ==> m.items[i] == l.items[i];
      }
    }
  }

  // Layouts that differ only in what is skipped behind the last child
  lemma LastSkipped(l: Layout, m: Layout, more: Bytes, at: nat)
    requires |l.items| == |m.items| > 0 && l.kind == m.kind && l.props == m.props
    requires var n := |l.items|;
      l.items[..n - 1] == m.items[..n - 1] && m.items[n - 1].node == l.items[n - 1].node &&
      m.items[n - 1].skipped == l.items[n - 1].skipped + more
    ensures PrintItems(m, |m.items|) == PrintItems(l, |l.items|) + more
    ensures NodesAt(m, at, |m.items|) == NodesAt(l, at, |l.items|)
  {
    var n := |l.items|;
    SamePrefix(l, m, at, n - 1);
    var before, printed, skipped := PrintItems(l, n - 1), Print(l.items[n - 1].node), l.items[n - 1].skipped;
    assert before + printed + (skipped + more) == before + printed + skipped + more;
  }

  lemma ExtendedPrints(l: Layout, more: Bytes, at: nat)
    requires l.items != []
    ensures var m, n := Extended(l, more), |l.items|;
      PrintItems(m, n) == PrintItems(l, n) + more && OpenNode(m, at, n) == OpenNode(l, at, n)
  {
    var m, n := Extended(l, more), |l.items|;
    assert l.items[..n - 1] == m.items[..n - 1];
    LastSkipped(l, m, more, at);
  }

  lemma ExtendedReads(l: Layout, more: Bytes, at: nat)
    requires WellFormed(l) && Clean(more)
    ensures var m := Extended(l, more);
      WellFormed(m) && m.kind == l.kind && |m.items| == |l.items| &&
      m.props + PrintItems(m, |m.items|) == l.props + PrintItems(l, |l.items|) + more &&
      OpenNode(m, at, |m.items|) == OpenNode(l, at, |l.items|)
  {
    var items := PrintItems(l, |l.items|);
    ExtendedIsWellFormed(l, more);
    if l.items != [] {
      ExtendedPrints(l, more, at);
      assert l.props + (items + more) == l.props + items + more;
    }
  }

  lemma WithChildPrints(l: Layout, child: Layout)
    requires WellFormed(l) && WellFormed(child)
    ensures var m := WithChild(l, child);
      WellFormed(m) && PrintItems(m, |m.items|) == PrintItems(l, |l.items|) + Print(child)
  {
    var m, n := WithChild(l, child), |l.items|;
    assert m.items[..n] == l.items[..n];
    SamePrefix(l, m, 0, n);
    assert m.items[n] == Item(child, []);
    assert PrintItems(m, n + 1) == PrintItems(m, n) + Print(child) + [];
    forall i | 0 <= i < |m.items|
      ensures WellFormed(m.items[i].node) && Clean(m.items[i].skipped)
    {
      if i < n { assert m.items[i] == l.items[i]; }
    }
  }

  lemma WithChildReads(l: Layout, child: Layout, at: nat)
    ensures var m := WithChild(l, child);
      var q := at + 2 + |l.props| + |PrintItems(l, |l.items|)|;
      OpenNode(m, at, |m.items|) == Joined(OpenNode(l, at, |l.items|), q, NodeAt(child, q))
  {
    var m, n := WithChild(l, child), |l.items|;
    assert m.items[..n] == l.items[..n];
    SamePrefix(l, m, at, n);
    assert m.items[n] == Item(child, []);
    assert n == 0 ==> PrintItems(l, n) == [];
    assert NodesAt(m, at, n + 1) == NodesAt(m, at, n) + [NodeAt(child, at + 2 + |m.props| + |PrintItems(m, n)|)];
  }

  // The bytes of an open node up to where the machine stands
  function SoFar(l: Layout): Bytes {
    [START, l.kind] + (l.props + PrintItems(l, |l.items|))
  }

  lemma AfterChild(file: Bytes, at: nat, l: Layout, child: Layout)
    requires WellFormed(l) && WellFormed(child)
    requires LiesAt(file, at, SoFar(l)) && LiesAt(file, at + |SoFar(l)|, Print(child))
    ensures var m := WithChild(l, child);
      WellFormed(m) && |SoFar(m)| == |SoFar(l)| + |Print(child)| && LiesAt(file, at, SoFar(m))
  {
    WithChildPrints(l, child);
    LiesSplit(file, at, SoFar(l), Print(child));
    assert SoFar(l) + Print(child) == SoFar(WithChild(l, child));
  }

  lemma AfterMore(file: Bytes, at: nat, l: Layout, more: Bytes)
    requires WellFormed(l) && Clean(more)
    requires LiesAt(file, at, SoFar(l)) && LiesAt(file, at + |SoFar(l)|, more)
    ensures var m := Extended(l, more);
      WellFormed(m) && |SoFar(m)| == |SoFar(l)| + |more| && LiesAt(file, at, SoFar(m))
  {
    ExtendedReads(l, more, at);
    LiesSplit(file, at, SoFar(l), more);
    assert SoFar(l) + more == SoFar(Extended(l, more));
  }

  lemma AtEnd(file: Bytes, at: nat, l: Layout)
    requires LiesAt(file, at, SoFar(l)) && LiesAt(file, at + |SoFar(l)|, [END])
    ensures LiesAt(file, at, Print(l)) && |Print(l)| == |SoFar(l)| + 1
  {
    LiesSplit(file, at, SoFar(l), [END]);
    assert SoFar(l) + [END] == Print(l);
  }

  // The machine, in an accepted file, stands in an open node begun at "at".
  ghost predicate Standing(file: Bytes, at: nat, l: Layout, below: seq<Node>, root: Result<Node>) {
    WellFormed(l) && LiesAt(file, at, SoFar(l)) &&
    Run(file, at + |SoFar(l)|, State(below + [OpenNode(l, at, |l.items|)], root)).Ok?
  }

  // It goes on to the END of that node, whose layout is m.
  ghost predicate ReadsOnTo(file: Bytes, at: nat, l: Layout, m: Layout, below: seq<Node>, root: Result<Node>) {
    WellFormed(m) && LiesAt(file, at, Print(m)) && |SoFar(l)| < |Print(m)| &&
    var e := at + |Print(m)|;
    Run(file, at + |SoFar(l)|, State(below + [OpenNode(l, at, |l.items|)], root)) ==
    Run(file, e, Close(State(below + [OpenNode(m, at, |m.items|)], root), e - 1))
  }

  // From anywhere inside an open node of an accepted file, the machine comes to the
  // node's END, and what it read by then is the printed form of some layout.
  lemma {:induction false} ReadToEnd(file: Bytes, at: nat, l: Layout, below: seq<Node>, root: Result<Node>)
    returns (m: Layout)
    requires Standing(file, at, l, below, root)
    ensures ReadsOnTo(file, at, l, m, below, root)
    decreases |file| - at - |SoFar(l)|, 1
  {
    var it := at + |SoFar(l)|;
    var s := State(below + [OpenNode(l, at, |l.items|)], root);
    assert it < |file|;
    if file[it] == END {
      AtEnd(file, at, l);
      m := l;
    } else if file[it] == START {
      m := ReadChild(file, at, l, below, root);
    } else {
      m := ReadMore(file, at, l, below, root);
    }
  }

  lemma {:induction false} ReadMore(file: Bytes, at: nat, l: Layout, below: seq<Node>, root: Result<Node>)
    returns (m: Layout)
    requires Standing(file, at, l, below, root)
    requires at + |SoFar(l)| < |file| && file[at + |SoFar(l)|] != START && file[at + |SoFar(l)|] != END
    ensures ReadsOnTo(file, at, l, m, below, root)
    decreases |file| - at - |SoFar(l)|, 0
  {
    var it := at + |SoFar(l)|;
    var n := if file[it] == ESCAPE then 2 else 1;
    var more := file[it..it + n];
    RunClean(file, it, State(below + [OpenNode(l, at, |l.items|)], root), more);
    AfterMore(file, at, l, more);
    ExtendedReads(l, more, at);
    m := ReadToEnd(file, at, Extended(l, more), below, root);
    ReadsOnFromMore(file, at, l, more, m, below, root);
  }

  // What is read on from behind clean bytes is read on from before them.
  lemma ReadsOnFromMore(file: Bytes, at: nat, l: Layout, more: Bytes, m: Layout, below: seq<Node>, root: Result<Node>)
    requires ReadsOnTo(file, at, Extended(l, more), m, below, root)
    requires |SoFar(Extended(l, more))| == |SoFar(l)| + |more|
    requires var x := Extended(l, more);
      var s := State(below + [OpenNode(l, at, |l.items|)], root);
      OpenNode(x, at, |x.items|) == OpenNode(l, at, |l.items|) &&
      Run(file, at + |SoFar(l)|, s) == Run(file, at + |SoFar(l)| + |more|, s)
    ensures ReadsOnTo(file, at, l, m, below, root)
  {
  }

  lemma ChildOpens(file: Bytes, it: nat, below: seq<Node>, top: Node, root: Result<Node>)
    requires it < |file| && file[it] == START && Run(file, it, State(below + [top], root)).Ok?
    ensures it + 1 < |file| &&
      Run(file, it, State(below + [top], root)) ==
      Run(file, it + 2, State(below + [Marked(top, it)] + [OpenNode(Layout(file[it + 1], [], []), it, 0)], root))
  {
    OpenAt(below, top, root, it, Layout(file[it + 1], [], []));
  }

  lemma FreshLayout(l: Layout, at: nat)
    requires l.props == [] && l.items == []
    ensures |SoFar(l)| == 2 && at + |SoFar(l)| == at + 2 && OpenNode(l, at, |l.items|) == OpenNode(l, at, 0)
    ensures SoFar(l) == [START, l.kind]
  {
  }

  lemma ChildStands(file: Bytes, it: nat, below: seq<Node>, root: Result<Node>)
    requires it + 1 < |file| && file[it] == START
    requires Run(file, it + 2, State(below + [OpenNode(Layout(file[it + 1], [], []), it, 0)], root)).Ok?
    ensures Standing(file, it, Layout(file[it + 1], [], []), below, root)
  {
    var child0 := Layout(file[it + 1], [], []);
    FreshLayout(child0, it);
    assert SoFar(child0) == file[it..it + 2];
  }

  // Reading on from just behind the type byte
  lemma FreshReadsOnTo(file: Bytes, at: nat, l: Layout, m: Layout, below: seq<Node>, root: Result<Node>)
    requires l.props == [] && l.items == [] && ReadsOnTo(file, at, l, m, below, root)
    ensures Run(file, at + 2, State(below + [OpenNode(l, at, 0)], root)) ==
      Run(file, at + |Print(m)|, Close(State(below + [OpenNode(m, at, |m.items|)], root), at + |Print(m)| - 1))
  {
    FreshLayout(l, at);
  }

  // From the START of a child to behind its END
  lemma ChildRun(file: Bytes, it: nat, child: Layout, below: seq<Node>, top: Node, root: Result<Node>)
    requires it + 1 < |file| && file[it] == START && Run(file, it, State(below + [top], root)).Ok?
    requires ReadsOnTo(file, it, Layout(file[it + 1], [], []), child, below + [Marked(top, it)], root)
    ensures Run(file, it, State(below + [top], root)) ==
      Run(file, it + |Print(child)|, State(below + [Joined(top, it, NodeAt(child, it))], root))
  {
    ChildOpens(file, it, below, top, root);
    FreshReadsOnTo(file, it, Layout(file[it + 1], [], []), child, below + [Marked(top, it)], root);
    CloseAt(below, top, root, it, child);
  }

  lemma ChildCloses(file: Bytes, at: nat, l: Layout, child: Layout, below: seq<Node>, root: Result<Node>)
    requires Standing(file, at, l, below, root) && WellFormed(child)
    requires var it, top := at + |SoFar(l)|, OpenNode(l, at, |l.items|);
      LiesAt(file, it, Print(child)) &&
      Run(file, it, State(below + [top], root)) ==
      Run(file, it + |Print(child)|, State(below + [Joined(top, it, NodeAt(child, it))], root))
    ensures Standing(file, at, WithChild(l, child), below, root)
    ensures var m := WithChild(l, child);
      |SoFar(l)| < |SoFar(m)| &&
      Run(file, at + |SoFar(l)|, State(below + [OpenNode(l, at, |l.items|)], root)) ==
      Run(file, at + |SoFar(m)|, State(below + [OpenNode(m, at, |m.items|)], root))
  {
    var it := at + |SoFar(l)|;
    AfterChild(file, at, l, child);
    JoinedIsOpen(l, child, at);
    assert it + |Print(child)| == at + |SoFar(WithChild(l, child))|;
  }

  lemma JoinedIsOpen(l: Layout, child: Layout, at: nat)
    ensures var m := WithChild(l, child);
      var it := at + |SoFar(l)|;
      OpenNode(m, at, |m.items|) == Joined(OpenNode(l, at, |l.items|), it, NodeAt(child, it))
  {
    WithChildReads(l, child, at);
  }

  lemma {:induction false} ReadChild(file: Bytes, at: nat, l: Layout, below: seq<Node>, root: Result<Node>)
    returns (m: Layout)
    requires Standing(file, at, l, below, root)
    requires at + |SoFar(l)| < |file| && file[at + |SoFar(l)|] == START
    ensures ReadsOnTo(file, at, l, m, below, root)
    decreases |file| - at - |SoFar(l)|, 0
  {
    var it, top := at + |SoFar(l)|, OpenNode(l, at, |l.items|);
    ChildOpens(file, it, below, top, root);
    ChildStands(file, it, below + [Marked(top, it)], root);
    var child := ReadToEnd(file, it, Layout(file[it + 1], [], []), below + [Marked(top, it)], root);
    ChildRun(file, it, child, below, top, root);
    ChildCloses(file, at, l, child, below, root);
    m := ReadToEnd(file, at, WithChild(l, child), below, root);
  }

  // After the root has closed, only clean bytes are accepted.
  lemma {:induction false} RestIsClean(file: Bytes, it: nat, s: State)
    requires s.stack == [] && it <= |file| && Run(file, it, s).Ok?
    ensures Clean(file[it..]) && Run(file, it, s) == s.root
    decreases |file| - it
  {
    if it < |file| {
      var n := if file[it] == ESCAPE then 2 else 1;
      RestIsClean(file, it + n, s);
      assert file[it..][n..] == file[it + n..];
    }
  }

  lemma AcceptedWasPrinted(file: Bytes) returns (l: Layout, skipped: Bytes)
    requires MINIMAL_SIZE < |file| && Parse(file).Ok?
    ensures InGrammar(file, l, skipped)
  {
    var at := IDENTIFIER_SIZE;
    var l0 := Layout(file[at + 1], [], []);
    assert [] + [OpenNode(l0, at, 0)] == [Node(file[at + 1], at + 2, 0, [])];
    assert SoFar(l0) == file[at..at + 2];
    l := ReadToEnd(file, at, l0, [], InvalidFormat);
    var e := at + |Print(l)|;
    skipped := file[e..];
    RestIsClean(file, e, Close(State([] + [OpenNode(l, at, |l.items|)], InvalidFormat), e - 1));
    assert file[at..] == file[at..e] + file[e..];
  }

  // The loader accepts exactly the grammar, and reads a file as every layout of it says.
  lemma ParseExactly(file: Bytes)
    requires MINIMAL_SIZE < |file|
    ensures Parse(file).Ok? <==> exists l, skipped :: InGrammar(file, l, skipped)
    ensures forall l, skipped | InGrammar(file, l, skipped) :: Parse(file) == Ok(NodeAt(l, IDENTIFIER_SIZE))
  {
    if Parse(file).Ok? {
      var l, skipped := AcceptedWasPrinted(file);
    }
    forall l, skipped | InGrammar(file, l, skipped)
      ensures Parse(file) == Ok(NodeAt(l, IDENTIFIER_SIZE))
    {
      ParsePrinted(file, l, skipped);
    }
  }
}
