// OTB::Loader: parseTree with its stack of pointers into the tree it is building, and
// getProps with its buffer.
module OtbLoader {
  import opened OtbFormat
  import OtbTrees

  // OTB::Node. "propsEnd" is not initialised by the constructor of the original.
  class TreeNode {
    var kind: Byte
    var propsBegin: nat
    var propsEnd: nat
    var children: seq<TreeNode>

    constructor (kind: Byte, propsBegin: nat)
      ensures this.kind == kind && this.propsBegin == propsBegin && propsEnd == 0 && children == []
    {
      this.kind, this.propsBegin, propsEnd, children := kind, propsBegin, 0, [];
    }

    // This node, and all below it in "closed", hold what "n" says.
    ghost predicate Holds(n: Node, closed: set<TreeNode>)
      reads closed
      decreases n
    {
      this in closed && kind == n.kind && propsBegin == n.propsBegin && propsEnd == n.propsEnd &&
      |children| == |n.children| && forall i | 0 <= i < |children| :: children[i].Holds(n.children[i], closed)
    }

    lemma {:induction false} HoldsInMore(n: Node, closed: set<TreeNode>, more: set<TreeNode>)
      requires closed <= more && Holds(n, closed)
      ensures Holds(n, more)
      decreases n
    {
      forall i | 0 <= i < |children|
        ensures children[i].Holds(n.children[i], more)
      {
        children[i].HoldsInMore(n.children[i], closed, more);
      }
    }
  }

  // An open node: its own fields, and its closed children followed by the open one, if any.
  ghost predicate HoldsOpen(t: TreeNode, n: Node, open: seq<TreeNode>, closed: set<TreeNode>)
    reads t, closed
  {
    t !in closed && t.kind == n.kind && t.propsBegin == n.propsBegin && t.propsEnd == n.propsEnd &&
    |t.children| == |n.children| + |open| && t.children[|n.children|..] == open &&
    forall i | 0 <= i < |n.children| :: t.children[i].Holds(n.children[i], closed)
  }

  // The pointer stack stands for the open nodes of the machine; "tail" is what the top
  // node has behind its closed children.
  ghost predicate Stands(stack: seq<TreeNode>, nodes: seq<Node>, closed: set<TreeNode>, tail: seq<TreeNode>)
    reads stack, closed
    decreases |stack|
  {
    |stack| == |nodes| &&
    (stack != [] ==>
       var n := |stack| - 1;
       stack[n] !in stack[..n] && HoldsOpen(stack[n], nodes[n], tail, closed) &&
       Stands(stack[..n], nodes[..n], closed, [stack[n]]))
  }

  lemma {:induction false} ChildrenHold(t: TreeNode, n: Node, closed: set<TreeNode>, more: set<TreeNode>)
    requires closed <= more && |n.children| <= |t.children|
    requires forall i | 0 <= i < |n.children| :: t.children[i].Holds(n.children[i], closed)
    ensures forall i | 0 <= i < |n.children| :: t.children[i].Holds(n.children[i], more)
  {
    forall i | 0 <= i < |n.children|
      ensures t.children[i].Holds(n.children[i], more)
    {
      t.children[i].HoldsInMore(n.children[i], closed, more);
    }
  }

  lemma {:induction false} StandsInMore(stack: seq<TreeNode>, nodes: seq<Node>, closed: set<TreeNode>, more: TreeNode,
                                        tail: seq<TreeNode>)
    requires Stands(stack, nodes, closed, tail) && more !in stack
    ensures Stands(stack, nodes, closed + {more}, tail)
    decreases |stack|
  {
    if stack != [] {
      var n := |stack| - 1;
      ChildrenHold(stack[n], nodes[n], closed, closed + {more});
      StandsInMore(stack[..n], nodes[..n], closed, more, [stack[n]]);
    }
  }

  class Loader {
    const fileContents: Bytes
    var root: TreeNode
    var propBuffer: seq<Byte>

    // The constructor throws InvalidOTBFormat unless the file is Loadable.
    constructor (fileContents: Bytes, acceptedIdentifier: Bytes)
      requires Loadable(fileContents, acceptedIdentifier)
      ensures this.fileContents == fileContents && fresh(root)
    {
      this.fileContents := fileContents;
      root := new TreeNode(0, 0);
      propBuffer := [];
    }

    // A new node behind those that are closed
    method AddChild(current: TreeNode, it: nat, kind: Byte, ghost node: Node, ghost closed: set<TreeNode>)
      returns (child: TreeNode)
      requires HoldsOpen(current, node, [], closed)
      modifies current
      ensures HoldsOpen(current, Marked(node, it), [child], closed) && fresh(child)
      ensures HoldsOpen(child, Node(kind, it + 2, 0, []), [], closed)
    {
      if current.children == [] {
        current.propsEnd := it;
      }
      child := new TreeNode(kind, it + 2);
      current.children := current.children + [child];
    }

    // Opens a child of the node on top of the stack.
    method OpenChild(stack: seq<TreeNode>, it: nat, kind: Byte, ghost s: State, ghost closed: set<TreeNode>)
      returns (child: TreeNode)
      requires stack != [] && Stands(stack, s.stack, closed, [])
      modifies stack[|stack| - 1]
      ensures Stands(stack + [child], Open(s, it, kind).stack, closed, []) && fresh(child)
    {
      var n := |stack| - 1;
      child := AddChild(stack[n], it, kind, s.stack[n], closed);
      ghost var nodes := Open(s, it, kind).stack;
      assert stack[..n] == (stack + [child])[..n + 1][..n] && nodes[..n] == nodes[..n + 1][..n] == s.stack[..n];
      assert stack == (stack + [child])[..n + 1];
      assert Stands(stack, nodes[..n + 1], closed, [child]);
    }

    // Pops the node on top of the stack.
    method CloseTop(stack: seq<TreeNode>, it: nat, ghost s: State, ghost closed: set<TreeNode>)
      requires stack != [] && Stands(stack, s.stack, closed, [])
      modifies stack[|stack| - 1]
      ensures var n := |stack| - 1;
        Stands(stack[..n], Close(s, it).stack, closed + {stack[n]}, []) &&
        (n == 0 ==> Close(s, it).root.Ok? && stack[0].Holds(Close(s, it).root.value, closed + {stack[n]}))
    {
      var n := |stack| - 1;
      var current := stack[n];
      if current.children == [] {
        current.propsEnd := it;
      }
      ghost var top := s.stack[n];
      ghost var done := Marked(top, it);
      ChildrenHold(current, top, closed, closed + {current});
      assert current.Holds(done, closed + {current});
      StandsInMore(stack[..n], s.stack[..n], closed, current, [current]);
      if n > 0 {
        JoinChild(stack[..n], s.stack[..n], closed + {current}, current, done);
      }
      CloseIs(s, it);
    }

    // What closing the top node leaves
    lemma CloseIs(s: State, it: nat)
      requires s.stack != []
      ensures var n := |s.stack| - 1;
        var done := Marked(s.stack[n], it);
        if n == 0 then Close(s, it) == State([], Ok(done))
        else
          Close(s, it).stack ==
            s.stack[..n][n - 1 := s.stack[..n][n - 1].(children := s.stack[..n][n - 1].children + [done])]
    {
    }

    // The open child on top of its parent has closed and counts as one of its children.
    lemma JoinChild(stack: seq<TreeNode>, nodes: seq<Node>, closed: set<TreeNode>, child: TreeNode, done: Node)
      requires stack != [] && Stands(stack, nodes, closed, [child]) && child.Holds(done, closed)
      ensures var m := |nodes| - 1;
        Stands(stack, nodes[m := nodes[m].(children := nodes[m].children + [done])], closed, [])
    {
      var m := |nodes| - 1;
      var parent, joined := stack[m], nodes[m].(children := nodes[m].children + [done]);
      assert parent.children[|nodes[m].children|..][0] == child;
      assert HoldsOpen(parent, joined, [], closed);
      assert nodes[m := joined][..m] == nodes[..m];
    }

    // One round of the loop of parseTree; "thrown" when it throws InvalidOTBFormat.
    method Round(stack: seq<TreeNode>, it: nat, ghost s: State, ghost closed: set<TreeNode>)
      returns (thrown: bool, stack': seq<TreeNode>, it': nat, ghost s': State, ghost closed': set<TreeNode>)
      requires it < |fileContents| && Stands(stack, s.stack, closed, [])
      modifies if stack == [] then {} else {stack[|stack| - 1]}
      ensures thrown ==> Run(fileContents, it, s) == InvalidFormat
      ensures !thrown ==> it < it' <= |fileContents| && Run(fileContents, it, s) == Run(fileContents, it', s')
      ensures !thrown ==> Stands(stack', s'.stack, closed', [])
      ensures !thrown ==> stack' == stack || (stack != [] && stack' == stack[..|stack| - 1]) ||
                          (stack' != [] && stack'[..|stack'| - 1] == stack && stack != [] &&
                           fresh(stack'[|stack'| - 1]))
      ensures !thrown && stack' == [] ==>
        if stack == [] then s'.root == s.root && closed' == closed
        else s'.root.Ok? && stack[0].Holds(s'.root.value, closed')
    {
      var c := fileContents[it];
      thrown, stack', it', s', closed' := false, stack, it, s, closed;
      if c == START {
        if stack == [] || it + 1 == |fileContents| {
          thrown := true;
          return;
        }
        var child := OpenChild(stack, it, fileContents[it + 1], s, closed);
        stack' := stack + [child];
        s' := Open(s, it, fileContents[it + 1]);
        it' := it' + 1;
      } else if c == END {
        if stack == [] {
          thrown := true;
          return;
        }
        CloseTop(stack, it, s, closed);
        closed' := closed + {stack[|stack| - 1]};
        stack' := stack[..|stack| - 1];
        s' := Close(s, it);
      } else if c == ESCAPE {
        it' := it' + 1;
        if it' == |fileContents| {
          thrown := true;
          return;
        }
      }
      it' := it' + 1;
    }

    // parseTree. On success the tree below "root" holds the node the format gives for
    // the file; on failure it throws InvalidOTBFormat.
    method ParseTree() returns (ok: bool, ghost nodes: set<TreeNode>)
      requires MINIMAL_SIZE < |fileContents|
      modifies root
      ensures ok <==> Parse(fileContents).Ok?
      ensures ok ==> root.Holds(Parse(fileContents).value, nodes)
    {
      nodes := {};
      var it := IDENTIFIER_SIZE;
      if fileContents[it] != START {
        return false, nodes;
      }
      it := it + 1;
      root.kind := fileContents[it];
      it := it + 1;
      root.propsBegin, root.propsEnd, root.children := it, 0, [];
      var parseStack := [root];
      ghost var s := State([Node(fileContents[it - 1], it, 0, [])], InvalidFormat);
      assert parseStack[..0] == [] && s.stack[..0] == [];
      while it < |fileContents|
        invariant it <= |fileContents| && Run(fileContents, it, s) == Parse(fileContents)
        invariant Stands(parseStack, s.stack, nodes, [])
        invariant forall i | 0 < i < |parseStack| :: fresh(parseStack[i])
        invariant parseStack != [] ==> parseStack[0] == root
        invariant parseStack == [] ==> s.root.Ok? && root.Holds(s.root.value, nodes)
      {
        var thrown;
        thrown, parseStack, it, s, nodes := Round(parseStack, it, s, nodes);
        if thrown {
          return false, nodes;
        }
      }
      return parseStack == [], nodes;
    }

    // One more byte: it is an ESCAPE to be left out, or it is copied.
    lemma UnescapedNext(done: Bytes, raw: Bytes, i: nat, lastEscaped: bool)
      requires i < |raw|
      ensures var escaped := raw[i] == ESCAPE && !lastEscaped;
        done + OtbTrees.Unescaped(raw[i..], lastEscaped) ==
        (if escaped then done else done + [raw[i]]) + OtbTrees.Unescaped(raw[i + 1..], escaped)
    {
      assert raw[i..][1..] == raw[i + 1..];
    }

    method PutByte(filled: nat, byte: Byte)
      requires filled < |propBuffer|
      modifies `propBuffer
      ensures |propBuffer| == |old(propBuffer)| && propBuffer[..filled + 1] == old(propBuffer)[..filled] + [byte]
    {
      propBuffer := propBuffer[filled := byte];
    }

    // getProps. The result is what PropStream::init is given.
    method GetProps(n: TreeNode) returns (ok: bool, props: Bytes)
      requires n.propsBegin <= n.propsEnd <= |fileContents|
      modifies `propBuffer
      ensures ok <==> n.propsBegin < n.propsEnd
      ensures ok ==> props == OtbTrees.Unescaped(fileContents[n.propsBegin..n.propsEnd], false)
    {
      var size := n.propsEnd - n.propsBegin;
      if size == 0 {
        return false, [];
      }
      propBuffer := seq(size, _ => 0);
      var lastEscaped := false;
      var filled := 0;
      ghost var raw := fileContents[n.propsBegin..n.propsEnd];
      for i := 0 to size
        invariant filled <= i && |propBuffer| == size
        invariant propBuffer[..filled] + OtbTrees.Unescaped(raw[i..], lastEscaped) == OtbTrees.Unescaped(raw, false)
      {
        var byte := fileContents[n.propsBegin + i];
        UnescapedNext(propBuffer[..filled], raw, i, lastEscaped);
        lastEscaped := byte == ESCAPE && !lastEscaped;
        if !lastEscaped {
          PutByte(filled, byte);
          filled := filled + 1;
        }
      }
      assert raw[size..] == [];
      return true, propBuffer[..filled];
    }
  }
}
