/**
 * The parse stack: a sequence of (state, node) entries, bottom first. Only the stack's interface
 * is part of this model (its implementation lives in stack.c): push appends, shrink truncates,
 * the top state is that of the last entry, and reduce pops entries into one new node.
 */
module ParseStack {
  import opened Syntax

  datatype Entry = Entry(state: StateId, node: Tree)

  /** The state reported for an empty stack. */
  const RootState: StateId := 0

  function TopState(s: seq<Entry>): (st: StateId)
    ensures s == [] ==> st == RootState
    ensures s != [] ==> st == s[|s| - 1].state
  {
    if s == [] then RootState else s[|s| - 1].state
  }

  function TopNode(s: seq<Entry>): (t: Tree)
    requires s != []
    ensures t == s[|s| - 1].node
  {
    s[|s| - 1].node
  }

  function Push(s: seq<Entry>, state: StateId, node: Tree): (r: seq<Entry>)
    ensures |r| == |s| + 1 && r[..|s|] == s
    ensures TopState(r) == state && TopNode(r) == node
  {
    s + [Entry(state, node)]
  }

  function Shrink(s: seq<Entry>, newSize: nat): (r: seq<Entry>)
    ensures |r| == if newSize < |s| then newSize else |s|
    ensures r == s[..|r|]
  {
    if newSize < |s| then s[..newSize] else s
  }

  /** The nodes held by a run of entries. */
  function Nodes(s: seq<Entry>): (ns: seq<Tree>)
    ensures |ns| == |s| && forall k :: 0 <= k < |s| ==> ns[k] == s[k].node
  {
    if s == [] then [] else Nodes(s[..|s| - 1]) + [s[|s| - 1].node]
  }

  /** The node the parse produced: the one held by the bottom entry. */
  function Root(s: seq<Entry>): (r: Option<Tree>)
    ensures r.Some? <==> s != []
    ensures s != [] ==> r.value == s[0].node
  {
    if s == [] then None else Some(s[0].node)
  }

  /** Replaces the node of the bottom entry (on an empty stack, fills the bottom slot). */
  function SetBottomNode(s: seq<Entry>, node: Tree): (r: seq<Entry>)
    ensures Root(r) == Some(node)
    ensures s != [] ==> |r| == |s| && r[1..] == s[1..] && r[0].state == s[0].state
    ensures s == [] ==> r == [Entry(RootState, node)]
  {
    if s == [] then [Entry(RootState, node)] else s[0 := Entry(s[0].state, node)]
  }

  /**
   * The children a reduce gives the new node: each popped node in order, except that a node
   * whose collapse flag is set contributes its own children instead of itself.
   */
  function Collapse(nodes: seq<Tree>, flags: seq<bool>): (cs: seq<Tree>)
    ensures (forall k :: 0 <= k < |flags| ==> !flags[k]) ==> cs == nodes
  {
    if nodes == [] then []
    else
      var k := |nodes| - 1;
      var last := if k < |flags| && flags[k] then Children(nodes[k]) else [nodes[k]];
      Collapse(nodes[..k], flags) + last
  }

  lemma SumSpanFirst(cs: seq<Tree>)
    requires cs != []
    ensures SumSpan(cs) == Span(cs[0]) + SumSpan(cs[1..])
  {
    assert cs == [cs[0]] + cs[1..];
    SumSpanAppend([cs[0]], cs[1..]);
    assert [cs[0]][..0] == [];
  }

  /**
   * An internal node over `children`: it starts where its first child starts (it shares that
   * child's offset) and its size covers the rest of the children's text.
   */
  function MakeNode(symbol: Symbol, children: seq<Tree>): (t: Tree)
    ensures t.Node? && t.symbol == symbol && t.children == children
    ensures Span(t) == SumSpan(children)
    ensures children != [] ==> t.offset == children[0].offset
    ensures children == [] ==> t.offset == 0 && t.size == 0
  {
    if children == [] then Node(symbol, 0, 0, [])
    else
      SumSpanFirst(children);
      Node(symbol, SumSpan(children) - children[0].offset, children[0].offset, children)
  }

  /**
   * Pops `childCount` entries (or all there are) and builds one node of `symbol` over their
   * nodes, applying the collapse flags; returns the node and the remaining stack.
   */
  function Reduce(s: seq<Entry>, symbol: Symbol, childCount: nat, flags: seq<bool>): (res: (Tree, seq<Entry>))
    ensures |res.1| == |s| - (if childCount < |s| then childCount else |s|) && res.1 == s[..|res.1|]
    ensures res.0.Node? && res.0.symbol == symbol && res.0.children == Collapse(Nodes(s[|res.1|..]), flags)
    ensures (forall k :: 0 <= k < |flags| ==> !flags[k]) ==> res.0.children == Nodes(s[|res.1|..])
  {
    var popped := if childCount < |s| then childCount else |s|;
    (MakeNode(symbol, Collapse(Nodes(s[|s| - popped..]), flags)), s[..|s| - popped])
  }

  /** The node covers exactly its children's text. */
  predicate Covers(t: Tree) {
    t.Node? && Span(t) == SumSpan(t.children)
  }

  /**
   * Collapsing never changes the text covered, as long as every collapsed node covers exactly
   * its children's text.
   */
  lemma {:induction false} CollapsePreservesSpan(nodes: seq<Tree>, flags: seq<bool>)
    requires forall k :: 0 <= k < |nodes| && k < |flags| && flags[k] ==> Covers(nodes[k])
    ensures SumSpan(Collapse(nodes, flags)) == SumSpan(nodes)
    decreases |nodes|
  {
    if nodes != [] {
      var k := |nodes| - 1;
      CollapsePreservesSpan(nodes[..k], flags);
      var last := if k < |flags| && flags[k] then Children(nodes[k]) else [nodes[k]];
      SumSpanAppend(Collapse(nodes[..k], flags), last);
      if !(k < |flags| && flags[k]) {
        assert SumSpan(last) == Span(nodes[k]) by {
          assert last[..0] == [];
        }
      }
    }
  }

  /** A reduce whose collapsed children cover their own text covers the popped entries' text. */
  lemma ReduceCoversPopped(s: seq<Entry>, symbol: Symbol, childCount: nat, flags: seq<bool>)
    requires childCount <= |s|
    requires forall k :: |s| - childCount <= k < |s| && k - (|s| - childCount) < |flags| && flags[k - (|s| - childCount)] ==> Covers(s[k].node)
    ensures Span(Reduce(s, symbol, childCount, flags).0) == SumSpan(Nodes(s[|s| - childCount..]))
    ensures Reduce(s, symbol, childCount, flags).1 == s[..|s| - childCount]
  {
    var popped := Nodes(s[|s| - childCount..]);
    forall k | 0 <= k < |popped| && k < |flags| && flags[k] ensures Covers(popped[k]) {
      assert popped[k] == s[|s| - childCount + k].node;
    }
    CollapsePreservesSpan(popped, flags);
  }
}
