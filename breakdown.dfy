/**
 * Incremental reparsing: before the driver resumes, the previous tree on top of the stack is
 * broken down child by child, keeping the subtrees that end before the edit, and the driver then
 * lexes again from the end of what is kept.
 *
 * The functions here specify that loop. `LoopAsWritten` follows the source exactly;
 * `Loop` is the corrected loop the parser uses.
 */
module StackBreakdown {
  import opened Syntax
  import opened ParseTable
  import opened ParseStack

  /** A text edit; only the position where it starts is consulted. */
  datatype Edit = Edit(position: nat)

  /** The state a reused node is pushed in: the data word of the top state's action on its symbol. */
  function PushState(lang: Language, s: seq<Entry>, node: Tree): (st: StateId)
    ensures lang.action(TopState(s), node.symbol).Shift? ==> st == lang.action(TopState(s), node.symbol).toState
    ensures lang.action(TopState(s), node.symbol).Reduce? ==> st == lang.action(TopState(s), node.symbol).symbol
  {
    lang.action(TopState(s), node.symbol).DataWord()
  }

  /**
   * The state after one pass of the inner loop over a node's children: the stack, the index of
   * the last child pushed, where that child starts, where it ends, and whether the pass stopped
   * because that child reaches the edit.
   */
  datatype Pass = Pass(stack: seq<Entry>, last: nat, childLeft: nat, right: nat, broke: bool)

  /** The inner loop from child `i` on, `left` being where child `i` starts. */
  function PushChildren(lang: Language, pos: nat, s: seq<Entry>, cs: seq<Tree>, i: nat, left: nat): (p: Pass)
    requires i < |cs|
    ensures i <= p.last < |cs| && |p.stack| == |s| + (p.last - i) + 1
    ensures p.right == p.childLeft + Span(cs[p.last])
    ensures p.broke <==> pos <= p.right
    ensures !p.broke ==> p.last == |cs| - 1
    decreases |cs| - i
  {
    var child := cs[i];
    var right := left + child.offset + child.size;
    var pushed := Push(s, PushState(lang, s, child), child);
    if right >= pos then Pass(pushed, i, left, right, true)
    else if i + 1 == |cs| then Pass(pushed, i, left, right, false)
    else PushChildren(lang, pos, pushed, cs, i + 1, right)
  }

  /** How the loop as written ends: with a stack and a position, or by reading an unset child. */
  datatype Outcome = Done(stack: seq<Entry>, position: nat) | ReadsUnassignedChild

  /**
   * The outer loop as written: while the node reaches past the edit or has children, pop it and
   * push its children; after a pass that pushed every child, `left` is left at the end of the
   * last child; a childless node reaching past the edit leaves `child` unassigned.
   */
  function LoopAsWritten(lang: Language, pos: nat, s: seq<Entry>, node: Tree, left: nat, right: nat): (r: Outcome)
    requires s != []
    ensures r.Done? ==> |s| - 1 <= |r.stack|
    decreases node
  {
    var cs := Children(node);
    if !(right > pos || cs != []) then Done(s, right)
    else if cs == [] then ReadsUnassignedChild
    else
      var p := PushChildren(lang, pos, s[..|s| - 1], cs, 0, left);
      LoopAsWritten(lang, pos, p.stack, cs[p.last], if p.broke then p.childLeft else p.right, p.right)
  }

  /** The breakdown as written: an empty stack is left alone, otherwise the top node is broken down. */
  function BreakdownAsWritten(lang: Language, s: seq<Entry>, edit: Option<Edit>): (r: Outcome)
    requires edit.None? ==> s == []
    ensures s == [] ==> r == Done([], 0)
    ensures r.Done? ==> |s| - 1 <= |r.stack|
  {
    if s == [] then Done(s, 0)
    else LoopAsWritten(lang, edit.value.position, s, TopNode(s), 0, Span(TopNode(s)))
  }

  /**
   * The corrected outer loop: `left` always holds where the node being broken down starts, and a
   * childless node reaching past the edit is popped, so lexing resumes where it starts.
   */
  function Loop(lang: Language, pos: nat, s: seq<Entry>, node: Tree, left: nat, right: nat): (res: (seq<Entry>, nat))
    requires s != []
    ensures |s| - 1 <= |res.0|
    decreases node
  {
    var cs := Children(node);
    if !(right > pos || cs != []) then (s, right)
    else if cs == [] then (s[..|s| - 1], left)
    else
      var p := PushChildren(lang, pos, s[..|s| - 1], cs, 0, left);
      Loop(lang, pos, p.stack, cs[p.last], p.childLeft, p.right)
  }

  /** The stack the parser resumes with and the position it resumes lexing at. */
  function Breakdown(lang: Language, s: seq<Entry>, edit: Option<Edit>): (res: (seq<Entry>, nat))
    requires edit.None? ==> s == []
    ensures s == [] ==> res == ([], 0)
    ensures |s| - 1 <= |res.0|
  {
    if s == [] then (s, 0)
    else Loop(lang, edit.value.position, s, TopNode(s), 0, Span(TopNode(s)))
  }

  // ---------------------------------------------------------------------------------------
  // Soundness of the corrected breakdown

  /** Where the entries `b .. k-1` end, the node of entry `b` starting at position 0. */
  function EndOf(s: seq<Entry>, b: nat, k: nat): nat
    requires b <= k <= |s|
    decreases k
  {
    if k == b then 0 else EndOf(s, b, k - 1) + Span(s[k - 1].node)
  }

  /** Every entry from `from` on was pushed in the state the table gives its node. */
  ghost predicate Chain(lang: Language, s: seq<Entry>, from: nat) {
    forall k :: from <= k < |s| ==> PushedInTableState(lang, s, k)
  }

  /** Entry `k` was pushed in the state the table gives its node over the entries below it. */
  predicate PushedInTableState(lang: Language, s: seq<Entry>, k: nat)
    requires k < |s|
  {
    s[k].state == PushState(lang, s[..k], s[k].node)
  }

  /** Where entries end depends only on those entries. */
  lemma {:induction false} EndOfPrefix(s: seq<Entry>, t: seq<Entry>, b: nat, k: nat)
    requires b <= k <= |s| <= |t| && t[..|s|] == s
    ensures EndOf(t, b, k) == EndOf(s, b, k)
    decreases k
  {
    if k > b {
      EndOfPrefix(s, t, b, k - 1);
      assert t[k - 1] == t[..|s|][k - 1];
    }
  }

  /** The entries `b .. k-1` cover exactly the text of their nodes. */
  lemma {:induction false} EndOfCoversNodes(s: seq<Entry>, b: nat, k: nat)
    requires b <= k <= |s|
    ensures EndOf(s, b, k) == SumSpan(Nodes(s[b..k]))
    decreases k
  {
    if k > b {
      EndOfCoversNodes(s, b, k - 1);
      var ns := Nodes(s[b..k]);
      assert s[b..k][..k - 1 - b] == s[b..k - 1];
      assert ns[..|ns| - 1] == Nodes(s[b..k - 1]);
    } else {
      assert s[b..k] == [];
    }
  }

  lemma PrefixOfPrefix<T>(s: seq<T>, t: seq<T>, n: nat)
    requires n <= |s| <= |t| && t[..|s|] == s
    ensures t[..n] == s[..n]
  {
    assert t[..n] == t[..|s|][..n];
  }

  /** A pass only pushes children onto the stack it starts from, and ends with the last one pushed. */
  lemma {:induction false} PushChildrenPrefix(lang: Language, pos: nat, s: seq<Entry>, cs: seq<Tree>, i: nat, left: nat)
    requires i < |cs|
    ensures var p := PushChildren(lang, pos, s, cs, i, left);
      p.stack[..|s|] == s && TopNode(p.stack) == cs[p.last]
    decreases |cs| - i
  {
    var child := cs[i];
    var right := left + child.offset + child.size;
    var pushed := Push(s, PushState(lang, s, child), child);
    if right < pos && i + 1 < |cs| {
      PushChildrenPrefix(lang, pos, pushed, cs, i + 1, right);
      PrefixOfPrefix(pushed, PushChildren(lang, pos, pushed, cs, i + 1, right).stack, |s|);
    }
  }

  /** Every child a pass pushes is pushed in the state the table gives it. */
  lemma {:induction false} PushChildrenChain(lang: Language, pos: nat, s: seq<Entry>, cs: seq<Tree>, i: nat, left: nat)
    requires i < |cs|
    ensures Chain(lang, PushChildren(lang, pos, s, cs, i, left).stack, |s|)
    decreases |cs| - i
  {
    var child := cs[i];
    var right := left + child.offset + child.size;
    var pushed := Push(s, PushState(lang, s, child), child);
    if right < pos && i + 1 < |cs| {
      PushChildrenChain(lang, pos, pushed, cs, i + 1, right);
      PushChildrenPrefix(lang, pos, pushed, cs, i + 1, right);
      var p := PushChildren(lang, pos, pushed, cs, i + 1, right);
      assert p.stack[|s|] == pushed[|s|] by {
        assert p.stack[|s|] == p.stack[..|pushed|][|s|];
      }
      PrefixOfPrefix(pushed, p.stack, |s|);
      assert PushedInTableState(lang, p.stack, |s|);
    } else {
      assert pushed[..|s|] == s;
      assert PushedInTableState(lang, pushed, |s|);
    }
  }

  /**
   * One pass pushes the children `i ..` over a stack whose entries above `b` all end before the
   * edit and tile the text up to `left`: the pushed children continue the tiling, all but the
   * last end before the edit, and the pass stops exactly when a child reaches the edit.
   */
  lemma {:induction false} PushChildrenTiles(lang: Language, pos: nat, b: nat, s: seq<Entry>, cs: seq<Tree>, i: nat, left: nat)
    requires i < |cs| && b <= |s|
    requires EndOf(s, b, |s|) == left
    requires forall k :: b < k <= |s| ==> EndOf(s, b, k) < pos
    ensures var p := PushChildren(lang, pos, s, cs, i, left);
      EndOf(p.stack, b, |p.stack| - 1) == p.childLeft &&
      forall k :: b < k < |p.stack| ==> EndOf(p.stack, b, k) < pos
    decreases |cs| - i
  {
    var child := cs[i];
    var right := left + child.offset + child.size;
    var e := Entry(PushState(lang, s, child), child);
    EndsAfterPush(s, b, e, pos);
    if right < pos && i + 1 < |cs| {
      PushChildrenTiles(lang, pos, b, s + [e], cs, i + 1, right);
    }
  }

  /** Pushing an entry leaves where the entries below it end unchanged. */
  lemma EndsAfterPush(s: seq<Entry>, b: nat, e: Entry, pos: nat)
    requires b <= |s|
    requires forall k :: b < k <= |s| ==> EndOf(s, b, k) < pos
    ensures EndOf(s + [e], b, |s|) == EndOf(s, b, |s|)
    ensures EndOf(s + [e], b, |s| + 1) == EndOf(s, b, |s|) + Span(e.node)
    ensures forall k :: b < k <= |s| ==> EndOf(s + [e], b, k) < pos
  {
    var pushed := s + [e];
    assert pushed[..|s|] == s;
    EndOfPrefix(s, pushed, b, |s|);
    forall k | b < k <= |s| ensures EndOf(pushed, b, k) < pos {
      EndOfPrefix(s, pushed, b, k);
    }
  }

  /** Entries that agree with a chained stack up to `n` are chained up to `n` as well. */
  lemma ChainTransfer(lang: Language, s: seq<Entry>, t: seq<Entry>, from: nat, n: nat)
    requires from <= n <= |s| && n <= |t| && t[..n] == s[..n]
    requires Chain(lang, s, from)
    ensures forall k :: from <= k < n ==> PushedInTableState(lang, t, k)
  {
    forall k | from <= k < n ensures PushedInTableState(lang, t, k) {
      assert t[k] == t[..n][k] && s[k] == s[..n][k];
      assert t[..k] == t[..n][..k] && s[..k] == s[..n][..k];
      assert PushedInTableState(lang, s, k);
    }
  }

  /** Popping the top entry leaves where the entries below it end unchanged. */
  lemma EndOfPop(s: seq<Entry>, t: seq<Entry>, b: nat, pos: nat)
    requires b < |s| && t == s[..|s| - 1]
    requires forall k :: b < k < |s| ==> EndOf(s, b, k) < pos
    ensures EndOf(t, b, |t|) == EndOf(s, b, |t|)
    ensures forall k :: b < k <= |t| ==> EndOf(t, b, k) < pos
  {
    EndOfPrefix(t, s, b, |t|);
    forall k | b < k <= |t| ensures EndOf(t, b, k) < pos {
      EndOfPrefix(t, s, b, k);
    }
  }

  /** The corrected outer loop keeps the entries under the node it breaks down. */
  lemma {:induction false} LoopPrefix(lang: Language, pos: nat, s: seq<Entry>, node: Tree, left: nat, right: nat)
    requires s != []
    ensures var res := Loop(lang, pos, s, node, left, right);
      |s| - 1 <= |res.0| && res.0[..|s| - 1] == s[..|s| - 1]
    decreases node
  {
    var cs := Children(node);
    if cs != [] {
      var below := s[..|s| - 1];
      PushChildrenPrefix(lang, pos, below, cs, 0, left);
      var p := PushChildren(lang, pos, below, cs, 0, left);
      LoopPrefix(lang, pos, p.stack, cs[p.last], p.childLeft, p.right);
      var res := Loop(lang, pos, p.stack, cs[p.last], p.childLeft, p.right);
      PrefixOfPrefix(p.stack[..|p.stack| - 1], res.0, |below|);
      assert p.stack[..|p.stack| - 1][..|below|] == p.stack[..|below|];
    }
  }

  /**
   * Every entry the corrected outer loop adds was pushed in the state the table gives its node;
   * it adds none only when it leaves the stack as it was.
   */
  lemma {:induction false} LoopChain(lang: Language, pos: nat, s: seq<Entry>, node: Tree, left: nat, right: nat)
    requires s != []
    ensures var res := Loop(lang, pos, s, node, left, right);
      res.0 == s || Chain(lang, res.0, |s| - 1)
    decreases node
  {
    var cs := Children(node);
    if cs != [] {
      var below := s[..|s| - 1];
      PushChildrenPrefix(lang, pos, below, cs, 0, left);
      PushChildrenChain(lang, pos, below, cs, 0, left);
      var p := PushChildren(lang, pos, below, cs, 0, left);
      var res := Loop(lang, pos, p.stack, cs[p.last], p.childLeft, p.right);
      LoopPrefix(lang, pos, p.stack, cs[p.last], p.childLeft, p.right);
      LoopChain(lang, pos, p.stack, cs[p.last], p.childLeft, p.right);
      if res.0 != p.stack {
        ChainTransfer(lang, p.stack, res.0, |below|, |p.stack| - 1);
        assert Chain(lang, res.0, |below|);
      }
    }
  }

  /**
   * The corrected outer loop, started on a stack whose entries above `b` tile the text from 0 and
   * all but the top end before the edit, leaves only entries that end at or before the edit and
   * returns the position where they end, which is at or before the edit.
   */
  lemma {:induction false} LoopTiles(lang: Language, pos: nat, b: nat, s: seq<Entry>, node: Tree, left: nat, right: nat)
    requires b < |s| && TopNode(s) == node
    requires EndOf(s, b, |s| - 1) == left && right == left + Span(node)
    requires forall k :: b < k < |s| ==> EndOf(s, b, k) < pos
    ensures var res := Loop(lang, pos, s, node, left, right);
      b <= |res.0| && res.1 == EndOf(res.0, b, |res.0|) && res.1 <= pos &&
      (forall k :: b < k <= |res.0| ==> EndOf(res.0, b, k) <= pos)
    decreases node
  {
    var cs := Children(node);
    if !(right > pos || cs != []) {
    } else if cs == [] {
      EndOfPop(s, s[..|s| - 1], b, pos);
    } else {
      var below := s[..|s| - 1];
      EndOfPop(s, below, b, pos);
      PushChildrenPrefix(lang, pos, below, cs, 0, left);
      PushChildrenTiles(lang, pos, b, below, cs, 0, left);
      var p := PushChildren(lang, pos, below, cs, 0, left);
      LoopTiles(lang, pos, b, p.stack, cs[p.last], p.childLeft, p.right);
    }
  }

  /**
   * The breakdown the parser performs: with an empty stack it changes nothing and resumes at 0;
   * otherwise it keeps the entries under the old top, replaces the old top by entries that were
   * each pushed in the state the table gives their node and that each end at or before the edit,
   * and resumes lexing exactly where those entries end, which is at or before the edit.
   */
  lemma BreakdownSound(lang: Language, s: seq<Entry>, edit: Option<Edit>)
    requires edit.None? ==> s == []
    ensures var res := Breakdown(lang, s, edit);
      (s == [] ==> res == ([], 0)) &&
      (s != [] ==>
        var b := |s| - 1;
        b <= |res.0| && res.0[..b] == s[..b] &&
        res.1 == EndOf(res.0, b, |res.0|) && res.1 <= edit.value.position &&
        (forall k :: b < k <= |res.0| ==> EndOf(res.0, b, k) <= edit.value.position) &&
        (res.0 == s || Chain(lang, res.0, b)))
  {
    if s != [] {
      var b := |s| - 1;
      assert s[b..b] == [];
      LoopPrefix(lang, edit.value.position, s, TopNode(s), 0, Span(TopNode(s)));
      LoopChain(lang, edit.value.position, s, TopNode(s), 0, Span(TopNode(s)));
      LoopTiles(lang, edit.value.position, b, s, TopNode(s), 0, Span(TopNode(s)));
    }
  }

  /**
   * The breakdown reuses what lies before the edit: when the old top node has more than one
   * child and the first of them ends before the edit, that child stays on the stack whole, just
   * above the entries under the old top, in the state the table gives it.
   */
  lemma BreakdownReusesFirstChild(lang: Language, s: seq<Entry>, pos: nat)
    requires s != [] && |Children(TopNode(s))| > 1 && Span(Children(TopNode(s))[0]) < pos
    ensures var res := Breakdown(lang, s, Some(Edit(pos)));
      var b := |s| - 1;
      var first := Children(TopNode(s))[0];
      b < |res.0| && res.0[b] == Entry(PushState(lang, s[..b], first), first)
  {
    var b := |s| - 1;
    var cs := Children(TopNode(s));
    var below := s[..b];
    var pushed := Push(below, PushState(lang, below, cs[0]), cs[0]);
    var p := PushChildren(lang, pos, below, cs, 0, 0);
    assert p == PushChildren(lang, pos, pushed, cs, 1, Span(cs[0]));
    PushChildrenPrefix(lang, pos, pushed, cs, 1, Span(cs[0]));
    assert p.stack[b] == pushed[b];
    LoopPrefix(lang, pos, p.stack, cs[p.last], p.childLeft, p.right);
  }

  /** Truncating a stack keeps it chained. */
  lemma ChainPrefix(lang: Language, s: seq<Entry>, n: nat)
    requires n <= |s| && Chain(lang, s, 0)
    ensures Chain(lang, s[..n], 0)
  {
    ChainTransfer(lang, s, s[..n], 0, n);
  }

  /** Pushing an entry in the state the table gives its node keeps a stack chained. */
  lemma ChainPush(lang: Language, s: seq<Entry>, e: Entry)
    requires Chain(lang, s, 0) && e.state == PushState(lang, s, e.node)
    ensures Chain(lang, s + [e], 0)
  {
    var t := s + [e];
    assert t[..|s|] == s;
    ChainTransfer(lang, s, t, 0, |s|);
    assert PushedInTableState(lang, t, |s|);
  }

  /** Breaking down a chained stack leaves a chained stack. */
  lemma BreakdownKeepsChain(lang: Language, s: seq<Entry>, edit: Option<Edit>)
    requires edit.None? ==> s == []
    requires Chain(lang, s, 0)
    ensures Chain(lang, Breakdown(lang, s, edit).0, 0)
  {
    if s != [] {
      var res := Breakdown(lang, s, edit);
      BreakdownSound(lang, s, edit);
      if res.0 != s {
        ChainTransfer(lang, s, res.0, 0, |s| - 1);
        assert Chain(lang, res.0, |s| - 1);
      }
    }
  }

  // ---------------------------------------------------------------------------------------
  // The loop as written, on two small trees

  /** A table whose actions are all `Error`; the states pushed play no part below. */
  function NoActions(): Language {
    Language(0, (st: StateId, sym: Symbol) => Error, (st: StateId) => 0, (l: LexStateId, a: seq<char>) => (0, ErrorSymbol))
  }

  /** `a` followed by `bc`, one character each (`bc` spans 1..3); the text is then appended to at 4. */
  function AppendedTree(): Tree {
    Node(10, 3, 0, [Leaf(1, 1, 0), Node(11, 2, 0, [Leaf(1, 1, 0), Leaf(1, 1, 0)])])
  }

  /**
   * As written, breaking `AppendedTree` down for an edit at 4 places the children of `bc` as if
   * they started where `bc` ends: it keeps `a` and `b` only, dropping `c` although `c` ends
   * before the edit, and resumes lexing at 4, so the text from 2 to 4 is never lexed again.
   * The corrected loop keeps `a`, `b` and `c` and resumes at 3, where the old text ends.
   */
  lemma AppendedTreeOvershoots()
    ensures var t := AppendedTree(); var y := t.children[1].children;
      BreakdownAsWritten(NoActions(), [Entry(1, t)], Some(Edit(4))) ==
      Done([Entry(0, t.children[0]), Entry(0, y[0])], 4)
    ensures var t := AppendedTree(); var y := t.children[1].children;
      Breakdown(NoActions(), [Entry(1, t)], Some(Edit(4))) ==
      ([Entry(0, t.children[0]), Entry(0, y[0]), Entry(0, y[1])], 3)
  {
    var lang, t := NoActions(), AppendedTree();
    var a, bc := t.children[0], t.children[1];
    var y := bc.children;
    var p1 := PushChildren(lang, 4, [], t.children, 0, 0);
    var q1 := PushChildren(lang, 4, [Entry(0, a)], t.children, 1, 1);
    assert q1 == Pass([Entry(0, a), Entry(0, bc)], 1, 1, 3, false);
    assert p1 == q1;

    var p2 := PushChildren(lang, 4, [Entry(0, a)], y, 0, 3);
    assert p2 == Pass([Entry(0, a), Entry(0, y[0])], 0, 3, 4, true);
    assert LoopAsWritten(lang, 4, p2.stack, y[0], 3, 4) == Done(p2.stack, 4);
    assert LoopAsWritten(lang, 4, q1.stack, bc, 3, 3) == Done(p2.stack, 4);

    var r2 := PushChildren(lang, 4, [Entry(0, a)], y, 0, 1);
    var u2 := PushChildren(lang, 4, [Entry(0, a), Entry(0, y[0])], y, 1, 2);
    assert u2 == Pass([Entry(0, a), Entry(0, y[0]), Entry(0, y[1])], 1, 2, 3, false);
    assert r2 == u2;
    assert Loop(lang, 4, u2.stack, y[1], 2, 3) == (u2.stack, 3);
    assert Loop(lang, 4, q1.stack, bc, 1, 3) == (u2.stack, 3);
  }

  /**
   * A childless node reaching past the edit: the loop as written reads the unassigned `child`;
   * the corrected loop pops the node and resumes where it starts.
   */
  lemma ChildlessPastEdit(lang: Language, pos: nat, s: seq<Entry>, node: Tree, left: nat, right: nat)
    requires s != [] && Children(node) == [] && right > pos
    ensures LoopAsWritten(lang, pos, s, node, left, right) == ReadsUnassignedChild
    ensures Loop(lang, pos, s, node, left, right) == (s[..|s| - 1], left)
  {
  }

  /**
   * As written, an edit inside a token that is the only child of the top node makes the loop
   * pop that token, push nothing, and go on with `child` unassigned, whatever the table (for
   * instance a node over one three-character token, edited at 1). The corrected loop drops the
   * node and resumes lexing at 0, where the token starts.
   */
  lemma StraddledTokenReadsUnassignedChild(lang: Language, state: StateId, symbol: Symbol, tok: Tree, pos: nat)
    requires tok.Leaf? && pos < Span(tok)
    ensures var t := Node(symbol, tok.size, tok.offset, [tok]);
      BreakdownAsWritten(lang, [Entry(state, t)], Some(Edit(pos))) == ReadsUnassignedChild
    ensures var t := Node(symbol, tok.size, tok.offset, [tok]);
      Breakdown(lang, [Entry(state, t)], Some(Edit(pos))) == ([], 0)
  {
    var p := PushChildren(lang, pos, [], [tok], 0, 0);
    assert p == Pass([Entry(PushState(lang, [], tok), tok)], 0, 0, Span(tok), true);
    ChildlessPastEdit(lang, pos, p.stack, tok, 0, Span(tok));
  }
}
