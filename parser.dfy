/**
 * The LR driver: a parse stack, a lexer and two lookahead slots. A shift moves the lookahead
 * onto the stack; a reduce replaces the top entries by one node, which becomes the lookahead
 * while the token it displaced waits in the second slot; on a syntax error the driver skips
 * tokens until some state on the stack can take the error symbol followed by the next token.
 */
module LRParser {
  import opened Syntax
  import opened ParseTable
  import opened ParseStack
  import opened Lexing
  import opened StackBreakdown

  /** The trees waiting in the two lookahead slots, in the order the driver will use them. */
  function Pending(lookahead: Option<Tree>, next: Option<Tree>): (ts: seq<Tree>)
    ensures |ts| <= 2
    ensures lookahead.Some? ==> ts != [] && ts[0] == lookahead.value
    ensures lookahead.None? && next.None? ==> ts == []
    ensures next.Some? ==> ts != [] && ts[|ts| - 1] == next.value
    ensures |ts| == (if lookahead.Some? then 1 else 0) + (if next.Some? then 1 else 0)
  {
    (if lookahead.Some? then [lookahead.value] else []) + (if next.Some? then [next.value] else [])
  }

  /**
   * The stack entry error recovery resumes after: the topmost entry whose state recovers on
   * `symbol`, or none when no state on the stack does.
   */
  function RecoveryDepth(lang: Language, s: seq<Entry>, symbol: Symbol): (d: Option<nat>)
    ensures d.Some? ==> d.value < |s| && Recovers(lang, s[d.value].state, symbol)
    decreases |s|
  {
    if s == [] then None
    else if Recovers(lang, s[|s| - 1].state, symbol) then Some(|s| - 1)
    else RecoveryDepth(lang, s[..|s| - 1], symbol)
  }

  /**
   * The entry recovery picks is the topmost that recovers: none above it does, and none is
   * picked only when no entry recovers at all.
   */
  lemma {:induction false} RecoveryDepthTopmost(lang: Language, s: seq<Entry>, symbol: Symbol)
    ensures var d := RecoveryDepth(lang, s, symbol);
      (d.Some? ==> forall j :: d.value < j < |s| ==> !Recovers(lang, s[j].state, symbol)) &&
      (d.None? ==> forall j :: 0 <= j < |s| ==> !Recovers(lang, s[j].state, symbol))
    decreases |s|
  {
    if s != [] && !Recovers(lang, s[|s| - 1].state, symbol) {
      var t := s[..|s| - 1];
      RecoveryDepthTopmost(lang, t, symbol);
      assert forall j :: 0 <= j < |t| ==> t[j] == s[j];
    }
  }

  /** The stack after recovering at entry `d`: entries `0 .. d`, then the error node. */
  function Resynchronized(lang: Language, s: seq<Entry>, d: nat, error: Tree): (r: seq<Entry>)
    requires d < |s| && lang.action(s[d].state, ErrorSymbol).Shift?
    ensures |r| == d + 2 && r[..d + 1] == s[..d + 1]
    ensures r[d + 1] == Entry(lang.action(s[d].state, ErrorSymbol).toState, error)
  {
    Push(s[..d + 1], lang.action(s[d].state, ErrorSymbol).toState, error)
  }

  /**
   * Recovering at an entry whose state shifts the error symbol pushes the error node in the
   * state the table gives it, so a chained stack stays chained.
   */
  lemma ResynchronizedKeepsChain(lang: Language, s: seq<Entry>, d: nat, error: Tree)
    requires d < |s| && lang.action(s[d].state, ErrorSymbol).Shift?
    requires Chain(lang, s, 0) && error.symbol == ErrorSymbol
    ensures Chain(lang, Resynchronized(lang, s, d, error), 0)
  {
    ChainPrefix(lang, s, d + 1);
    assert TopState(s[..d + 1]) == s[d].state;
    ChainPush(lang, s[..d + 1], Entry(lang.action(s[d].state, ErrorSymbol).toState, error));
  }

  /** How a round of error recovery ends: resumed parsing, gave up at the end of input, or skipped the token. */
  datatype Recovery = Resumed | Abandoned | Skipping

  /** How the driver loop ends. */
  datatype Ending = Accepted | Failed | ParseOutOfFuel

  /**
   * What a parse runs against: the grammar, the whitespace class the lexer skips, the text, and
   * the stream position lexing started from.
   */
  datatype Env = Env(lang: Language, isSpace: char -> bool, text: seq<char>, origin: nat)

  /** The driver's state between steps: the stack, both lookahead slots and the lexer's positions. */
  datatype Config = Config(stack: seq<Entry>, lookahead: Option<Tree>, next: Option<Tree>, cursor: Cursor)

  /** The next token lexed in `lexState` from `cursor`, with the positions after it. */
  function LexNext(e: Env, cursor: Cursor, lexState: LexStateId): (Tree, Cursor)
    requires !e.isSpace(Nul)
  {
    LexAt(e.text, e.origin, cursor, lexState, e.lang.scan, e.isSpace)
  }

  /**
   * The error node recovery starts from: the character under the cursor and the symbols the top
   * state expects.
   */
  function ErrorAt(e: Env, c: Config): (t: Tree)
    ensures t.ErrorNode? && t.symbol == ErrorSymbol && Span(t) == 0
  {
    MakeError(StreamAt(e.text, e.origin + c.cursor.position), ValidSymbols(e.lang, TopState(c.stack), e.lang.symbolCount))
  }

  /**
   * One round of error recovery: a token is lexed in the error lex state and becomes the
   * lookahead; at the end of input the error node becomes the root; otherwise the stack is cut
   * above the topmost state that recovers on the token and the error node pushed, or, if no
   * state does, the token is skipped.
   */
  function RecoverStep(e: Env, c: Config, error: Tree): (r: (Recovery, Config))
    requires !e.isSpace(Nul)
  {
    var t := LexNext(e, c.cursor, LexStateError);
    var lexed := c.(lookahead := Some(t.0), cursor := t.1);
    if t.0.symbol == EndSymbol then (Abandoned, lexed.(stack := SetBottomNode(c.stack, error)))
    else
      var d := RecoveryDepth(e.lang, c.stack, t.0.symbol);
      if d.Some? then (Resumed, lexed.(stack := Resynchronized(e.lang, c.stack, d.value, error)))
      else (Skipping, lexed)
  }

  /** Error recovery with at most `fuel` rounds: rounds run while tokens are skipped. */
  function RecoverFrom(e: Env, c: Config, error: Tree, fuel: nat): (r: (Recovery, Config))
    requires !e.isSpace(Nul)
    decreases fuel
  {
    if fuel == 0 then (Skipping, c)
    else
      var step := RecoverStep(e, c, error);
      if step.0 == Skipping then RecoverFrom(e, step.1, error, fuel - 1) else step
  }

  /**
   * The outcome of recovery from `c` with `fuel` rounds left, as one named value: the recovery
   * loop and the lemmas on runs of skipped tokens carry it unchanged from round to round.
   */
  ghost function RecoveryResult(e: Env, c: Config, error: Tree, fuel: nat): (Recovery, Config)
    requires !e.isSpace(Nul)
  {
    RecoverFrom(e, c, error, fuel)
  }

  /**
   * What recovery's outcome means for the driver: resumed parsing goes on, abandoned recovery
   * fails the parse, and recovery still skipping when its fuel runs out ends it out of fuel.
   */
  function OnRecovery(recovery: Recovery): (done: Option<Ending>)
    ensures done.None? <==> recovery == Resumed
  {
    match recovery
    case Resumed => None
    case Abandoned => Some(Failed)
    case Skipping => Some(ParseOutOfFuel)
  }

  /** The lookahead a step acts on: the one waiting, or else a token lexed in the top state's lex state. */
  function Fill(e: Env, c: Config): (r: Config)
    requires !e.isSpace(Nul)
    ensures r.lookahead.Some? && r.stack == c.stack && r.next == c.next
    ensures c.lookahead.Some? ==> r == c
  {
    if c.lookahead.Some? then c
    else
      var t := LexNext(e, c.cursor, e.lang.lexState(TopState(c.stack)));
      c.(lookahead := Some(t.0), cursor := t.1)
  }

  /**
   * What a step does with the lookahead: the table's action for the top state and the
   * lookahead's symbol, and whether that ends the parse.
   */
  function ActOn(e: Env, c: Config, fuel: nat): (r: (Config, Option<Ending>))
    requires !e.isSpace(Nul) && c.lookahead.Some?
  {
    var token := c.lookahead.value;
    match e.lang.action(TopState(c.stack), token.symbol)
    case Shift(toState) => (Config(Push(c.stack, toState, token), c.next, None, c.cursor), None)
    case Reduce(symbol, childCount, collapseFlags) =>
      var red := ParseStack.Reduce(c.stack, symbol, childCount, collapseFlags);
      (Config(red.1, Some(red.0), c.lookahead, c.cursor), None)
    case Accept => (c, Some(Accepted))
    case Error =>
      var rec := RecoverFrom(e, c, ErrorAt(e, c), fuel);
      (rec.1, OnRecovery(rec.0))
  }

  /**
   * The driver loop with at most `steps` steps: each step fills the lookahead and acts on it,
   * until an action ends the parse.
   */
  function Drive(e: Env, c: Config, steps: nat, fuel: nat): (r: (Config, Ending))
    requires !e.isSpace(Nul)
    decreases steps
  {
    if steps == 0 then (c, ParseOutOfFuel)
    else
      var a := ActOn(e, Fill(e, c), fuel);
      if a.1.Some? then (a.0, a.1.value) else Drive(e, a.0, steps - 1, fuel)
  }

  /**
   * The outcome of driving on from `c` with `steps` steps left, as one named value: the driver
   * loop carries it unchanged from step to step.
   */
  ghost function DriveResult(e: Env, c: Config, steps: nat, fuel: nat): (Config, Ending)
    requires !e.isSpace(Nul)
  {
    Drive(e, c, steps, fuel)
  }

  /** With steps left, the driver takes one step and either stops with its ending or drives on. */
  lemma DriveUnfold(e: Env, c: Config, steps: nat, fuel: nat)
    requires !e.isSpace(Nul) && steps > 0
    ensures var a := ActOn(e, Fill(e, c), fuel);
      Drive(e, c, steps, fuel) == if a.1.Some? then (a.0, a.1.value) else Drive(e, a.0, steps - 1, fuel)
  {
  }

  /** A token recovery skips: not the end of input, and no state on `s` recovers on it. */
  predicate Skipped(lang: Language, s: seq<Entry>, t: Tree) {
    t.symbol != EndSymbol && RecoveryDepth(lang, s, t.symbol).None?
  }

  /** With fuel left, recovery runs one round and goes on only when that round skipped its token. */
  lemma RecoverUnfold(e: Env, c: Config, error: Tree, fuel: nat)
    requires !e.isSpace(Nul) && fuel > 0
    ensures var step := RecoverStep(e, c, error);
      RecoveryResult(e, c, error, fuel) == if step.0 == Skipping then RecoveryResult(e, step.1, error, fuel - 1) else step
  {
  }

  /**
   * With fuel left, recovery whose next token `t` (arriving with cursor `after`) is skipped goes
   * on from `t` as the lookahead, with one round of fuel fewer.
   */
  lemma SkipOneRound(e: Env, c: Config, error: Tree, fuel: nat, t: Tree, after: Cursor)
    requires !e.isSpace(Nul) && fuel > 0
    requires LexNext(e, c.cursor, LexStateError) == (t, after) && Skipped(e.lang, c.stack, t)
    ensures RecoveryResult(e, c, error, fuel) == RecoveryResult(e, Config(c.stack, Some(t), c.next, after), error, fuel - 1)
  {
    assert RecoverStep(e, c, error) == (Skipping, Config(c.stack, Some(t), c.next, after));
  }

  /** Each of the first `n` tokens lexed in the error lex state from `c` is one recovery skips. */
  predicate SkipsRun(e: Env, c: Config, n: nat)
    requires !e.isSpace(Nul)
  {
    var run := LexRun(e.text, e.origin, c.cursor, LexStateError, e.lang.scan, e.isSpace, n);
    forall j :: 0 <= j < n ==> Skipped(e.lang, c.stack, run.0[j])
  }

  /** Where recovery stands after skipping the first `n` tokens lexed in the error lex state. */
  function SkippedTo(e: Env, c: Config, n: nat): (r: Config)
    requires !e.isSpace(Nul) && n > 0
    ensures r.stack == c.stack && r.next == c.next && r.lookahead.Some?
  {
    var run := LexRun(e.text, e.origin, c.cursor, LexStateError, e.lang.scan, e.isSpace, n);
    Config(c.stack, Some(run.0[n - 1]), c.next, run.1)
  }

  /**
   * Recovery lexes successive tokens in the error lex state: as long as the first `n` tokens of
   * that run are skipped, recovery goes on after them exactly as if it started there, with the
   * last of them as the lookahead and `n` rounds of fuel fewer.
   */
  lemma {:induction false} RecoverSkipsRun(e: Env, c: Config, error: Tree, fuel: nat, n: nat)
    requires !e.isSpace(Nul) && 0 < n <= fuel && SkipsRun(e, c, n)
    ensures RecoveryResult(e, c, error, fuel) == RecoveryResult(e, SkippedTo(e, c, n), error, fuel - n)
    decreases n
  {
    if n == 1 {
      SkipFirstRound(e, c, error, fuel);
    } else {
      SkipsRunPrefix(e, c, n);
      RecoverSkipsRun(e, c, error, fuel, n - 1);
      SkipAfterRun(e, c, error, fuel, n);
    }
  }

  /** The base of `RecoverSkipsRun`: a skipped first token takes one round. */
  lemma SkipFirstRound(e: Env, c: Config, error: Tree, fuel: nat)
    requires !e.isSpace(Nul) && 0 < fuel && SkipsRun(e, c, 1)
    ensures RecoveryResult(e, c, error, fuel) == RecoveryResult(e, SkippedTo(e, c, 1), error, fuel - 1)
  {
    var run := LexRun(e.text, e.origin, c.cursor, LexStateError, e.lang.scan, e.isSpace, 1);
    LexRunLast(e.text, e.origin, c.cursor, LexStateError, e.lang.scan, e.isSpace, 1);
    assert LexRun(e.text, e.origin, c.cursor, LexStateError, e.lang.scan, e.isSpace, 0) == ([], c.cursor);
    assert Skipped(e.lang, c.stack, run.0[0]);
    SkipOneRound(e, c, error, fuel, run.0[0], run.1);
  }

  /** A run of `n` skipped tokens starts with a run of `n - 1` and ends with a skipped token. */
  lemma SkipsRunPrefix(e: Env, c: Config, n: nat)
    requires !e.isSpace(Nul) && 1 < n && SkipsRun(e, c, n)
    ensures SkipsRun(e, c, n - 1)
    ensures Skipped(e.lang, c.stack, LexRun(e.text, e.origin, c.cursor, LexStateError, e.lang.scan, e.isSpace, n).0[n - 1])
  {
    var run := LexRun(e.text, e.origin, c.cursor, LexStateError, e.lang.scan, e.isSpace, n);
    var prev := LexRun(e.text, e.origin, c.cursor, LexStateError, e.lang.scan, e.isSpace, n - 1);
    LexRunLast(e.text, e.origin, c.cursor, LexStateError, e.lang.scan, e.isSpace, n);
    forall j | 0 <= j < n - 1
      ensures Skipped(e.lang, c.stack, prev.0[j])
    {
      assert prev.0[j] == run.0[j];
    }
  }

  /** The step of `RecoverSkipsRun`: one more skipped token after the first `n - 1`. */
  lemma SkipAfterRun(e: Env, c: Config, error: Tree, fuel: nat, n: nat)
    requires !e.isSpace(Nul) && 1 < n <= fuel
    requires Skipped(e.lang, c.stack, LexRun(e.text, e.origin, c.cursor, LexStateError, e.lang.scan, e.isSpace, n).0[n - 1])
    requires RecoveryResult(e, c, error, fuel) == RecoveryResult(e, SkippedTo(e, c, n - 1), error, fuel - (n - 1))
    ensures RecoveryResult(e, c, error, fuel) == RecoveryResult(e, SkippedTo(e, c, n), error, fuel - n)
  {
    var run := LexRun(e.text, e.origin, c.cursor, LexStateError, e.lang.scan, e.isSpace, n);
    var mid := SkippedTo(e, c, n - 1);
    LexRunLast(e.text, e.origin, c.cursor, LexStateError, e.lang.scan, e.isSpace, n);
    assert mid.cursor == LexRun(e.text, e.origin, c.cursor, LexStateError, e.lang.scan, e.isSpace, n - 1).1;
    SkipOneRound(e, mid, error, fuel - (n - 1), run.0[n - 1], run.1);
    assert fuel - (n - 1) - 1 == fuel - n;
  }

  /** Recovery that is still skipping after a round with fuel left skipped that round's token. */
  lemma SkippingStep(e: Env, c: Config, error: Tree, fuel: nat)
    requires !e.isSpace(Nul) && fuel > 0 && RecoveryResult(e, c, error, fuel).0 == Skipping
    ensures Skipped(e.lang, c.stack, LexNext(e, c.cursor, LexStateError).0)
  {
    RecoverUnfold(e, c, error, fuel);
  }

  /**
   * Recovery with more than `j` rounds of fuel that runs out still skipping has skipped the
   * token at index `j` of the error lex state run.
   */
  lemma {:induction false} SkippedAt(e: Env, c: Config, error: Tree, fuel: nat, j: nat)
    requires !e.isSpace(Nul) && j < fuel && RecoveryResult(e, c, error, fuel).0 == Skipping
    ensures Skipped(e.lang, c.stack, LexRun(e.text, e.origin, c.cursor, LexStateError, e.lang.scan, e.isSpace, j + 1).0[j])
    decreases j
  {
    var prev := LexRun(e.text, e.origin, c.cursor, LexStateError, e.lang.scan, e.isSpace, j);
    if j == 0 {
      LexRunLast(e.text, e.origin, c.cursor, LexStateError, e.lang.scan, e.isSpace, 1);
      assert prev == ([], c.cursor);
      SkippingStep(e, c, error, fuel);
    } else {
      forall i | 0 <= i < j
        ensures Skipped(e.lang, c.stack, prev.0[i])
      {
        SkippedAt(e, c, error, fuel, i);
        LexRunStable(e.text, e.origin, c.cursor, LexStateError, e.lang.scan, e.isSpace, i, j);
      }
      assert SkipsRun(e, c, j);
      SkippedAfterRun(e, c, error, fuel, j);
    }
  }

  /** The step of `SkippedAt`: after `j` skipped tokens, recovery still skipping skips the next. */
  lemma SkippedAfterRun(e: Env, c: Config, error: Tree, fuel: nat, j: nat)
    requires !e.isSpace(Nul) && 0 < j < fuel && SkipsRun(e, c, j) && RecoveryResult(e, c, error, fuel).0 == Skipping
    ensures Skipped(e.lang, c.stack, LexRun(e.text, e.origin, c.cursor, LexStateError, e.lang.scan, e.isSpace, j + 1).0[j])
  {
    var prev := LexRun(e.text, e.origin, c.cursor, LexStateError, e.lang.scan, e.isSpace, j);
    var at := SkippedTo(e, c, j);
    assert at.cursor == prev.1 && at.stack == c.stack;
    RecoverSkipsRun(e, c, error, fuel, j);
    assert RecoveryResult(e, at, error, fuel - j).0 == Skipping;
    SkippingStep(e, at, error, fuel - j);
    var t := LexNext(e, prev.1, LexStateError).0;
    assert Skipped(e.lang, c.stack, t);
    LexRunLast(e.text, e.origin, c.cursor, LexStateError, e.lang.scan, e.isSpace, j + 1);
    assert LexRun(e.text, e.origin, c.cursor, LexStateError, e.lang.scan, e.isSpace, j + 1).0 == prev.0 + [t];
  }

  /**
   * Recovery with `fuel` rounds runs out still skipping exactly when every one of the `fuel`
   * tokens lexed in the error lex state is skipped: none is the end of input and no state on the
   * stack recovers on it. It then stands after the last of them, with the stack untouched.
   */
  lemma RecoverSkipping(e: Env, c: Config, error: Tree, fuel: nat)
    requires !e.isSpace(Nul) && fuel > 0
    ensures var r := RecoverFrom(e, c, error, fuel);
      (r.0 == Skipping <==> SkipsRun(e, c, fuel)) && (r.0 == Skipping ==> r.1 == SkippedTo(e, c, fuel))
  {
    var run := LexRun(e.text, e.origin, c.cursor, LexStateError, e.lang.scan, e.isSpace, fuel);
    if RecoverFrom(e, c, error, fuel).0 == Skipping {
      forall j | 0 <= j < fuel
        ensures Skipped(e.lang, c.stack, run.0[j])
      {
        SkippedAt(e, c, error, fuel, j);
        LexRunStable(e.text, e.origin, c.cursor, LexStateError, e.lang.scan, e.isSpace, j, fuel);
      }
      assert SkipsRun(e, c, fuel);
    }
    if SkipsRun(e, c, fuel) {
      RecoverSkipsRun(e, c, error, fuel, fuel);
      var last := SkippedTo(e, c, fuel);
      assert RecoverFrom(e, c, error, fuel) == RecoverFrom(e, last, error, 0);
      assert RecoverFrom(e, last, error, 0) == (Skipping, last);
    }
  }

  /**
   * How recovery ends: skipping leaves the stack alone; abandoning leaves the end of input as the
   * lookahead and the error node as the root; resuming leaves a lookahead that is not the end of
   * input and the stack resynchronized at its recovery depth. The second slot is never touched.
   */
  lemma {:induction false} RecoverOutcome(e: Env, c: Config, error: Tree, fuel: nat)
    requires !e.isSpace(Nul)
    ensures var r := RecoverFrom(e, c, error, fuel);
      r.1.next == c.next &&
      (r.0 == Skipping ==> r.1.stack == c.stack) &&
      (r.0 == Abandoned ==>
        r.1.lookahead.Some? && r.1.lookahead.value.symbol == EndSymbol && r.1.stack == SetBottomNode(c.stack, error)) &&
      (r.0 == Resumed ==>
        r.1.lookahead.Some? && r.1.lookahead.value.symbol != EndSymbol &&
        var d := RecoveryDepth(e.lang, c.stack, r.1.lookahead.value.symbol);
        d.Some? && r.1.stack == Resynchronized(e.lang, c.stack, d.value, error))
    decreases fuel
  {
    if fuel > 0 {
      var step := RecoverStep(e, c, error);
      RecoverUnfold(e, c, error, fuel);
      if step.0 == Skipping {
        RecoverOutcome(e, step.1, error, fuel - 1);
      }
    }
  }

  /** Recovery keeps a chained stack chained unless it is abandoned. */
  lemma RecoverKeepsChain(e: Env, c: Config, error: Tree, fuel: nat)
    requires !e.isSpace(Nul) && Chain(e.lang, c.stack, 0) && error.symbol == ErrorSymbol
    ensures var r := RecoverFrom(e, c, error, fuel);
      r.0 != Abandoned ==> Chain(e.lang, r.1.stack, 0)
  {
    RecoverOutcome(e, c, error, fuel);
    var r := RecoverFrom(e, c, error, fuel);
    if r.0 == Resumed {
      ResynchronizedKeepsChain(e.lang, c.stack, RecoveryDepth(e.lang, c.stack, r.1.lookahead.value.symbol).value, error);
    }
  }

  /**
   * A step keeps a chained stack chained unless it fails: a shift pushes in the state the table
   * gives the lookahead, a reduce truncates, recovery resynchronizes.
   */
  lemma ActOnKeepsChain(e: Env, c: Config, fuel: nat)
    requires !e.isSpace(Nul) && c.lookahead.Some? && Chain(e.lang, c.stack, 0)
    ensures var r := ActOn(e, c, fuel);
      r.1 != Some(Failed) ==> Chain(e.lang, r.0.stack, 0)
  {
    var token := c.lookahead.value;
    match e.lang.action(TopState(c.stack), token.symbol)
    case Shift(toState) =>
      ChainPush(e.lang, c.stack, Entry(toState, token));
    case Reduce(symbol, childCount, collapseFlags) =>
      ChainPrefix(e.lang, c.stack, |ParseStack.Reduce(c.stack, symbol, childCount, collapseFlags).1|);
    case Accept =>
    case Error =>
      RecoverKeepsChain(e, c, ErrorAt(e, c), fuel);
  }

  /**
   * How a step ends the parse: an accept leaves everything as it was, with an accept action on the
   * lookahead; a failure leaves the end of input as the lookahead and an error node as the root.
   * A shift that continues leaves one more entry; a reduce leaves its node as the lookahead.
   */
  lemma ActOnEnds(e: Env, c: Config, fuel: nat)
    requires !e.isSpace(Nul) && c.lookahead.Some?
    ensures var r := ActOn(e, c, fuel);
      (r.1 == Some(Accepted) <==> e.lang.action(TopState(c.stack), c.lookahead.value.symbol).Accept?) &&
      (r.1 == Some(Accepted) ==> r.0 == c) &&
      (r.1 == Some(Failed) ==>
        r.0.lookahead.Some? && r.0.lookahead.value.symbol == EndSymbol &&
        Root(r.0.stack).Some? && Root(r.0.stack).value.ErrorNode?)
  {
    if e.lang.action(TopState(c.stack), c.lookahead.value.symbol).Error? {
      RecoverOutcome(e, c, ErrorAt(e, c), fuel);
    }
  }

  /** The driver keeps a chained stack chained unless the parse fails. */
  lemma {:induction false} DriveKeepsChain(e: Env, c: Config, steps: nat, fuel: nat)
    requires !e.isSpace(Nul) && Chain(e.lang, c.stack, 0)
    ensures var r := Drive(e, c, steps, fuel);
      r.1 != Failed ==> Chain(e.lang, r.0.stack, 0)
    decreases steps
  {
    if steps > 0 {
      var f := Fill(e, c);
      ActOnKeepsChain(e, f, fuel);
      var a := ActOn(e, f, fuel);
      DriveUnfold(e, c, steps, fuel);
      if a.1.None? {
        DriveKeepsChain(e, a.0, steps - 1, fuel);
      }
    }
  }

  /**
   * How the driver ends: an accepted parse stops with an accept action on the lookahead in the
   * top state; a failed one stops at the end of input with an error node as the root.
   */
  lemma {:induction false} DriveEnds(e: Env, c: Config, steps: nat, fuel: nat)
    requires !e.isSpace(Nul)
    ensures var r := Drive(e, c, steps, fuel);
      (r.1 == Accepted ==>
        r.0.lookahead.Some? && e.lang.action(TopState(r.0.stack), r.0.lookahead.value.symbol).Accept?) &&
      (r.1 == Failed ==>
        r.0.lookahead.Some? && r.0.lookahead.value.symbol == EndSymbol &&
        Root(r.0.stack).Some? && Root(r.0.stack).value.ErrorNode?)
    decreases steps
  {
    if steps > 0 {
      var f := Fill(e, c);
      ActOnEnds(e, f, fuel);
      var a := ActOn(e, f, fuel);
      DriveUnfold(e, c, steps, fuel);
      if a.1.None? {
        DriveEnds(e, a.0, steps - 1, fuel);
      }
    }
  }

  class Parser {
    const lang: Language
    /** The character class the lexer skips before each token. */
    const isSpace: char -> bool
    /** The lexer, embedded in the parser and remade in place by `Initialize`. */
    const lexer: Lexer
    var stack: seq<Entry>
    var lookahead: Option<Tree>
    var nextLookahead: Option<Tree>

    ghost predicate Valid()
      reads this, lexer
    {
      !isSpace(Nul) && lexer.Valid()
    }

    /** Ready to lex: the lexer has loaded its first chunk. */
    ghost predicate Ready()
      reads this, lexer
    {
      Valid() && lexer.Started()
    }

    /** What the parse runs against, as far as the lexer has been given it. */
    ghost function CurrentEnv(): Env
      reads this, lexer
    {
      Env(lang, isSpace, lexer.input.text, lexer.origin)
    }

    /** The driver's state: the stack, both lookahead slots and the lexer's positions. */
    ghost function Now(): Config
      reads this, lexer
    {
      Config(stack, lookahead, nextLookahead, lexer.Cur())
    }

    /** A parser with an empty stack and a lexer that has no input yet. */
    constructor (lang: Language, isSpace: char -> bool)
      requires !isSpace(Nul)
      ensures Valid() && !lexer.Started() && this.lang == lang && this.isSpace == isSpace
      ensures stack == [] && lookahead == None && nextLookahead == None
    {
      this.lang := lang;
      this.isSpace := isSpace;
      lexer := new Lexer();
      stack := [];
      lookahead, nextLookahead := None, None;
    }

    /**
     * Pushes the lookahead in `parseState`; the token waiting in the second slot becomes the
     * lookahead. No tree is lost or reordered: the stack's nodes followed by the waiting trees
     * are what they were.
     */
    method Shift(parseState: StateId)
      requires lookahead.Some?
      modifies this
      ensures stack == Push(old(stack), parseState, old(lookahead.value))
      ensures lookahead == old(nextLookahead) && nextLookahead == None
      ensures Nodes(stack) + Pending(lookahead, nextLookahead) == old(Nodes(stack) + Pending(lookahead, nextLookahead))
      ensures old(Chain(lang, stack, 0)) && parseState == old(PushState(lang, stack, lookahead.value)) ==> Chain(lang, stack, 0)
    {
      if Chain(lang, stack, 0) && parseState == PushState(lang, stack, lookahead.value) {
        ChainPush(lang, stack, Entry(parseState, lookahead.value));
      }
      stack := Push(stack, parseState, lookahead.value);
      lookahead := nextLookahead;
      nextLookahead := None;
    }

    /**
     * Replaces the top `childCount` entries by one node of `symbol`, which becomes the lookahead;
     * the old lookahead waits in the second slot. No input is consumed: the trees that were
     * waiting still wait, behind the new node, unless the second slot was already occupied.
     */
    method Reduce(symbol: Symbol, childCount: nat, collapseFlags: seq<bool>)
      modifies this
      ensures var r := ParseStack.Reduce(old(stack), symbol, childCount, collapseFlags);
        stack == r.1 && lookahead == Some(r.0)
      ensures nextLookahead == old(lookahead)
      ensures old(nextLookahead).None? ==>
        Pending(lookahead, nextLookahead) == [lookahead.value] + old(Pending(lookahead, nextLookahead))
      ensures old(Chain(lang, stack, 0)) ==> Chain(lang, stack, 0)
    {
      nextLookahead := lookahead;
      var r := ParseStack.Reduce(stack, symbol, childCount, collapseFlags);
      if Chain(lang, stack, 0) {
        ChainPrefix(lang, stack, |r.1|);
      }
      stack := r.1;
      lookahead := Some(r.0);
    }

    /**
     * The symbols the top state has an action for, with their count: a counting pass over the
     * state's row, then a pass filling an array of that size.
     */
    method ExpectedSymbols() returns (symbols: seq<Symbol>, count: nat)
      ensures count == |symbols|
      ensures symbols == ValidSymbols(lang, TopState(stack), lang.symbolCount)
    {
      var state := TopState(stack);
      count := 0;
      for i := 0 to lang.symbolCount
        invariant count == |ValidSymbols(lang, state, i)|
      {
        if !lang.action(state, i).Error? {
          count := count + 1;
        }
      }
      var result := new Symbol[count];
      var n := 0;
      for i := 0 to lang.symbolCount
        invariant n == |ValidSymbols(lang, state, i)| <= count
        invariant result[..n] == ValidSymbols(lang, state, i)
      {
        ValidSymbolsPrefix(lang, state, i + 1, lang.symbolCount);
        if !lang.action(state, i).Error? {
          result[n] := i;
          n := n + 1;
        }
      }
      symbols := result[..];
    }

    /**
     * The downward scan of error recovery: from the top entry to the bottom, the first whose
     * state shifts the error symbol into a state with an action on `symbol`.
     */
    method FindRecovery(symbol: Symbol) returns (depth: Option<nat>)
      ensures depth == RecoveryDepth(lang, stack, symbol)
    {
      var i: int := |stack| - 1;
      assert stack[..i + 1] == stack;
      while i >= 0
        invariant -1 <= i < |stack|
        invariant RecoveryDepth(lang, stack[..i + 1], symbol) == RecoveryDepth(lang, stack, symbol)
      {
        var stackState := stack[i].state;
        var actionOnError := lang.action(stackState, ErrorSymbol);
        if actionOnError.Shift? {
          var stateAfterError := actionOnError.toState;
          if !lang.action(stateAfterError, symbol).Error? {
            assert stack[..i + 1][..i] == stack[..i];
            return Some(i);
          }
        }
        assert stack[..i + 1][..i] == stack[..i];
        i := i - 1;
      }
      return None;
    }

    /**
     * Error recovery. The error node records the lookahead character and the expected symbols of
     * the top state. Then the rounds of `SkipOrResume` run, at most `fuel` of them, while tokens
     * are skipped; the outcome is exactly `RecoverFrom`'s.
     */
    method HandleError(fuel: nat) returns (recovery: Recovery)
      requires Ready()
      modifies this, lexer
      ensures Ready() && CurrentEnv() == old(CurrentEnv())
      ensures (recovery, Now()) == old(RecoverFrom(CurrentEnv(), Now(), ErrorAt(CurrentEnv(), Now()), fuel))
    {
      var expected, count := ExpectedSymbols();
      var error := MakeError(lexer.LookaheadChar(), expected);
      assert error == ErrorAt(CurrentEnv(), Now());
      recovery := RecoverRounds(error, fuel);
    }

    /** The rounds of error recovery, at most `fuel` of them, while tokens are skipped. */
    method RecoverRounds(error: Tree, fuel: nat) returns (recovery: Recovery)
      requires Ready()
      modifies this, lexer
      ensures Ready() && CurrentEnv() == old(CurrentEnv())
      ensures (recovery, Now()) == old(RecoverFrom(CurrentEnv(), Now(), error, fuel))
    {
      ghost var e := CurrentEnv();
      ghost var goal := RecoveryResult(e, Now(), error, fuel);
      var remaining := fuel;
      while remaining > 0
        invariant Ready() && CurrentEnv() == e
        invariant RecoveryResult(e, Now(), error, remaining) == goal
      {
        recovery := RecoverRound(e, goal, error, remaining);
        if recovery != Skipping { return; }
        remaining := remaining - 1;
      }
      return Skipping;
    }

    /** One round of `RecoverRounds`: the outcome it reaches, or where the next round starts. */
    method RecoverRound(ghost e: Env, ghost goal: (Recovery, Config), error: Tree, remaining: nat) returns (recovery: Recovery)
      requires Ready() && CurrentEnv() == e && remaining > 0 && RecoveryResult(e, Now(), error, remaining) == goal
      modifies this, lexer
      ensures Ready() && CurrentEnv() == e
      ensures recovery != Skipping ==> goal == (recovery, Now())
      ensures recovery == Skipping ==> RecoveryResult(e, Now(), error, remaining - 1) == goal
    {
      ghost var before := Now();
      recovery := SkipOrResume(error);
      RecoverUnfold(e, before, error, remaining);
    }

    /**
     * One round of error recovery: lexes a token in the error lex state as the lookahead, then
     * gives up at the end of input, or resumes, or skips the token, as `RecoverStep` says.
     */
    method SkipOrResume(error: Tree) returns (recovery: Recovery)
      requires Ready()
      modifies this, lexer
      ensures Ready() && CurrentEnv() == old(CurrentEnv())
      ensures (recovery, Now()) == old(RecoverStep(CurrentEnv(), Now(), error))
    {
      var token := NextToken(LexStateError);
      lookahead := Some(token);
      recovery := ResumeOnLookahead(error);
    }

    /**
     * Lexes the next token in `lexState` with the grammar's scanner: exactly the token `LexNext`
     * gives from the lexer's positions, which move past it. The text is not changed.
     */
    method NextToken(lexState: LexStateId) returns (token: Tree)
      requires Ready()
      modifies lexer
      ensures Ready() && CurrentEnv() == old(CurrentEnv())
      ensures (token, lexer.Cur()) == old(LexNext(CurrentEnv(), lexer.Cur(), lexState))
    {
      token := lexer.Lex(lexState, lang.scan, isSpace);
    }

    /**
     * What recovery does with the token just lexed: at the end of input the error node becomes
     * the root; otherwise the stack is cut above the topmost state that recovers on the token
     * and the error node is pushed, or, if no state does, nothing changes.
     */
    method ResumeOnLookahead(error: Tree) returns (recovery: Recovery)
      requires lookahead.Some?
      modifies this`stack
      ensures recovery == Abandoned <==> lookahead.value.symbol == EndSymbol
      ensures recovery == Abandoned ==> stack == SetBottomNode(old(stack), error)
      ensures var d := RecoveryDepth(lang, old(stack), lookahead.value.symbol);
        (recovery == Resumed ==> d.Some? && stack == Resynchronized(lang, old(stack), d.value, error)) &&
        (recovery == Skipping ==> d.None? && stack == old(stack))
    {
      if lookahead.value.symbol == EndSymbol {
        stack := SetBottomNode(stack, error);
        recovery := Abandoned;
      } else {
        var depth := FindRecovery(lookahead.value.symbol);
        if depth.Some? {
          stack := Resynchronized(lang, stack, depth.value, error);
          recovery := Resumed;
        } else {
          recovery := Skipping;
        }
      }
    }

    /**
     * Breaks the old tree on top of the stack down around the edit (see `StackBreakdown.Loop`, whose
     * corrected form this is) and returns where lexing resumes.
     */
    method BreakdownStack(edit: Option<Edit>) returns (position: nat)
      requires edit.None? ==> stack == []
      modifies this
      ensures (stack, position) == Breakdown(lang, old(stack), edit)
      ensures lookahead == old(lookahead) && nextLookahead == old(nextLookahead)
    {
      if stack == [] {
        return 0;
      }
      var pos := edit.value.position;
      var node := TopNode(stack);
      var left: nat := 0;
      var right: nat := node.offset + node.size;
      var children := Children(node);
      ghost var goal := Loop(lang, pos, stack, node, left, right);
      while right > pos || children != []
        invariant stack != [] && TopNode(stack) == node && children == Children(node)
        invariant Loop(lang, pos, stack, node, left, right) == goal
        invariant lookahead == old(lookahead) && nextLookahead == old(nextLookahead)
        decreases node
      {
        if children == [] {
          // A childless node reaching past the edit: drop it and resume where it starts.
          stack := stack[..|stack| - 1];
          return left;
        }
        ghost var before, node0, left0, right0 := stack, node, left, right;
        stack := stack[..|stack| - 1];
        PushChildrenPrefix(lang, pos, stack, children, 0, left);
        node, left, right := PushChildrenPass(pos, children, left);
        children := Children(node);
        assert Loop(lang, pos, before, node0, left0, right0) == Loop(lang, pos, stack, node, left, right);
      }
      position := right;
    }

    /**
     * The inner loop of the breakdown: pushes `children` from the first on, each in the state
     * the table gives it, until one reaches the edit or all are pushed; returns the last child
     * pushed with where it starts and ends.
     */
    method PushChildrenPass(pos: nat, children: seq<Tree>, start: nat) returns (child: Tree, left: nat, right: nat)
      requires children != []
      modifies this`stack
      ensures var p := PushChildren(lang, pos, old(stack), children, 0, start);
        stack == p.stack && child == children[p.last] && left == p.childLeft && right == p.right
    {
      ghost var pass := PushChildren(lang, pos, stack, children, 0, start);
      child, left, right := children[0], start, start;
      var i := 0;
      while i < |children|
        invariant i <= |children|
        invariant i < |children| ==> PushChildren(lang, pos, stack, children, i, left) == pass
        invariant i == |children| ==>
          stack == pass.stack && child == children[pass.last] && left == pass.childLeft && right == pass.right
      {
        child := children[i];
        right := left + child.offset + child.size;
        stack := Push(stack, PushState(lang, stack, child), child);
        if right >= pos {
          break;
        }
        if i + 1 < |children| {
          left := right;
        }
        i := i + 1;
      }
    }

    /**
     * Prepares a parse: without an edit the old stack is discarded; both lookahead slots are
     * cleared; the stack is broken down around the edit; the input is sought to where lexing
     * resumes and the lexer, remade over it, reads its first chunk from there.
     */
    method Initialize(input: Input, edit: Option<Edit>)
      requires Valid()
      modifies this, lexer
      ensures Ready()
      ensures lookahead == None && nextLookahead == None
      ensures var res := Breakdown(lang, if edit.None? then [] else old(stack), edit);
        stack == res.0 && lexer.origin == res.1 && lexer.input.text == input.text
      ensures lexer.Position() == 0 && lexer.tokenStartPosition == 0 && lexer.tokenEndPosition == 0
      ensures !lexer.atEnd ==> lexer.input.cursor == lexer.origin + lexer.chunkSize
    {
      if edit.None? {
        stack := Shrink(stack, 0);
      }
      lookahead := None;
      nextLookahead := None;
      var position := BreakdownStack(edit);
      lexer.Reset(input.Seek(position));
      lexer.Advance();
    }

    /**
     * The start of a step of the driver loop: when no lookahead waits, lexes one in the lex state
     * of the top state.
     */
    method FillLookahead()
      requires Ready()
      modifies this`lookahead, lexer
      ensures Ready() && CurrentEnv() == old(CurrentEnv())
      ensures Now() == old(Fill(CurrentEnv(), Now()))
    {
      if lookahead.None? {
        var token := NextToken(lang.lexState(TopState(stack)));
        lookahead := Some(token);
      }
    }

    /**
     * The rest of a step: does what the table's action for the top state and the lookahead
     * says, as `ActOn` does. A shift or a reduce goes on; an accept ends the parse; an error runs
     * recovery, which goes on, fails the parse, or ends it out of fuel.
     */
    method Act(fuel: nat) returns (done: Option<Ending>)
      requires Ready() && lookahead.Some?
      modifies this, lexer
      ensures Ready() && CurrentEnv() == old(CurrentEnv())
      ensures (Now(), done) == old(ActOn(CurrentEnv(), Now(), fuel))
    {
      match lang.action(TopState(stack), lookahead.value.symbol) {
        case Shift(toState) =>
          Shift(toState);
          done := None;
        case Reduce(symbol, childCount, collapseFlags) =>
          Reduce(symbol, childCount, collapseFlags);
          done := None;
        case Accept =>
          done := Some(Accepted);
        case Error =>
          var recovery := HandleError(fuel);
          done := OnRecovery(recovery);
      }
    }

    /** One step of the driver: the shortcut to the next lookahead, then one action on it. */
    method DriveStep(ghost e: Env, ghost goal: (Config, Ending), steps: nat, fuel: nat) returns (done: Option<Ending>)
      requires Ready() && CurrentEnv() == e && steps > 0 && DriveResult(e, Now(), steps, fuel) == goal
      modifies this, lexer
      ensures Ready() && CurrentEnv() == e
      ensures done.Some? ==> goal == (Now(), done.value)
      ensures done.None? ==> DriveResult(e, Now(), steps - 1, fuel) == goal
    {
      ghost var before := Now();
      FillLookahead();
      ghost var filled := Now();
      done := Act(fuel);
      assert filled == Fill(e, before) && (Now(), done) == ActOn(e, filled, fuel);
      DriveUnfold(e, before, steps, fuel);
    }

    /**
     * The `while (!done)` loop of the driver, at most `fuel` steps: each fills the lookahead and
     * acts on it, until an action ends the parse; the run is exactly `Drive`'s.
     */
    method DriveLoop(fuel: nat) returns (ending: Ending)
      requires Ready()
      modifies this, lexer
      ensures Ready() && CurrentEnv() == old(CurrentEnv())
      ensures (Now(), ending) == old(Drive(CurrentEnv(), Now(), fuel, fuel))
    {
      ghost var e := CurrentEnv();
      ghost var goal := DriveResult(e, Now(), fuel, fuel);
      var steps := fuel;
      ending := ParseOutOfFuel;
      while steps > 0
        invariant Ready() && CurrentEnv() == e
        invariant DriveResult(e, Now(), steps, fuel) == goal
        invariant ending == ParseOutOfFuel
      {
        var done := DriveStep(e, goal, steps, fuel);
        if done.Some? {
          ending := done.value;
          return;
        }
        steps := steps - 1;
      }
    }

    /**
     * The driver: prepare the parse, then step until an action ends it; the result is the bottom
     * node of the stack. The run is exactly `Drive` from the broken-down stack, empty slots and
     * lexer position 0, over the input sought to where the breakdown resumes. `fuel` bounds the
     * number of steps and the rounds of each recovery. An accepted parse ends with an accept
     * action on the lookahead, a failed one at the end of input with an error node as root, and
     * a stack that was chained stays chained unless the parse fails.
     */
    method Parse(input: Input, edit: Option<Edit>, fuel: nat) returns (root: Option<Tree>, ending: Ending)
      requires Valid()
      modifies this, lexer
      ensures Ready() && root == Root(stack)
      ensures var b := Breakdown(lang, if edit.None? then [] else old(stack), edit);
        CurrentEnv() == Env(lang, isSpace, input.text, b.1) &&
        (Now(), ending) == Drive(CurrentEnv(), Config(b.0, None, None, Cursor(0, 0)), fuel, fuel)
      ensures ending == Accepted ==>
        lookahead.Some? && lang.action(TopState(stack), lookahead.value.symbol).Accept?
      ensures ending == Failed ==>
        lookahead.Some? && lookahead.value.symbol == EndSymbol && root.Some? && root.value.ErrorNode?
      ensures (edit.None? || old(Chain(lang, stack, 0))) && ending != Failed ==> Chain(lang, stack, 0)
    {
      ghost var chained := edit.None? || Chain(lang, stack, 0);
      if chained {
        BreakdownKeepsChain(lang, if edit.None? then [] else stack, edit);
      }
      Initialize(input, edit);
      ghost var e := CurrentEnv();
      ghost var start := Now();
      ending := DriveLoop(fuel);
      root := Root(stack);
      DriveEnds(e, start, fuel, fuel);
      if chained {
        DriveKeepsChain(e, start, fuel, fuel);
      }
    }
  }
}
