/** Identifiers and syntax trees shared by the lexer, the parse stack and the LR driver. */
module Syntax {

  datatype Option<+T> = None | Some(value: T)

  /** A grammar symbol; terminals and nonterminals are 0, 1, 2, ... */
  type Symbol = int
  /** A parse-table state. */
  type StateId = int
  /** A state of the generated lexer. */
  type LexStateId = int

  /** The two builtin symbols occupy the two slots that every table row reserves before index 0. */
  const ErrorSymbol: Symbol := -1
  const EndSymbol: Symbol := -2

  /** The lex state used while recovering from a syntax error. */
  const LexStateError: LexStateId := -1

  /** The character the lexer sees at and beyond the end of the input. */
  const Nul: char := '\0'

  /**
   * A syntax tree. `offset` is the distance from the end of the previous token to the start of
   * this node (the trivia folded in front of it) and `size` is the width of its own text.
   */
  datatype Tree =
    | Leaf(symbol: Symbol, size: nat, offset: nat)
    | Node(symbol: Symbol, size: nat, offset: nat, children: seq<Tree>)
    | ErrorNode(symbol: Symbol, size: nat, offset: nat, lookaheadChar: char, expected: seq<Symbol>)

  /** Width of a node including the trivia in front of it. */
  function Span(t: Tree): nat {
    t.offset + t.size
  }

  /** Total width of a run of siblings. */
  function SumSpan(ts: seq<Tree>): nat {
    if ts == [] then 0 else SumSpan(ts[..|ts| - 1]) + Span(ts[|ts| - 1])
  }

  lemma {:induction false} SumSpanAppend(a: seq<Tree>, b: seq<Tree>)
    ensures SumSpan(a + b) == SumSpan(a) + SumSpan(b)
    decreases |b|
  {
    if b == [] {
      assert a + b == a;
    } else {
      assert (a + b)[..|a + b| - 1] == a + b[..|b| - 1];
      SumSpanAppend(a, b[..|b| - 1]);
    }
  }

  /**
   * The children of a node as the tree library reports them: the children of an internal node,
   * and none (a null pointer) for a token or an error node.
   */
  function Children(t: Tree): (cs: seq<Tree>)
    ensures forall k :: 0 <= k < |cs| ==> cs[k] < t
  {
    if t.Node? then t.children else []
  }

  /** A token as the lexer builds it. */
  function MakeLeaf(symbol: Symbol, size: nat, offset: nat): (t: Tree)
    ensures t.Leaf? && t.symbol == symbol && t.size == size && t.offset == offset && Children(t) == []
  {
    Leaf(symbol, size, offset)
  }

  /** An error node: the unexpected character and the symbols that would have been accepted. */
  function MakeError(c: char, expected: seq<Symbol>): (t: Tree)
    ensures t.ErrorNode? && t.symbol == ErrorSymbol && Span(t) == 0
    ensures t.lookaheadChar == c && t.expected == expected && Children(t) == []
  {
    ErrorNode(ErrorSymbol, 0, 0, c, expected)
  }
}
