/**
 * The lexer: a cursor over the chunks an input source delivers, and the bookkeeping that turns
 * the characters between two cursor positions into a token with a size and a relative offset.
 */
module Lexing {
  import opened Syntax
  import opened ParseTable

  /** `size_t` is 64 bits wide: its subtraction wraps modulo this. */
  const SizeModulus: int := 0x1_0000_0000_0000_0000

  /** Unsigned `a - b` on `size_t`. */
  function SizeSub(a: nat, b: nat): (r: nat)
    ensures r < SizeModulus
    ensures b <= a && a - b < SizeModulus ==> r == a - b
  {
    (a - b) % SizeModulus
  }

  type Width = w: nat | w > 0 witness 1

  /**
   * The input source: a text delivered in chunks of at most `width` characters from `cursor` on.
   * A read of size 0 signals the end of the stream; seeking moves the cursor.
   */
  datatype Input = Input(text: seq<char>, width: Width, cursor: nat) {

    function Read(): (res: (seq<char>, Input))
      ensures res.1 == this.(cursor := cursor + |res.0|)
      ensures res.0 == [] <==> cursor >= |text|
      ensures |res.0| <= width
      ensures res.0 != [] ==> cursor + |res.0| <= |text| && res.0 == text[cursor..cursor + |res.0|]
      ensures res.0 != [] && cursor + |res.0| < |text| ==> |res.0| == width
    {
      if cursor >= |text| then ([], this)
      else
        var end := if cursor + width < |text| then cursor + width else |text|;
        (text[cursor..end], this.(cursor := end))
    }

    function Seek(position: nat): Input {
      this.(cursor := position)
    }
  }

  /** The character at absolute stream position `p`, NUL at and past the end. */
  function StreamAt(text: seq<char>, p: nat): char {
    if p < |text| then text[p] else Nul
  }

  /** The fields `size` and `offset` of a token built at `position` (see `Lexer.BuildNode`). */
  function TokenSpan(tokenEnd: nat, tokenStart: nat, position: nat): (r: (nat, nat))
    ensures tokenStart <= position && position < SizeModulus ==> r.0 == position - tokenStart
    ensures tokenEnd <= tokenStart && tokenStart < SizeModulus ==> r.1 == tokenStart - tokenEnd
  {
    (SizeSub(position, tokenStart), SizeSub(tokenStart, tokenEnd))
  }

  /** Where a token was started (after its trivia) and where it ended. */
  datatype Bound = Bound(symbol: Symbol, start: nat, end: nat)

  /**
   * The lexer's bookkeeping across a run of tokens: each starts at or after the end of the
   * previous one (whitespace may lie between) and ends at or after its own start.
   */
  predicate Chained(tokenEnd: nat, bounds: seq<Bound>) {
    (forall k :: 0 <= k < |bounds| ==> bounds[k].start <= bounds[k].end < SizeModulus) &&
    (bounds != [] ==> tokenEnd <= bounds[0].start) &&
    (forall k :: 0 < k < |bounds| ==> bounds[k - 1].end <= bounds[k].start)
  }

  /** The end of the previous token as the lexer remembers it before building token `k`. */
  function EndBefore(tokenEnd: nat, bounds: seq<Bound>, k: nat): nat
    requires k <= |bounds|
  {
    if k == 0 then tokenEnd else bounds[k - 1].end
  }

  /** The token `BuildNode` returns for the k-th bound. */
  function BuiltToken(tokenEnd: nat, bounds: seq<Bound>, k: nat): (t: Tree)
    requires k < |bounds|
    ensures t.Leaf? && t.symbol == bounds[k].symbol
  {
    var sp := TokenSpan(EndBefore(tokenEnd, bounds, k), bounds[k].start, bounds[k].end);
    MakeLeaf(bounds[k].symbol, sp.0, sp.1)
  }

  /** The tokens `BuildNode` returns for the bounds, in order. */
  function BuiltTokens(tokenEnd: nat, bounds: seq<Bound>): (ts: seq<Tree>)
    ensures |ts| == |bounds|
  {
    seq(|bounds|, k requires 0 <= k < |bounds| => BuiltToken(tokenEnd, bounds, k))
  }

  lemma BuiltTokensPrefix(tokenEnd: nat, bounds: seq<Bound>, n: nat)
    requires n <= |bounds|
    ensures BuiltTokens(tokenEnd, bounds)[..n] == BuiltTokens(tokenEnd, bounds[..n])
  {
    var ts, ps := BuiltTokens(tokenEnd, bounds), BuiltTokens(tokenEnd, bounds[..n]);
    forall k | 0 <= k < n ensures ts[k] == ps[k] {
      assert EndBefore(tokenEnd, bounds[..n], k) == EndBefore(tokenEnd, bounds, k);
    }
  }

  /** The lexer remembers ever later token ends. */
  lemma {:induction false} EndsIncrease(tokenEnd: nat, bounds: seq<Bound>, k: nat)
    requires Chained(tokenEnd, bounds) && k < |bounds|
    ensures tokenEnd <= EndBefore(tokenEnd, bounds, k) <= bounds[k].start
    decreases k
  {
    if k > 0 {
      EndsIncrease(tokenEnd, bounds, k - 1);
    }
  }

  /**
   * Successive tokens cover exactly the text from the first token's predecessor's end to the
   * last token's end.
   */
  lemma {:induction false} TokensCover(tokenEnd: nat, bounds: seq<Bound>)
    requires Chained(tokenEnd, bounds)
    ensures SumSpan(BuiltTokens(tokenEnd, bounds)) == EndBefore(tokenEnd, bounds, |bounds|) - tokenEnd
    decreases |bounds|
  {
    if bounds != [] {
      var n := |bounds| - 1;
      var ts, prefix := BuiltTokens(tokenEnd, bounds), bounds[..n];
      assert Chained(tokenEnd, prefix);
      TokensCover(tokenEnd, prefix);
      BuiltTokensPrefix(tokenEnd, bounds, n);
      EndsIncrease(tokenEnd, bounds, n);
      assert EndBefore(tokenEnd, prefix, n) == EndBefore(tokenEnd, bounds, n);
      assert Span(ts[n]) == bounds[n].end - EndBefore(tokenEnd, bounds, n);
    }
  }

  /**
   * Successive tokens tile the input: the text of each token starts exactly where the lexer
   * started the token, so the tokens leave neither a gap nor an overlap.
   */
  lemma TokensTile(tokenEnd: nat, bounds: seq<Bound>, k: nat)
    requires Chained(tokenEnd, bounds) && k < |bounds|
    ensures tokenEnd + SumSpan(BuiltTokens(tokenEnd, bounds)[..k]) + BuiltTokens(tokenEnd, bounds)[k].offset == bounds[k].start
  {
    BuiltTokensPrefix(tokenEnd, bounds, k);
    assert Chained(tokenEnd, bounds[..k]);
    TokensCover(tokenEnd, bounds[..k]);
    EndsIncrease(tokenEnd, bounds, k);
    assert EndBefore(tokenEnd, bounds[..k], k) == EndBefore(tokenEnd, bounds, k);
  }

  /** The first stream position at or after `q` whose character is not whitespace. */
  function NextStart(text: seq<char>, isSpace: char -> bool, q: nat): (r: nat)
    requires !isSpace(Nul)
    ensures q <= r && !isSpace(StreamAt(text, r))
    ensures forall k :: q <= k < r ==> isSpace(StreamAt(text, k))
    decreases |text| - q
  {
    if isSpace(StreamAt(text, q)) then NextStart(text, isSpace, q + 1) else q
  }

  /** Whitespace from `q` up to a non-whitespace character at `r` makes `r` the next start. */
  lemma {:induction false} NextStartIs(text: seq<char>, isSpace: char -> bool, q: nat, r: nat)
    requires !isSpace(Nul) && q <= r && !isSpace(StreamAt(text, r))
    requires forall k :: q <= k < r ==> isSpace(StreamAt(text, k))
    ensures NextStart(text, isSpace, q) == r
    decreases r - q
  {
    if q < r {
      NextStartIs(text, isSpace, q + 1, r);
    }
  }

  /** The lexer's positions between two tokens: the cursor and the end of the last token built. */
  datatype Cursor = Cursor(position: nat, tokenEnd: nat)

  /**
   * The part of a lex after the whitespace, with the token starting at `start`: at NUL the end
   * token of width 0 with the cursor on the NUL; otherwise the token of the characters `scan`
   * claims, with the cursor and the token end just after them.
   */
  function LexFrom(text: seq<char>, origin: nat, tokenEnd: nat, start: nat, lexState: LexStateId, scan: Scanner): (r: (Tree, Cursor))
    ensures r.0.Leaf? && start <= r.1.position
  {
    if StreamAt(text, origin + start) == Nul then (MakeLeaf(EndSymbol, 0, 0), Cursor(start, tokenEnd))
    else
      var scanned := scan(lexState, text[origin + start..]);
      var sp := TokenSpan(tokenEnd, start, start + scanned.0);
      (MakeLeaf(scanned.1, sp.0, sp.1), Cursor(start + scanned.0, start + scanned.0))
  }

  /**
   * One lex from cursor `c` over a text sought to `origin`: whitespace is skipped and the token
   * starts at the first other character.
   */
  function LexAt(text: seq<char>, origin: nat, c: Cursor, lexState: LexStateId, scan: Scanner, isSpace: char -> bool): (r: (Tree, Cursor))
    requires !isSpace(Nul)
    ensures r.0.Leaf? && c.position <= r.1.position
  {
    var start := NextStart(text, isSpace, origin + c.position) - origin;
    LexFrom(text, origin, c.tokenEnd, start, lexState, scan)
  }

  /**
   * A lex either leaves the token end alone (at NUL) or moves it to the new cursor; and, as long
   * as `size_t` does not wrap, the token is exactly as wide as the text from the previous
   * token's end to the new token end.
   */
  lemma LexAtWidth(text: seq<char>, origin: nat, c: Cursor, lexState: LexStateId, scan: Scanner, isSpace: char -> bool)
    requires !isSpace(Nul)
    ensures var r := LexAt(text, origin, c, lexState, scan, isSpace);
      (r.1.tokenEnd == c.tokenEnd || r.1.tokenEnd == r.1.position) &&
      (c.tokenEnd <= c.position ==> c.tokenEnd <= r.1.tokenEnd <= r.1.position) &&
      (c.tokenEnd <= c.position && r.1.position < SizeModulus ==> Span(r.0) == r.1.tokenEnd - c.tokenEnd)
  {
  }

  /** `n` successive lexes from cursor `c`: the tokens in order and the cursor after the last. */
  function LexRun(text: seq<char>, origin: nat, c: Cursor, lexState: LexStateId, scan: Scanner, isSpace: char -> bool, n: nat): (r: (seq<Tree>, Cursor))
    requires !isSpace(Nul)
    ensures |r.0| == n && c.position <= r.1.position
    ensures c.tokenEnd <= c.position ==> c.tokenEnd <= r.1.tokenEnd <= r.1.position
  {
    if n == 0 then ([], c)
    else
      var prev := LexRun(text, origin, c, lexState, scan, isSpace, n - 1);
      var next := LexAt(text, origin, prev.1, lexState, scan, isSpace);
      LexAtWidth(text, origin, prev.1, lexState, scan, isSpace);
      (prev.0 + [next.0], next.1)
  }

  /** A run of `n` lexes is the run of `n - 1` followed by one more lex. */
  lemma LexRunLast(text: seq<char>, origin: nat, c: Cursor, lexState: LexStateId, scan: Scanner, isSpace: char -> bool, n: nat)
    requires !isSpace(Nul) && n > 0
    ensures var prev := LexRun(text, origin, c, lexState, scan, isSpace, n - 1);
      var next := LexAt(text, origin, prev.1, lexState, scan, isSpace);
      var run := LexRun(text, origin, c, lexState, scan, isSpace, n);
      run.0 == prev.0 + [next.0] && run.1 == next.1
  {
  }

  /** Token `j` of a run is token `j` of every longer run: later lexes do not change earlier tokens. */
  lemma {:induction false} LexRunStable(text: seq<char>, origin: nat, c: Cursor, lexState: LexStateId, scan: Scanner, isSpace: char -> bool, j: nat, n: nat)
    requires !isSpace(Nul) && j < n
    ensures LexRun(text, origin, c, lexState, scan, isSpace, n).0[j] == LexRun(text, origin, c, lexState, scan, isSpace, j + 1).0[j]
    decreases n
  {
    if j < n - 1 {
      var run := LexRun(text, origin, c, lexState, scan, isSpace, n).0;
      var prev := LexRun(text, origin, c, lexState, scan, isSpace, n - 1).0;
      LexRunStable(text, origin, c, lexState, scan, isSpace, j, n - 1);
      LexRunLast(text, origin, c, lexState, scan, isSpace, n);
      assert run[j] == prev[j];
    }
  }

  /**
   * Successive lexes tile the text: the tokens of a run together are exactly as wide as the
   * text from the first token's predecessor's end to the last token's end.
   */
  lemma {:induction false} LexRunCovers(text: seq<char>, origin: nat, c: Cursor, lexState: LexStateId, scan: Scanner, isSpace: char -> bool, n: nat)
    requires !isSpace(Nul) && c.tokenEnd <= c.position
    requires LexRun(text, origin, c, lexState, scan, isSpace, n).1.position < SizeModulus
    ensures var r := LexRun(text, origin, c, lexState, scan, isSpace, n);
      SumSpan(r.0) == r.1.tokenEnd - c.tokenEnd
  {
    if n > 0 {
      var prev := LexRun(text, origin, c, lexState, scan, isSpace, n - 1);
      var next := LexAt(text, origin, prev.1, lexState, scan, isSpace);
      LexRunCovers(text, origin, c, lexState, scan, isSpace, n - 1);
      LexAtWidth(text, origin, prev.1, lexState, scan, isSpace);
      var ts := prev.0 + [next.0];
      assert ts[..|ts| - 1] == prev.0;
    }
  }

  /**
   * The lexer. `origin` is the stream position the input was at when the lexer was made (the
   * position seeked to), so that stream position `origin + p` is lexer position `p`; `atEnd`
   * records that the one-character NUL chunk stands in for the exhausted input.
   */
  class Lexer {
    var input: Input
    var chunk: seq<char>
    var chunkStart: nat
    var chunkSize: nat
    var positionInChunk: nat
    var tokenEndPosition: nat
    var tokenStartPosition: nat
    ghost var origin: nat
    ghost var atEnd: bool

    ghost predicate Valid()
      reads this
    {
      chunkSize == |chunk| &&
      (positionInChunk < chunkSize || (chunkSize == 0 && positionInChunk == 0)) &&
      tokenStartPosition <= Position() && tokenEndPosition <= Position() &&
      (atEnd ==> chunk == [Nul] && |input.text| <= origin + chunkStart && |input.text| <= input.cursor) &&
      (!atEnd ==>
        origin + chunkStart + chunkSize == input.cursor &&
        (chunkSize > 0 ==> input.cursor <= |input.text| && chunk == input.text[input.cursor - chunkSize..input.cursor]))
    }

    /** Some chunk has been read: the lookahead character exists. */
    predicate Started()
      reads this
    {
      chunkSize > 0
    }

    /**
     * A lexer as made before any input is attached: no chunk, all positions 0. The input is
     * not set here; an empty one stands in until `Reset` attaches the real one.
     */
    constructor ()
      ensures Valid() && !Started()
      ensures chunk == [] && chunkStart == 0 && positionInChunk == 0
      ensures tokenStartPosition == 0 && tokenEndPosition == 0
    {
      input := Input([], 1, 0);
      chunk := [];
      chunkStart, chunkSize, positionInChunk := 0, 0, 0;
      tokenStartPosition, tokenEndPosition := 0, 0;
      origin := 0;
      atEnd := false;
    }

    /**
     * Remakes the lexer in place over `input`: no chunk is loaded until the first `Advance`, and
     * stream position `input.cursor` becomes lexer position 0.
     */
    method Reset(input: Input)
      modifies this
      ensures Valid() && !Started()
      ensures this.input == input && chunk == [] && chunkStart == 0 && positionInChunk == 0
      ensures tokenStartPosition == 0 && tokenEndPosition == 0
      ensures origin == input.cursor && !atEnd
    {
      this.input := input;
      chunk := [];
      chunkStart, chunkSize, positionInChunk := 0, 0, 0;
      tokenStartPosition, tokenEndPosition := 0, 0;
      origin := input.cursor;
      atEnd := false;
    }

    /** The cursor's position, counted from where the input was sought to. */
    function Position(): (p: nat)
      reads this
      ensures chunkStart <= p && (positionInChunk < chunkSize ==> p < chunkStart + chunkSize)
    {
      chunkStart + positionInChunk
    }

    /** The current character: the input's character at the cursor, NUL past its end. */
    function LookaheadChar(): (c: char)
      reads this
      requires Valid() && Started()
      ensures c == StreamAt(input.text, origin + Position())
    {
      chunk[positionInChunk]
    }

    /**
     * The characters the generated lexer can inspect from the cursor on: the rest of the chunk
     * and of the input, or the NUL chunk alone at the end.
     */
    function Ahead(): (s: seq<char>)
      reads this
      requires Valid() && Started()
      ensures s != [] && s[0] == LookaheadChar()
      ensures !atEnd ==> origin + Position() <= |input.text| && s == input.text[origin + Position()..]
      ensures atEnd ==> s == [Nul]
    {
      chunk[positionInChunk..] + (if input.cursor < |input.text| then input.text[input.cursor..] else [])
    }

    /** Moves one character forward, reading the next chunk when this one is used up. */
    method Advance()
      requires Valid()
      modifies this
      ensures Valid() && Started()
      ensures Position() == old(Position()) + (if old(Started()) then 1 else 0)
      ensures origin == old(origin) && input.text == old(input.text)
      ensures tokenStartPosition == old(tokenStartPosition) && tokenEndPosition == old(tokenEndPosition)
      ensures old(positionInChunk + 1 < chunkSize) ==>
        positionInChunk == old(positionInChunk) + 1 && chunkStart == old(chunkStart) &&
        chunk == old(chunk) && chunkSize == old(chunkSize) && input == old(input)
      ensures !old(positionInChunk + 1 < chunkSize) ==>
        var read := old(input).Read();
        chunkStart == old(chunkStart) + old(chunkSize) && input == read.1 && positionInChunk == 0 &&
        chunk == (if read.0 == [] then [Nul] else read.0) && chunkSize == |chunk|
    {
      if positionInChunk + 1 < chunkSize {
        positionInChunk := positionInChunk + 1;
      } else {
        chunkStart := chunkStart + chunkSize;
        var read := input.Read();
        chunk, input := read.0, read.1;
        chunkSize := |chunk|;
        if chunkSize == 0 {
          chunk := [Nul];
          chunkSize := 1;
          atEnd := true;
        }
        positionInChunk := 0;
      }
    }

    /**
     * Builds the token ending at the cursor: its size is the distance from the token start, its
     * offset the distance from the previous token's end; the cursor becomes the new token end.
     */
    method BuildNode(symbol: Symbol) returns (token: Tree)
      requires Valid()
      modifies this`tokenEndPosition
      ensures Valid() && tokenEndPosition == Position()
      ensures var sp := TokenSpan(old(tokenEndPosition), tokenStartPosition, Position());
        token == MakeLeaf(symbol, sp.0, sp.1)
      ensures Position() < SizeModulus ==> token.size == Position() - tokenStartPosition
      ensures old(tokenEndPosition) <= tokenStartPosition && Position() < SizeModulus ==>
        Span(token) == Position() - old(tokenEndPosition)
    {
      var currentPosition := Position();
      var size := SizeSub(currentPosition, tokenStartPosition);
      var offset := SizeSub(tokenStartPosition, tokenEndPosition);
      tokenEndPosition := currentPosition;
      token := MakeLeaf(symbol, size, offset);
    }

    /**
     * Skips whitespace and starts the next token at the cursor, so that the skipped characters
     * become part of the next token's offset.
     */
    method SkipWhitespace(isSpace: char -> bool)
      requires Valid() && Started() && !isSpace(Nul)
      modifies this
      ensures Valid() && Started()
      ensures origin == old(origin) && input.text == old(input.text)
      ensures tokenEndPosition == old(tokenEndPosition)
      ensures old(Position()) <= Position() && tokenStartPosition == Position()
      ensures !isSpace(LookaheadChar())
      ensures forall q :: origin + old(Position()) <= q < origin + Position() ==> isSpace(StreamAt(input.text, q))
    {
      while isSpace(LookaheadChar())
        invariant Valid() && Started()
        invariant origin == old(origin) && input.text == old(input.text)
        invariant tokenEndPosition == old(tokenEndPosition)
        invariant old(Position()) <= Position()
        invariant forall q :: origin + old(Position()) <= q < origin + Position() ==> isSpace(StreamAt(input.text, q))
        decreases |input.text| - (origin + Position())
      {
        Advance();
      }
      tokenStartPosition := Position();
    }

    /** The positions the next lex starts from. */
    ghost function Cur(): Cursor
      reads this
    {
      Cursor(Position(), tokenEndPosition)
    }

    /** The token the next lex in `lexState` returns, with the positions after it. */
    ghost function Upcoming(lexState: LexStateId, scan: Scanner, isSpace: char -> bool): (Tree, Cursor)
      reads this
      requires !isSpace(Nul)
    {
      LexAt(input.text, origin, Cur(), lexState, scan, isSpace)
    }

    /**
     * The grammar's lex function, as the lexer macros build it: skip whitespace; at NUL return
     * the end token of width 0; otherwise advance over the characters `scan` claims and build
     * the token it names.
     */
    method Lex(lexState: LexStateId, scan: Scanner, isSpace: char -> bool) returns (token: Tree)
      requires Valid() && Started() && !isSpace(Nul)
      modifies this
      ensures Valid() && Started()
      ensures origin == old(origin) && input.text == old(input.text)
      ensures (token, Cur()) == old(Upcoming(lexState, scan, isSpace))
    {
      ghost var before := Cur();
      SkipWhitespace(isSpace);
      NextStartIs(input.text, isSpace, origin + before.position, origin + Position());
      if LookaheadChar() == Nul {
        token := MakeLeaf(EndSymbol, 0, 0);
        return;
      }
      token := LexToken(lexState, scan);
    }

    /**
     * The rest of a lex once the token has started at a character other than NUL: advance over
     * the characters `scan` claims (the `ADVANCE` steps) and build the token it names.
     */
    method LexToken(lexState: LexStateId, scan: Scanner) returns (token: Tree)
      requires Valid() && Started() && LookaheadChar() != Nul && tokenStartPosition == Position()
      modifies this
      ensures Valid() && Started()
      ensures origin == old(origin) && input.text == old(input.text)
      ensures old(origin + Position()) < |input.text|
      ensures (token, Cur()) == old(LexFrom(input.text, origin, tokenEndPosition, Position(), lexState, scan))
    {
      var scanned := scan(lexState, Ahead());
      AdvanceBy(scanned.0);
      token := BuildNode(scanned.1);
    }

    /** The `ADVANCE` steps of a token: moves `n` characters forward. */
    method AdvanceBy(n: nat)
      requires Valid() && Started()
      modifies this
      ensures Valid() && Started() && Position() == old(Position()) + n
      ensures origin == old(origin) && input.text == old(input.text)
      ensures tokenStartPosition == old(tokenStartPosition) && tokenEndPosition == old(tokenEndPosition)
    {
      var i := 0;
      while i < n
        invariant 0 <= i <= n
        invariant Valid() && Started() && Position() == old(Position()) + i
        invariant origin == old(origin) && input.text == old(input.text)
        invariant tokenStartPosition == old(tokenStartPosition) && tokenEndPosition == old(tokenEndPosition)
      {
        Advance();
        i := i + 1;
      }
    }
  }
}
