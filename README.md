# tree-sitter LR parser runtime, modelled in Dafny

This project models the runtime of a table-driven LR parser as it appears in
`include/tree_sitter/parser.h`. That header is included by every generated grammar and holds four parts:

- **the lexer.** A cursor over the chunks an input source delivers. It turns the text between two
  cursor positions into a token with a `size` and an `offset` relative to the end of the previous
  token.
- **the LR driver.** A parse stack of (state, node) entries and two lookahead slots, run by the
  shift / reduce / accept / error dispatch loop of `ts_parse`.
- **error recovery.** It records the expected symbols in an error node. It then re-lexes in the
  error lex state until some state on the stack can shift the error symbol and then accept the
  new token.
- **incremental reparsing.** Before the driver starts, the previous tree on top of the stack is
  broken down child by child around an edit position.

Files and modules:

| file | module | contents |
|---|---|---|
| `syntax.dfy` | `Syntax` | symbols and builtin symbols, `Tree` (token, internal node, error node), spans |
| `parse_table.dfy` | `ParseTable` | parse actions, the language given as functions, the valid symbols of a state |
| `parse_stack.dfy` | `ParseStack` | the stack's interface as functions on `seq<Entry>` (its implementation is not part of this model) |
| `lexer.dfy` | `Lexing` | the input source as a value, the `Lexer` class, and lemmas on token spans |
| `breakdown.dfy` | `StackBreakdown` | the stack breakdown as functions (as written and corrected), with its soundness lemmas |
| `parser.dfy` | `LRParser` | the `Parser` class: shift, reduce, expected symbols, error recovery, breakdown, initialize, the driver |

Design:

- The parse table is an immutable `Language` value. It holds the symbol count, an
  `action(state, symbol)` function, a `lexState(state)` function and the grammar's scanner.
- The builtin symbols `error` and `end` are -1 and -2. These are the two slots each table row
  reserves before index 0.
- Reading `.data.to_state` from any action reads the first word of the data union, which
  `Action.DataWord` models. For a reduce this word is the result symbol; for the zero-initialised
  `error` and `accept` entries it is 0.
- The input is a text delivered in chunks of a fixed width from a cursor. A read of size 0 means
  end of stream, and seeking sets the cursor.
- The lexer keeps two ghost fields.
  - `origin` is the stream position sought to, so lexer position `p` is stream position `origin + p`.
  - `atEnd` records that the one-character NUL chunk has replaced the exhausted input.
- `size_t` subtraction is modelled modulo 2^64 (`SizeSub`).
- The header only declares the tree and stack functions, so the model defines them.
  - `Syntax.MakeLeaf` builds a token with the given symbol, size and offset and no children.
    The lexer calls it for the end token (`ts_tree_make_leaf(ts_builtin_sym_end, 0, 0)`) and in
    `ts_lexer_build_node`.
  - `Syntax.MakeError` builds an error node of width 0 that records the lookahead character and
    the expected symbols (the call in `ts_lr_parser_handle_error`).
  - `ParseStack.TopState` is the last entry's state, or state 0 on an empty stack.
  - `ParseStack.TopNode` is the last entry's node.
  - `ParseStack.Root` is the bottom entry's node, when there is one.
- The driver's behaviour is given by functions on values, and the `Parser` methods are proved
  equal to them.
  - `Env` holds what a parse runs against: the language, the whitespace class, the text and the
    position sought to.
  - `Config` holds the driver's state between steps: the stack, both lookahead slots and the
    lexer's cursor.
  - `LexNext` is one lex. `RecoverStep` is one round of `handle_error`'s `for (;;)` loop, and
    `RecoverFrom` runs those rounds. `Fill` and `ActOn` are the two halves of one iteration of
    `ts_parse`'s `while (!done)` loop, and `Drive` runs those iterations.
  - `RecoveryResult` and `DriveResult` name the outcome of `RecoverFrom` and of `Drive`
    as one value. The loops and the lemmas about runs of skipped tokens carry that value
    unchanged from one round or step to the next.

## Model

| member | source | states |
|---|---|---|
| `Lexing.Lexer.constructor` | include/tree_sitter/parser.h:172-182 | a made lexer has no chunk and all positions 0 |
| `Lexing.Lexer.Reset` | include/tree_sitter/parser.h:308-309 | remaking the lexer over an input leaves no chunk, all positions 0, and stream position `input.cursor` as lexer position 0 |
| `Lexing.Lexer.Position` | include/tree_sitter/parser.h:184-186 | the position is counted from where the input was sought to; it is at or after the chunk's start, and inside the chunk whenever the offset in the chunk is |
| `Lexing.Lexer.LookaheadChar` | include/tree_sitter/parser.h:188-190 | the character under the cursor is the input's character at that stream position, NUL past the end |
| `Lexing.Lexer.Ahead` | include/tree_sitter/parser.h:113-114 | what the generated lexer can read from the cursor on: the rest of the input, or NUL alone at the end; its first character is the lookahead |
| `Lexing.Input.Read` | include/tree_sitter/parser.h:198 | a read returns the next at most `width` characters from the cursor and advances the cursor; it is empty exactly at the end of the text |
| `Lexing.Lexer.Advance` | include/tree_sitter/parser.h:192-205 | afterwards the lexer is started and `positionInChunk < chunkSize`; the position grows by exactly 1, or stays 0 on the first advance; inside a chunk only `positionInChunk` moves; at a chunk boundary the next chunk is read and an empty read becomes the NUL chunk |
| `Lexing.Lexer.BuildNode` | include/tree_sitter/parser.h:207-213 | the token's size is position − token start and its offset token start − previous token end (both wrapping as `size_t`); the token end becomes the position; when the positions are ordered, size + offset is the distance from the previous token's end |
| `Lexing.SizeSub` | include/tree_sitter/parser.h:209-210 | unsigned subtraction agrees with integer subtraction whenever that is not negative |
| `Lexing.TokenSpan` | include/tree_sitter/parser.h:207-213 | with ordered positions, a token's size and offset are the plain differences |
| `Lexing.Lexer.SkipWhitespace` | include/tree_sitter/parser.h:215-219 | the position never moves back; every skipped character is whitespace; the lookahead afterwards is not whitespace; the token start is the position |
| `Lexing.Lexer.Lex` | include/tree_sitter/parser.h:103-130 | after skipping whitespace, NUL gives the end token of width 0 and changes nothing else; otherwise the lexer advances over exactly the characters the scanner claims and builds the token it names |
| `Lexing.Lexer.LexToken` | include/tree_sitter/parser.h:116-127 | once a token starts at a character other than NUL, the lexer advances over exactly the characters the scanner claims from the cursor on and builds the token it names, which is `LexFrom`'s token; the text and the origin stay |
| `Lexing.Lexer.AdvanceBy` | include/tree_sitter/parser.h:116-121 | `n` advances move the position by exactly `n` and leave the token bounds alone |
| `Lexing.NextStart` | include/tree_sitter/parser.h:215-219 | skipping whitespace from `q` stops at the first position from `q` on whose character is not whitespace; every character passed over is whitespace |
| `Lexing.LexFrom` | include/tree_sitter/parser.h:103-130 | the part of a lex after the whitespace yields a token and never moves the cursor before the token's start |
| `Lexing.LexAt` | include/tree_sitter/parser.h:103-130 | a lex yields a token and never moves the cursor back |
| `Lexing.LexAtWidth` | include/tree_sitter/parser.h:207-213 | a lex leaves the token end alone (at NUL) or moves it to the new cursor; with ordered positions below 2^64 the token is exactly as wide as the text from the previous token's end to the new token end |
| `Lexing.LexRun` | include/tree_sitter/parser.h:346-348 | `n` successive lexes give `n` tokens; the cursor never moves back and the token end stays behind it |
| `Lexing.LexRunStable` | include/tree_sitter/parser.h:346-348 | token `j` of a run is token `j` of every longer run, so later lexes do not change earlier tokens |
| `Lexing.LexRunCovers` | include/tree_sitter/parser.h:207-219 | while the cursor stays below 2^64, the tokens of a run together are exactly as wide as the text from the first token's predecessor's end to the last token's end |
| `Lexing.EndsIncrease` | include/tree_sitter/parser.h:207-213 | over a run of tokens the remembered token end only grows and never passes the next token's start |
| `Lexing.TokensCover` | include/tree_sitter/parser.h:207-219 | successive tokens together span exactly the text from the first token's predecessor's end to the last token's end |
| `Lexing.TokensTile` | include/tree_sitter/parser.h:207-219 | the text of every token starts exactly where the lexer started it, so the tokens leave neither gap nor overlap |
| `Lexing.BuiltTokensPrefix` | include/tree_sitter/parser.h:207-213 | the tokens built for a prefix of a run are a prefix of those built for the run |
| `Syntax.SumSpanAppend` | include/tree_sitter/parser.h:207-213 | the width of two runs of siblings is the sum of their widths |
| `Syntax.Children` | include/tree_sitter/parser.h:278 | every child is smaller than its node, so breaking a tree down terminates |
| `ParseTable.ValidSymbolsExact` | include/tree_sitter/parser.h:325-339 | a symbol is valid in a state if and only if it lies in `[0, symbolCount)` and its action is not `error`; the builtin symbols before index 0 are never valid |
| `ParseTable.ValidSymbolsIncreasing` | include/tree_sitter/parser.h:335-337 | the valid symbols come out in strictly increasing order |
| `ParseTable.ValidSymbolsPrefix` | include/tree_sitter/parser.h:335-337 | scanning further only appends to the symbols already found |
| `ParseStack.Push` | include/tree_sitter/parser.h:154 | a push adds one entry on top and keeps every entry below |
| `ParseStack.Shrink` | include/tree_sitter/parser.h:153 | shrinking keeps the bottom `min(newSize, size)` entries |
| `ParseStack.SetBottomNode` | include/tree_sitter/parser.h:350 | replacing the bottom node changes that node only, keeping the bottom state and every other entry |
| `ParseStack.MakeNode` | include/tree_sitter/parser.h:152 | a reduced node has the given symbol and children and covers exactly its children's text |
| `ParseStack.Reduce` | include/tree_sitter/parser.h:152 | a reduce pops `min(childCount, size)` entries and keeps the rest as a prefix; the node has the given symbol and the popped nodes as children after collapsing, and exactly the popped nodes when no collapse flag is set |
| `ParseStack.CollapsePreservesSpan` | include/tree_sitter/parser.h:152 | collapsing children into their parent's children does not change the text covered |
| `ParseStack.ReduceCoversPopped` | include/tree_sitter/parser.h:152 | a reduce pops exactly the requested entries, and its node covers exactly the popped entries' text |
| `StackBreakdown.PushState` | include/tree_sitter/parser.h:288 | a reused node is pushed in the target state when the top state's action on it is a shift, and in the reduce's result symbol, read from the same union word, when it is a reduce |
| `StackBreakdown.PushChildren` | include/tree_sitter/parser.h:284-293 | a pass pushes children from the first on; it stops exactly when a child reaches the edit, or else after the last child |
| `StackBreakdown.PushChildrenPrefix` | include/tree_sitter/parser.h:284-293 | a pass only pushes onto the stack it starts from, and the last child it pushes is on top |
| `StackBreakdown.PushChildrenChain` | include/tree_sitter/parser.h:288-289 | every child a pass pushes is pushed in the state the table gives its symbol over the entries below |
| `StackBreakdown.PushChildrenTiles` | include/tree_sitter/parser.h:284-293 | the pushed children continue the tiling of the text, and every child pushed except the last ends before the edit |
| `StackBreakdown.EndOfCoversNodes` | include/tree_sitter/parser.h:284-293 | where a run of entries ends is the width of their nodes |
| `StackBreakdown.EndsAfterPush` | include/tree_sitter/parser.h:289 | pushing an entry does not change where the entries below it end |
| `StackBreakdown.LoopAsWritten` | include/tree_sitter/parser.h:281-296 | the outer loop as the code writes it either reads the unassigned `child` or ends with no fewer entries than lie under the node it starts from |
| `StackBreakdown.BreakdownAsWritten` | include/tree_sitter/parser.h:272-299 | the breakdown as written leaves an empty stack alone and resumes at 0; when it ends, no fewer entries remain than lay under the old top |
| `StackBreakdown.Loop` | include/tree_sitter/parser.h:281-296 | the corrected outer loop always ends, with no fewer entries than lie under the node it starts from (`LoopPrefix` says they are those entries) |
| `StackBreakdown.Breakdown` | include/tree_sitter/parser.h:272-299 | the corrected breakdown leaves an empty stack alone and resumes at 0, and otherwise leaves no fewer entries than lay under the old top |
| `StackBreakdown.LoopPrefix` | include/tree_sitter/parser.h:282-297 | the breakdown keeps every entry under the node it breaks down |
| `StackBreakdown.LoopChain` | include/tree_sitter/parser.h:282-297 | every entry the breakdown adds was pushed in the state the table gives its node |
| `StackBreakdown.LoopTiles` | include/tree_sitter/parser.h:282-299 | the breakdown leaves only entries that end at or before the edit, and returns exactly where they end |
| `StackBreakdown.BreakdownSound` | include/tree_sitter/parser.h:272-299 | an empty stack is left alone and 0 returned; otherwise the entries below the old top are kept, the new entries are chained and each ends at or before the edit, and lexing resumes exactly where they end, at or before the edit |
| `StackBreakdown.BreakdownReusesFirstChild` | include/tree_sitter/parser.h:284-291 | when the old top node has more than one child and the first ends before the edit, that child is reused whole: it stays on the stack just above the entries under the old top, in the state the table gives it |
| `StackBreakdown.BreakdownKeepsChain` | include/tree_sitter/parser.h:272-299 | breaking down a chained stack leaves a chained stack |
| `StackBreakdown.ChainPrefix` | include/tree_sitter/parser.h:153 | truncating a chained stack leaves it chained |
| `StackBreakdown.ChainPush` | include/tree_sitter/parser.h:154 | pushing an entry in the state the table gives its node keeps a stack chained |
| `StackBreakdown.AppendedTreeOvershoots` | include/tree_sitter/parser.h:282-297 | see Findings: as written, too few entries are kept and lexing resumes past the old text |
| `StackBreakdown.ChildlessPastEdit` | include/tree_sitter/parser.h:282-297 | see Findings: as written, a childless node reaching past the edit leads to reading `child` unassigned |
| `StackBreakdown.StraddledTokenReadsUnassignedChild` | include/tree_sitter/parser.h:282-297 | see Findings: as written, an edit inside a token that is the only child of the top node reads `child` unassigned, whatever the table; the corrected breakdown empties the stack and resumes at 0 |
| `LRParser.Pending` | include/tree_sitter/parser.h:261-262 | the waiting trees are the lookahead, then the second slot: each filled slot contributes exactly one tree, in that order, and there are at most two |
| `LRParser.RecoveryDepth` | include/tree_sitter/parser.h:355-366 | the entry chosen lies on the stack and its state shifts the error symbol into a state with an action on the token |
| `LRParser.RecoveryDepthTopmost` | include/tree_sitter/parser.h:358-369 | the scan runs from the top down: no entry above the chosen one recovers, and none is chosen only when no entry recovers at all |
| `LRParser.Resynchronized` | include/tree_sitter/parser.h:362-363 | recovering at entry `d` keeps entries `0 .. d` and pushes the error node in the state the error shift leads to |
| `LRParser.ResynchronizedKeepsChain` | include/tree_sitter/parser.h:362-363 | resynchronizing keeps a chained stack chained |
| `LRParser.ErrorAt` | include/tree_sitter/parser.h:342-344 | the node recovery starts from is an error node with the error symbol and covers no text |
| `LRParser.OnRecovery` | include/tree_sitter/parser.h:392-393 | only a resumed recovery lets the driver go on; an abandoned one fails the parse and one that runs out of fuel ends it out of fuel |
| `LRParser.Fill` | include/tree_sitter/parser.h:378-380 | a step always has a lookahead to act on: a waiting one is used as it is, and lexing a new one changes neither the stack nor the second slot |
| `LRParser.SkipOneRound` | include/tree_sitter/parser.h:346-369 | a round whose token is skipped hands recovery on to the next round with that token as lookahead, after it, and one round of fuel fewer |
| `LRParser.RecoverSkipsRun` | include/tree_sitter/parser.h:346-369 | after `n` skipped tokens with fuel for them, recovery goes on exactly as if it started after the last of them with `n` rounds fewer |
| `LRParser.SkippedAt` | include/tree_sitter/parser.h:346-369 | recovery that runs out still skipping has skipped every token it lexed: the one at index `j` is not the end of input and no state recovers on it |
| `LRParser.RecoverSkipping` | include/tree_sitter/parser.h:346-370 | recovery runs out still skipping if and only if each of the `fuel` tokens lexed in the error lex state is skipped, and it then stands after the last of them with the stack untouched |
| `LRParser.RecoverOutcome` | include/tree_sitter/parser.h:346-370 | skipping leaves the stack alone; abandoning happens at the end of input and makes the error node the root; resuming happens on another token and resynchronizes at its recovery depth; the second slot is never touched |
| `LRParser.RecoverKeepsChain` | include/tree_sitter/parser.h:358-367 | recovery keeps a chained stack chained unless it is abandoned |
| `LRParser.ActOnKeepsChain` | include/tree_sitter/parser.h:381-395 | a step of the driver keeps a chained stack chained unless it fails the parse |
| `LRParser.ActOnEnds` | include/tree_sitter/parser.h:381-395 | a step accepts exactly when the table says accept, and then changes nothing; a step that fails leaves the end of input as lookahead and an error node as root |
| `LRParser.DriveKeepsChain` | include/tree_sitter/parser.h:377-396 | the driver loop keeps a chained stack chained unless the parse fails |
| `LRParser.DriveEnds` | include/tree_sitter/parser.h:377-396 | an accepted parse stops with an accept action on the lookahead in the top state; a failed one stops at the end of input with an error node as root |
| `LRParser.Parser.constructor` | include/tree_sitter/parser.h:265-270 | a made parser has an empty stack and a lexer with no input |
| `LRParser.Parser.Shift` | include/tree_sitter/parser.h:314-318 | the lookahead is pushed in the given state; the second slot moves up and is cleared; the stack's nodes followed by the waiting trees are unchanged; a push in the table's state keeps the stack chained |
| `LRParser.Parser.Reduce` | include/tree_sitter/parser.h:320-323 | the reduced node becomes the lookahead and the old lookahead moves to the second slot; when that slot was empty, the trees waiting before still wait, behind the new node; the stack stays chained |
| `LRParser.Parser.ExpectedSymbols` | include/tree_sitter/parser.h:325-339 | the result is exactly the valid symbols of the top state, and the count equals the number of entries filled |
| `LRParser.Parser.FindRecovery` | include/tree_sitter/parser.h:355-366 | the downward scan finds exactly `RecoveryDepth` |
| `LRParser.Parser.ResumeOnLookahead` | include/tree_sitter/parser.h:349-366 | abandons exactly at the end symbol, making the error node the root; otherwise resumes with the stack resynchronized at the recovery depth when there is one, and skips with the stack unchanged when there is none |
| `LRParser.Parser.NextToken` | include/tree_sitter/parser.h:380 | the token and the new lexer positions are exactly those of one lex in the given lex state; the text and its origin stay |
| `LRParser.Parser.SkipOrResume` | include/tree_sitter/parser.h:346-369 | one round of the recovery loop is exactly `RecoverStep`: lex in the error lex state, then abandon, resume or skip |
| `LRParser.Parser.RecoverRound` | include/tree_sitter/parser.h:346-369 | one round either reaches the outcome recovery is heading for or leaves a state from which one round fewer reaches it |
| `LRParser.Parser.RecoverRounds` | include/tree_sitter/parser.h:346-370 | the loop runs rounds while tokens are skipped, at most `fuel`, and ends exactly as `RecoverFrom` does |
| `LRParser.Parser.HandleError` | include/tree_sitter/parser.h:341-371 | the error node records the lookahead character and the top state's expected symbols, and recovery ends exactly as `RecoverFrom` does; with `RecoverSkipping` and `RecoverOutcome` that is: skipping only after `fuel` skipped tokens, abandoned only at the end of input, resumed only at a recovery depth |
| `LRParser.Parser.PushChildrenPass` | include/tree_sitter/parser.h:284-293 | the inner loop computes exactly the pass `PushChildren` specifies |
| `LRParser.Parser.BreakdownStack` | include/tree_sitter/parser.h:272-299 | the nested loop computes exactly the corrected `Breakdown`, leaving both lookahead slots alone |
| `LRParser.Parser.Initialize` | include/tree_sitter/parser.h:300-311 | both slots are cleared; without an edit the stack is emptied first and lexing resumes at 0; the lexer is remade over the input sought to the breakdown's position and has read its first chunk |
| `LRParser.Parser.FillLookahead` | include/tree_sitter/parser.h:378-380 | the start of a step is exactly `Fill`: lexing happens only when no lookahead waits |
| `LRParser.Parser.Act` | include/tree_sitter/parser.h:381-395 | the rest of a step is exactly `ActOn`: the table's action for the top state and the lookahead, with recovery on an error |
| `LRParser.Parser.DriveStep` | include/tree_sitter/parser.h:377-396 | one step either ends the parse with the outcome the driver is heading for or leaves a state from which one step fewer reaches it |
| `LRParser.Parser.DriveLoop` | include/tree_sitter/parser.h:377-396 | the `while (!done)` loop runs at most `fuel` steps and ends exactly as `Drive` does |
| `LRParser.Parser.Parse` | include/tree_sitter/parser.h:373-398 | the run is exactly `Drive` from the broken-down stack; the result is the bottom node of the stack; an accepted parse has an accept action on its lookahead; a failed one ends at the end symbol with an error node as root; a parse of fresh input, or of a chained old stack, keeps the stack chained unless it fails |

A stack is *chained* (`StackBreakdown.Chain`) when every entry is in the state that the table's
action gives its node over the entries below it. This is the invariant that shift, reduce,
breakdown and error recovery each keep.

## Left out

- The debug macros `DEBUG_LEX`/`DEBUG_PARSE` and the `fprintf` calls they expand to are output only.
- The table-building macros (`PARSE_TABLE`, `START_TABLE`, `STATE`, `SET_LEX_STATE`, `SHIFT`,
  `REDUCE`, `ACCEPT_INPUT`, `EXPORT_PARSER`) and their one-time static initialisation are left
  out. They are code-generator glue; the table is the immutable `Language` value instead.
- The generated lex function's state machine is grammar-specific and is not modelled. `Lexer.Lex`
  keeps the frame the lexer macros give it: `START_LEXER`, then some `ADVANCE` steps, then
  `ACCEPT_TOKEN` or `LEX_ERROR`. How far it advances and which symbol it accepts come from an
  uninterpreted `Scanner`.
- `LEX_PANIC`, which returns a null token, is not modelled; every lex returns a token.
- `ts_tree_*` and `ts_stack_*` are only declared in the header. Their defining files are not part
  of this model, so they are given simple functional definitions here.
  - `ts_stack_reduce` pops `min(childCount, size)` entries.
  - A negative child count cannot occur, because `childCount` is a `nat`.
  - A collapse flag replaces a popped node by its children.
  - An internal node's offset is that of its first child.
- `Syntax.Children` treats an internal node with no children like a token: no children.
- Reference counting (`ts_tree_retain`/`ts_tree_release`) and `malloc`/`free` are not modelled.
- `read_fn` and `seek_fn` are modelled by the `Input` value. It reads fixed-width chunks of one
  text, and seeking sets its cursor.
- C's `isspace` is locale-dependent, so it is taken as a given predicate `isSpace`, which must not
  hold for NUL.
- `LRParser.Parser.Parse`: the C loop need not terminate, since that depends on the table. `fuel`
  bounds the driver's steps and the tokens each recovery skips. A driver that runs out of steps
  ends with `ParseOutOfFuel`, and so does a recovery that runs out while still skipping, with the
  stack unchanged. Nothing is claimed about termination.
- `LRParser.Parser.constructor`: `malloc` leaves both lookahead slots uninitialised, and
  `initialize` clears them before use. The model starts them empty, and it gives the lexer an
  empty input until `Initialize` attaches the real one.
- `LRParser.Parser.Reduce`: when the second slot is already full, its token is overwritten and
  lost. The contract states the waiting order only for the case where that slot was empty.
- `ParseStack.SetBottomNode`: the C code writes `entries[0]` even on an empty stack. The model
  then makes it a one-entry stack in state 0 instead of writing past the end.
- `LRParser.Parser.Parse`: the accept action's result is not checked to be a single tree covering
  the input, since that depends on the grammar's table.
- `Lexing.Lexer.Lex`: "the token's text is the scanned characters" is stated only when its stream
  positions are below 2^64, where `size_t` does not wrap.

Where the code and its description differ, the model follows the code.
- The end symbol sits at index -2 of a row, so it is never among the expected symbols.
- The error node records the lookahead character current when `handle_error` starts: the one under
  the cursor after the offending token.

## Findings

| source | as written | input that shows it | evidently intended | confidence | as-written member | corrected member |
|---|---|---|---|---|---|---|
| include/tree_sitter/parser.h:292 | after a pass that pushes every child without reaching the edit, `left_position` is left at the end of the last child, and that child's own children are then placed from that end | a root `r` over leaf `a` at 0..1 and node `bc` at 1..3 (leaves `b`, `c`), edited at 4: the stack becomes `[a, b]` and lexing resumes at 4, so `c` is dropped and the text from 3 to 4 is never lexed | `left_position` stays at the start of the node broken down next, giving stack `[a, b, c]` and resumption at 3 | high, not executed | `StackBreakdown.AppendedTreeOvershoots` | `StackBreakdown.BreakdownSound` |
| include/tree_sitter/parser.h:282-296 | a childless node that reaches past the edit enters the loop; the pass pushes nothing, and `node = child` reads a variable never assigned | a root over a single three-character token, edited at 1 | pop the node and resume lexing where it starts, giving an empty stack and position 0 | high, not executed | `StackBreakdown.StraddledTokenReadsUnassignedChild` | `StackBreakdown.ChildlessPastEdit` |

`StackBreakdown.LoopAsWritten` is the loop as the source writes it. `StackBreakdown.Loop`, which
`LRParser.Parser.BreakdownStack` implements, is the corrected loop.
