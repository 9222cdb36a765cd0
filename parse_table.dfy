/**
 * The parse table a grammar compiler generates: for each state and symbol an action, for each
 * state the lex state to scan with, and the grammar's own lex function. The table is read-only.
 */
module ParseTable {
  import opened Syntax

  datatype Action =
    | Error
    | Shift(toState: StateId)
    | Reduce(symbol: Symbol, childCount: nat, collapseFlags: seq<bool>)
    | Accept
  {
    /**
     * The first word of the action's data union, which is what reading `.data.to_state` yields
     * for any kind of action: the target of a shift, the result symbol of a reduce (stored in
     * the same word), and zero for the zero-initialised error and accept entries.
     */
    function DataWord(): (w: int)
      ensures Shift? ==> w == toState
      ensures Reduce? ==> w == symbol
      ensures (Error? || Accept?) ==> w == 0
    {
      match this
      case Shift(s) => s
      case Reduce(sym, _, _) => sym
      case _ => 0
    }
  }

  /**
   * The generated part of a grammar's lexer: from a lex state and the characters ahead of the
   * cursor, how many characters the token takes and which symbol it is (the error symbol for a
   * lex error).
   */
  type Scanner = (LexStateId, seq<char>) -> (nat, Symbol)

  /** Everything the grammar compiler supplies: symbol count, actions, lex states and lex function. */
  datatype Language = Language(
    symbolCount: nat,
    action: (StateId, Symbol) -> Action,
    lexState: StateId -> LexStateId,
    scan: Scanner)

  /**
   * The symbols 0 .. n-1 on which `state` has an action other than `Error`, in increasing order.
   * The builtin symbols, stored before index 0, are never among them.
   */
  function ValidSymbols(lang: Language, state: StateId, n: nat): (r: seq<Symbol>)
    ensures |r| <= n
  {
    if n == 0 then []
    else
      var prefix := ValidSymbols(lang, state, n - 1);
      if lang.action(state, n - 1).Error? then prefix else prefix + [n - 1]
  }

  /** Exactly the symbols below `n` with an action other than `Error` are valid. */
  lemma {:induction false} ValidSymbolsExact(lang: Language, state: StateId, n: nat)
    ensures forall x :: x in ValidSymbols(lang, state, n) <==> 0 <= x < n && !lang.action(state, x).Error?
  {
    if n > 0 {
      ValidSymbolsExact(lang, state, n - 1);
      var prefix := ValidSymbols(lang, state, n - 1);
      assert forall x :: x in prefix + [n - 1] <==> x in prefix || x == n - 1;
    }
  }

  /** Scanning one more symbol only appends to the symbols found so far. */
  lemma {:induction false} ValidSymbolsPrefix(lang: Language, state: StateId, m: nat, n: nat)
    requires m <= n
    ensures |ValidSymbols(lang, state, m)| <= |ValidSymbols(lang, state, n)|
    ensures ValidSymbols(lang, state, n)[..|ValidSymbols(lang, state, m)|] == ValidSymbols(lang, state, m)
    decreases n - m
  {
    if m < n {
      ValidSymbolsPrefix(lang, state, m, n - 1);
      ValidSymbolsStep(lang, state, n);
      var short, prev, full := ValidSymbols(lang, state, m), ValidSymbols(lang, state, n - 1), ValidSymbols(lang, state, n);
      assert forall k | 0 <= k < |short| :: full[k] == prev[k] == short[k];
    }
  }

  predicate Increasing(s: seq<int>) {
    forall i, j :: 0 <= i < j < |s| ==> s[i] < s[j]
  }

  /** The valid symbols come out in strictly increasing order. */
  lemma {:induction false} ValidSymbolsIncreasing(lang: Language, state: StateId, n: nat)
    ensures Increasing(ValidSymbols(lang, state, n))
  {
    if n > 0 {
      ValidSymbolsIncreasing(lang, state, n - 1);
      ValidSymbolsExact(lang, state, n - 1);
      var prefix, r := ValidSymbols(lang, state, n - 1), ValidSymbols(lang, state, n);
      if !lang.action(state, n - 1).Error? {
        assert r == prefix + [n - 1];
        forall i, j | 0 <= i < j < |r| ensures r[i] < r[j] {
          assert r[i] == prefix[i] && prefix[i] in prefix;
          if j < |prefix| {
            assert r[j] == prefix[j];
            assert Increasing(prefix);
          }
        }
      } else {
        assert r == prefix;
      }
    }
  }

  lemma ValidSymbolsStep(lang: Language, state: StateId, n: nat)
    requires n > 0
    ensures ValidSymbols(lang, state, n)[..|ValidSymbols(lang, state, n - 1)|] == ValidSymbols(lang, state, n - 1)
  {
  }

  /**
   * Error recovery can resume in `state` when its action on the error symbol is a shift whose
   * target has an action other than `Error` on `symbol`.
   */
  predicate Recovers(lang: Language, state: StateId, symbol: Symbol) {
    lang.action(state, ErrorSymbol).Shift? &&
    !lang.action(lang.action(state, ErrorSymbol).toState, symbol).Error?
  }
}
