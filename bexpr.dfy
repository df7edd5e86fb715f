/**
 * `BooleanExpression`: the constructor's type check, the `_tokenize` loop
 * and the `_to_postfix` loop, run on the object's fields and proved equal to
 * the functions of modules `Tokenizer` and `Postfix`; and what the whole
 * front end guarantees about a parsed expression.
 */
module BExpr {
  import opened Wrappers
  import opened PyValues
  import opened Seqs
  import Grammar
  import opened Operators
  import opened Tokenizer
  import Postfix

  // ---------------------------------------------------------------------------
  // The front end as a function

  /** What a built `BooleanExpression` holds. */
  datatype Parsed = Parsed(symbols: seq<string>, symbolSet: set<string>, tokens: seq<string>, postfix: seq<string>)

  /** The error `__init__` raises for a `raw_expr` that is not a `str`. */
  const NotAString := Error(InvalidArgumentType, "raw_expr must be of type str", None, None)

  /** `operand_set` of `_to_postfix`. */
  function OperandSet(st: State): set<string> {
    st.symbolSet + Grammar.ConstantValues
  }

  /** `__init__` up to the tree: the type check, `_tokenize`, then `_to_postfix`. */
  function Build(raw: PyValue, isIdent: string -> bool): Result<Parsed, Error> {
    if !raw.PyStr? then Err(NotAString)
    else
      match Tokenize(raw.s, isIdent)
      case Err(e) => Err(e)
      case Ok(st) =>
        TokensConvert(raw.s, isIdent);
        var pf := Postfix.ToPostfix(Texts(st.tokens), OperandSet(st));
        Ok(Parsed(st.symbols, st.symbolSet, Texts(st.tokens), pf.value))
  }

  // ---------------------------------------------------------------------------
  // What the tokenizer hands to the postfix pass

  /** Every token as text is a parenthesis, an operand of `operands` or a key of the operator table. */
  predicate Sorted(ts: seq<string>, operands: set<string>) {
    forall i :: 0 <= i < |ts| ==> ts[i] == "(" || ts[i] == ")" || ts[i] in operands || ts[i] in OperatorMapping
  }

  /** A classified token moves the open count by the depth change of its text. */
  lemma NextDepth(p: Phase, t: Token)
    requires Classified(t) && Next(p, t).Some?
    ensures Next(p, t).value.open == p.open + Postfix.DepthChange(Text(t))
  {
    NonOperatorStrs();
  }

  /** Tokens the grammar accepts nest their parentheses, and the depth at the end is the open count. */
  lemma {:induction false} AfterNests(ts: seq<Token>)
    requires After(ts).Some?
    requires forall i :: 0 <= i < |ts| ==> Classified(ts[i])
    ensures Postfix.Nested(Texts(ts)) && Postfix.Depth(Texts(ts)) == After(ts).value.open
  {
    if ts == [] {
      assert Texts(ts)[..0] == [];
    } else {
      var q, t := ts[..|ts| - 1], ts[|ts| - 1];
      assert ts == q + [t];
      AfterNests(q);
      assert Classified(t);
      NextDepth(After(q).value, t);
      TextsSnoc(q, t);
      Postfix.NestedSnoc(Texts(q), Text(t));
    }
  }

  lemma ParensAreNotConstants()
    ensures "(" !in Grammar.ConstantValues && ")" !in Grammar.ConstantValues
  {
    assert "("[0] != "0"[0] && "("[0] != "1"[0] && ")"[0] != "0"[0] && ")"[0] != "1"[0];
  }

  /** Parentheses are neither operands (when no symbol is one) nor operator keys. */
  lemma ParensAreNeither(symbolSet: set<string>)
    requires "(" !in symbolSet && ")" !in symbolSet
    ensures var operands := symbolSet + Grammar.ConstantValues;
      "(" !in operands && ")" !in operands && "(" !in OperatorMapping && ")" !in OperatorMapping
  {
    NonOperatorStrs();
    ParensAreNotConstants();
  }

  /**
   * Classified tokens whose operand names are the given symbols or constants
   * are, as text, parentheses, operands or operator keys, and the
   * parentheses are neither of the last two.
   */
  lemma SortedTokens(ts: seq<Token>, symbolSet: set<string>)
    requires forall i :: 0 <= i < |ts| ==> Classified(ts[i])
    requires forall x :: x in symbolSet ==> OperandToken(x) in ts
    requires forall i :: 0 <= i < |ts| && ts[i].OperandToken? ==> ts[i].name in symbolSet + Grammar.ConstantValues
    ensures var operands := symbolSet + Grammar.ConstantValues;
      && "(" !in operands && ")" !in operands && "(" !in OperatorMapping && ")" !in OperatorMapping
      && Sorted(Texts(ts), operands)
  {
    forall x | x in symbolSet
      ensures x != "(" && x != ")"
    {
      var i :| 0 <= i < |ts| && ts[i] == OperandToken(x);
      assert Classified(ts[i]);
    }
    ParensAreNeither(symbolSet);
    forall i | 0 <= i < |ts|
      ensures var x := Texts(ts)[i];
        x == "(" || x == ")" || x in symbolSet + Grammar.ConstantValues || x in OperatorMapping
    {
      SortedToken(ts[i], symbolSet + Grammar.ConstantValues);
    }
  }

  lemma SortedToken(t: Token, operands: set<string>)
    requires Classified(t) && (t.OperandToken? ==> t.name in operands)
    ensures var x := Text(t); x == "(" || x == ")" || x in operands || x in OperatorMapping
  {
  }

  /**
   * What `_tokenize` produces is what `_to_postfix` expects: parentheses are
   * neither operands nor operators, every other token is one of the two, and
   * the parentheses nest and balance.
   */
  lemma TokensFit(s: string, isIdent: string -> bool)
    requires Tokenize(s, isIdent).Ok?
    ensures var st := Tokenize(s, isIdent).value;
      var ts, operands := Texts(st.tokens), OperandSet(st);
      && "(" !in operands && ")" !in operands && "(" !in OperatorMapping && ")" !in OperatorMapping
      && Sorted(ts, operands) && Postfix.Nested(ts) && Postfix.Depth(ts) == 0
  {
    TokenizeIsGood(s, isIdent);
    TokenizeSymbols(s, isIdent);
    var st := Tokenize(s, isIdent).value;
    AfterNests(st.tokens);
    forall i | 0 <= i < |st.tokens| && st.tokens[i].OperandToken?
      ensures st.tokens[i].name in OperandSet(st)
    {
      assert OperandToken(st.tokens[i].name) in st.tokens;
    }
    SortedTokens(st.tokens, st.symbolSet);
  }

  /** The postfix pass never fails on what the tokenizer produced. */
  lemma TokensConvert(s: string, isIdent: string -> bool)
    requires Tokenize(s, isIdent).Ok?
    ensures var st := Tokenize(s, isIdent).value;
      Postfix.ToPostfix(Texts(st.tokens), OperandSet(st)).Ok?
  {
    TokensFit(s, isIdent);
    var st := Tokenize(s, isIdent).value;
    Postfix.ConvertKeeps(Texts(st.tokens), OperandSet(st), OperatorMapping);
  }

  /** The tokens other than parentheses. */
  function Bare(ts: seq<string>): seq<string> {
    if ts == [] then []
    else
      var t := ts[|ts| - 1];
      Bare(ts[..|ts| - 1]) + (if t != "(" && t != ")" then [t] else [])
  }

  /** When every token is a parenthesis, an operand or an operator, the pass keeps exactly the non-parentheses. */
  lemma {:induction false} KeptIsBare(ts: seq<string>, operands: set<string>)
    requires "(" !in operands && ")" !in operands && "(" !in OperatorMapping && ")" !in OperatorMapping
    requires Sorted(ts, operands)
    ensures Postfix.Kept(ts, operands, OperatorMapping) == Bare(ts)
  {
    if ts != [] {
      KeptIsBare(ts[..|ts| - 1], operands);
    }
  }

  // ---------------------------------------------------------------------------
  // What the front end guarantees

  /** A `raw_expr` that is not a string is rejected before anything is tokenized. */
  lemma RejectsNonString(raw: PyValue, isIdent: string -> bool)
    ensures Build(raw, isIdent).Err? && Build(raw, isIdent).error.kind == InvalidArgumentType <==> !raw.PyStr?
  {
    if raw.PyStr? && Build(raw, isIdent).Err? {
      TokenizeErrors(raw.s, isIdent);
    }
  }

  /** A string fails to build exactly when it fails to tokenize, with the same error. */
  lemma BuildFailsOnlyInTokenize(s: string, isIdent: string -> bool)
    ensures Build(PyStr(s), isIdent).Err? <==> Tokenize(s, isIdent).Err?
    ensures Tokenize(s, isIdent).Err? ==> Build(PyStr(s), isIdent).error == Tokenize(s, isIdent).error
  {
  }

  /**
   * A built expression: `symbols` lists each non-constant operand once, in
   * order of first appearance, and `symbolSet` is its set; the postfix list is
   * a reordering of the tokens other than parentheses in which the operands
   * keep their order.
   */
  lemma BuildGuarantees(s: string, isIdent: string -> bool)
    requires Build(PyStr(s), isIdent).Ok?
    ensures var p := Build(PyStr(s), isIdent).value;
      var operands := p.symbolSet + Grammar.ConstantValues;
      && (forall x :: x in p.symbols <==> OperandToken(x) in Tokenize(s, isIdent).value.tokens && x !in Grammar.ConstantValues)
      && Distinct(p.symbols)
      && p.symbolSet == (set x | x in p.symbols)
      && multiset(p.postfix) == multiset(Bare(p.tokens))
      && Postfix.OperandsIn(p.postfix, operands) == Postfix.OperandsIn(p.tokens, operands)
  {
    TokenizeIsGood(s, isIdent);
    TokenizeSymbols(s, isIdent);
    TokensFit(s, isIdent);
    var st := Tokenize(s, isIdent).value;
    Postfix.ConvertKeeps(Texts(st.tokens), OperandSet(st), OperatorMapping);
    KeptIsBare(Texts(st.tokens), OperandSet(st));
  }

  // ---------------------------------------------------------------------------
  // The scan, one iteration at a time

  /** One successful iteration does not change what the rest of the loop computes. */
  lemma RunAfterStep(s: string, isIdent: string -> bool, st: State, next: State)
    requires st.idx < |s| && ParensCounted(s, st) && Step(s, isIdent, st) == Ok(next)
    ensures ParensCounted(s, next) && Run(s, isIdent, st) == Run(s, isIdent, next)
  {
    StepCountsParens(s, isIdent, st);
  }

  /** A failing iteration ends the loop with its error. */
  lemma RunStopsAtStep(s: string, isIdent: string -> bool, st: State, e: Error)
    requires st.idx < |s| && ParensCounted(s, st) && Step(s, isIdent, st) == Err(e)
    ensures Run(s, isIdent, st) == Err(e)
  {
  }

  /** A failing iteration is the result of the whole scan. */
  lemma TokenizeStopsAt(s: string, isIdent: string -> bool, st: State, e: Error)
    requires st.idx < |s| && ParensCounted(s, st) && Step(s, isIdent, st) == Err(e)
    requires s[..0] == [] && Run(s, isIdent, st) == Run(s, isIdent, Start)
    ensures Tokenizer.Tokenize(s, isIdent) == Err(e)
  {
    RunStopsAtStep(s, isIdent, st, e);
  }

  /** Once the loop has consumed `s`, the result is that of the checks after it. */
  lemma TokenizeFinishes(s: string, isIdent: string -> bool, st: State)
    requires st.idx == |s| && ParensCounted(s, st)
    requires s[..0] == [] && Run(s, isIdent, st) == Run(s, isIdent, Start)
    ensures st.open <= |LeftParenPositions(s)|
    ensures Tokenizer.Tokenize(s, isIdent) == Finish(s, st)
  {
    assert s[..|s|] == s;
  }

  // ---------------------------------------------------------------------------
  // The object

  class BooleanExpression {
    var rawExpr: string
    var symbols: seq<string>
    var symbolSet: set<string>
    var tokens: seq<string>
    var postfixTokens: seq<string>

    /** The fields `__init__` sets before tokenizing. */
    constructor Init(raw: string)
      ensures rawExpr == raw && symbols == [] && symbolSet == {} && tokens == [] && postfixTokens == []
    {
      rawExpr := raw;
      symbols := [];
      symbolSet := {};
      tokens := [];
      postfixTokens := [];
    }

    /**
     * `__init__(raw_expr)` without the tree: the type check, then the two
     * passes. The built object holds what `Build` computes.
     */
    static method New(raw: PyValue, isIdent: string -> bool) returns (r: Result<BooleanExpression, Error>)
      ensures match Build(raw, isIdent)
        case Err(e) => r == Err(e)
        case Ok(p) =>
          && r.Ok? && fresh(r.value) && r.value.rawExpr == raw.s
          && r.value.symbols == p.symbols && r.value.symbolSet == p.symbolSet
          && r.value.tokens == p.tokens && r.value.postfixTokens == p.postfix
    {
      if !raw.PyStr? {
        return Err(NotAString);
      }
      var b := new BooleanExpression.Init(raw.s);
      var e := b.Tokenize(isIdent);
      if e.Some? {
        return Err(e.value);
      }
      TokensConvert(raw.s, isIdent);
      var pe := b.ToPostfix();
      return Ok(b);
    }

    /**
     * `matching_operators[0]`, if there is one: the first operator string of
     * `operator_search_list` occurring at `idx`, with what it makes of the text.
     */
    static method MatchingOperator(s: string, idx: nat) returns (matching: Option<string>)
      requires idx < |s|
      ensures matching.Some? ==> matching.value != "" && idx + |matching.value| <= |s|
      ensures WordAt(s, idx) == WordOf(s, idx, matching)
    {
      matching := FirstMatch(s, idx, SearchList);
      if matching.Some? {
        FirstMatchShape(s, idx);
      }
    }

    /**
     * The `else` branch of the loop at `idx`: an operator string taken as an
     * operator, or else an operand. It appends the token it reads.
     */
    method ReadWord(s: string, isIdent: string -> bool, idx: nat, expectOperand: bool, matching: Option<string>, ghost st: State)
      returns (err: Option<Error>, next: nat, nextExpectOperand: bool, ghost token: Token)
      requires s == rawExpr
      requires st.idx == idx && st.expectOperand == expectOperand && st.symbols == symbols && st.symbolSet == symbolSet
      requires idx < |s| && (matching.Some? ==> matching.value != "" && idx + |matching.value| <= |s|)
      requires ValidWord(s, idx, WordOf(s, idx, matching))
      modifies this
      ensures rawExpr == old(rawExpr) && postfixTokens == old(postfixTokens)
      ensures var r := WordStep(s, isIdent, st, WordOf(s, idx, matching));
        && (err.Some? ==> r.Err? && r.error == err.value)
        && (err.None? ==>
              && r.Ok? && r.value == State(next, nextExpectOperand, st.open, st.tokens + [token], symbols, symbolSet)
              && tokens == old(tokens) + [Text(token)])
    {
      token := LeftParen;
      if matching.Some? && idx + |matching.value| >= |s| {
        // trailing operator
        var m := matching.value;
        return Some(At(ExpressionOrder, Quoted("Unexpected operator ", m), s, idx)), idx, expectOperand, token;
      }
      if matching.Some? && (IsDelimiter(s[idx + |matching.value|]) || IsSymbolic(matching.value)) {
        var m := matching.value;
        WordStepOnOperator(s, isIdent, st, m);
        var unary := IsNotKey(m);
        err, nextExpectOperand := ReadOperator(idx, expectOperand, m, unary, st);
        return err, idx + |m|, nextExpectOperand, OperatorToken(m);
      }
      err, next := ReadOperand(isIdent, idx, expectOperand, st);
      token := OperandToken(OperandAt(s, idx));
      nextExpectOperand := false;
    }

    /** The operator branch, on the operator string `m` matched at `idx`; `unary` is `OPERATOR_MAPPING[m] == TT_NOT_OP`. */
    method ReadOperator(idx: nat, expectOperand: bool, m: string, unary: bool, ghost st: State)
      returns (err: Option<Error>, nextExpectOperand: bool)
      requires st.idx == idx && st.expectOperand == expectOperand
      requires m != "" && idx + |m| < |rawExpr|
      modifies this
      ensures rawExpr == old(rawExpr) && postfixTokens == old(postfixTokens)
      ensures symbols == old(symbols) && symbolSet == old(symbolSet)
      ensures err.Some? ==> OperatorStep(rawExpr, st, m, unary) == Err(err.value) && tokens == old(tokens)
      ensures err.None? ==>
        && OperatorStep(rawExpr, st, m, unary) ==
           Ok(State(idx + |m|, nextExpectOperand, st.open, st.tokens + [OperatorToken(m)], st.symbols, st.symbolSet))
        && tokens == old(tokens) + [m]
    {
      var s := rawExpr;
      nextExpectOperand := expectOperand;
      if unary {
        if !expectOperand {
          return Some(At(ExpressionOrder, Quoted("Unexpected unary operator ", m), s, idx)), nextExpectOperand;
        }
      } else {
        if expectOperand {
          return Some(At(ExpressionOrder, Quoted("Unexpected binary operator ", m), s, idx)), nextExpectOperand;
        }
        nextExpectOperand := true;
      }
      tokens := tokens + [m];
      err := None;
    }

    /** The operand branch: the text up to the next delimiter, checked and appended. */
    method ReadOperand(isIdent: string -> bool, idx: nat, expectOperand: bool, ghost st: State)
      returns (err: Option<Error>, next: nat)
      requires st.idx == idx && st.expectOperand == expectOperand && st.symbols == symbols && st.symbolSet == symbolSet
      requires idx < |rawExpr|
      modifies this
      ensures rawExpr == old(rawExpr) && postfixTokens == old(postfixTokens)
      ensures err.Some? ==> OperandStep(rawExpr, isIdent, st, OperandAt(rawExpr, idx)) == Err(err.value)
      ensures err.None? ==>
        && OperandStep(rawExpr, isIdent, st, OperandAt(rawExpr, idx)) ==
           Ok(State(next, false, st.open, st.tokens + [OperandToken(OperandAt(rawExpr, idx))], symbols, symbolSet))
        && tokens == old(tokens) + [OperandAt(rawExpr, idx)]
    {
      var s := rawExpr;
      if !expectOperand {
        return Some(At(ExpressionOrder, "Unexpected operand", s, idx)), idx;
      }
      var operandEnd := idx + 1;
      while operandEnd < |s| && !IsDelimiter(s[operandEnd])
        invariant idx + 1 <= operandEnd <= |s|
        invariant OperandEnd(s, operandEnd) == OperandEnd(s, idx + 1)
        decreases |s| - operandEnd
      {
        operandEnd := operandEnd + 1;
      }
      var operand := s[idx..operandEnd];
      if operand !in Grammar.ConstantValues && !isIdent(operand) {
        return Some(At(InvalidIdentifier, Quoted("Invalid operand name ", operand), s, idx)), idx;
      }
      tokens := tokens + [operand];
      if operand !in symbolSet + Grammar.ConstantValues {
        symbols := symbols + [operand];
        symbolSet := symbolSet + {operand};
      }
      return None, operandEnd;
    }

    /** The parenthesis branches of `_tokenize`'s loop body. */
    method ScanParen(isIdent: string -> bool, idx: nat, expectOperand: bool, openParenCount: nat, ghost st: State)
      returns (err: Option<Error>, nextOpen: nat, ghost nextToks: seq<Token>)
      requires st == State(idx, expectOperand, openParenCount, st.tokens, symbols, symbolSet)
      requires idx < |rawExpr| && (rawExpr[idx] == '(' || rawExpr[idx] == ')') && tokens == Texts(st.tokens)
      modifies this
      ensures rawExpr == old(rawExpr) && postfixTokens == old(postfixTokens)
      ensures symbols == old(symbols) && symbolSet == old(symbolSet)
      ensures err.Some? ==> ParenStep(rawExpr, st) == Err(err.value)
      ensures err.None? ==>
        && ParenStep(rawExpr, st) == Ok(State(idx + 1, expectOperand, nextOpen, nextToks, symbols, symbolSet))
        && tokens == Texts(nextToks)
    {
      var s := rawExpr;
      nextOpen, nextToks := openParenCount, st.tokens;
      if s[idx] == '(' {
        if !expectOperand {
          return Some(At(BadParenPosition, "Unexpected parenthesis", s, idx)), nextOpen, nextToks;
        }
        TextsSnoc(st.tokens, LeftParen);
        tokens := tokens + ["("];
        return None, openParenCount + 1, st.tokens + [LeftParen];
      }
      if expectOperand {
        return Some(At(BadParenPosition, "Unexpected parenthesis", s, idx)), nextOpen, nextToks;
      } else if openParenCount == 0 {
        return Some(At(UnbalancedParen, "Unbalanced parenthesis", s, idx)), nextOpen, nextToks;
      }
      TextsSnoc(st.tokens, RightParen);
      tokens := tokens + [")"];
      return None, openParenCount - 1, st.tokens + [RightParen];
    }

    /** One pass of `_tokenize`'s loop body: the character at `idx` (and the word it starts). */
    method ScanChar(isIdent: string -> bool, idx: nat, expectOperand: bool, openParenCount: nat, ghost st: State)
      returns (err: Option<Error>, next: nat, nextExpect: bool, nextOpen: nat, ghost nextToks: seq<Token>)
      requires st == State(idx, expectOperand, openParenCount, st.tokens, symbols, symbolSet)
      requires idx < |rawExpr| && tokens == Texts(st.tokens)
      modifies this
      ensures rawExpr == old(rawExpr) && postfixTokens == old(postfixTokens)
      ensures err.Some? ==> Step(rawExpr, isIdent, st) == Err(err.value)
      ensures err.None? ==>
        && Step(rawExpr, isIdent, st) == Ok(State(next, nextExpect, nextOpen, nextToks, symbols, symbolSet))
        && tokens == Texts(nextToks)
    {
      var s := rawExpr;
      var c := s[idx];
      if IsSpace(c) {
        StepBlank(s, isIdent, st);
        return None, idx + 1, expectOperand, openParenCount, st.tokens;
      } else if c == '(' || c == ')' {
        var e, o, ts := ScanParen(isIdent, idx, expectOperand, openParenCount, st);
        return e, idx + 1, expectOperand, o, ts;
      } else {
        StepOnWord(s, isIdent, st);
        var matching := MatchingOperator(s, idx);
        var e, n, ne, token := ReadWord(s, isIdent, idx, expectOperand, matching, st);
        if e.Some? {
          return e, idx, expectOperand, openParenCount, st.tokens;
        }
        TextsSnoc(st.tokens, token);
        return None, n, ne, openParenCount, st.tokens + [token];
      }
    }

    /** `_tokenize`: the scan over `raw_expr`, filling `tokens`, `symbols` and `symbolSet`. */
    method Tokenize(isIdent: string -> bool) returns (err: Option<Error>)
      requires tokens == [] && symbols == [] && symbolSet == {}
      modifies this
      ensures rawExpr == old(rawExpr) && postfixTokens == old(postfixTokens)
      ensures match Tokenizer.Tokenize(rawExpr, isIdent)
        case Ok(st) => err.None? && tokens == Texts(st.tokens) && symbols == st.symbols && symbolSet == st.symbolSet
        case Err(e) => err == Some(e)
    {
      var s := rawExpr;
      var idx: nat := 0;
      var expectOperand := true;  // grammar_state == EXPECTING_OPERAND
      var openParenCount: nat := 0;
      ghost var toks: seq<Token> := [];
      assert s[..0] == [];
      while idx < |s|
        invariant rawExpr == s && postfixTokens == old(postfixTokens) && idx <= |s|
        invariant tokens == Texts(toks)
        invariant ParensCounted(s, State(idx, expectOperand, openParenCount, toks, symbols, symbolSet))
        invariant Run(s, isIdent, State(idx, expectOperand, openParenCount, toks, symbols, symbolSet)) ==
                  Run(s, isIdent, Start)
        decreases |s| - idx
      {
        ghost var st := State(idx, expectOperand, openParenCount, toks, symbols, symbolSet);
        var e, next, nextExpect, nextOpen, nextToks := ScanChar(isIdent, idx, expectOperand, openParenCount, st);
        if e.Some? {
          TokenizeStopsAt(s, isIdent, st, e.value);
          err := e;
          return;
        }
        idx, expectOperand, openParenCount, toks := next, nextExpect, nextOpen, nextToks;
        RunAfterStep(s, isIdent, st, State(idx, expectOperand, openParenCount, toks, symbols, symbolSet));
      }
      TokenizeFinishes(s, isIdent, State(idx, expectOperand, openParenCount, toks, symbols, symbolSet));
      if openParenCount > 0 {
        var leftParenPositions := LeftParenPositions(s);
        err := Some(At(UnbalancedParen, "Unbalanced left parenthesis", s, leftParenPositions[openParenCount - 1]));
        return;
      }
      if tokens == [] {
        err := Some(Error(EmptyExpression, "Empty expression is invalid", None, None));
        return;
      }
      err := None;
    }

    /** The `while` loop of the operator branch: pops what binds tighter than precedence `p` in the operator table `ops`. */
    method PopTighter(stack: seq<string>, p: nat, ops: map<string, BooleanOperator>) returns (rest: seq<string>)
      requires Postfix.StackKeys(stack, ops)
      modifies this
      ensures rawExpr == old(rawExpr) && symbols == old(symbols) && symbolSet == old(symbolSet) && tokens == old(tokens)
      ensures Postfix.Scan(postfixTokens, rest) == Postfix.PopHigher(Postfix.Scan(old(postfixTokens), stack), p, ops)
    {
      rest := stack;
      while rest != [] && rest[|rest| - 1] != "(" && ops[rest[|rest| - 1]].precedence > p
        invariant rawExpr == old(rawExpr) && symbols == old(symbols) && symbolSet == old(symbolSet) && tokens == old(tokens)
        invariant Postfix.StackKeys(rest, ops)
        invariant Postfix.PopHigher(Postfix.Scan(postfixTokens, rest), p, ops) ==
                  Postfix.PopHigher(Postfix.Scan(old(postfixTokens), stack), p, ops)
        decreases |rest|
      {
        var top := rest[|rest| - 1];
        rest := rest[..|rest| - 1];
        postfixTokens := postfixTokens + [top];
      }
    }

    /** The `while` loop of the `)` branch: pops down to the nearest `(`. */
    method PopToOpen(stack: seq<string>) returns (rest: seq<string>)
      modifies this
      ensures rawExpr == old(rawExpr) && symbols == old(symbols) && symbolSet == old(symbolSet) && tokens == old(tokens)
      ensures Postfix.Scan(postfixTokens, rest) == Postfix.PopToParen(Postfix.Scan(old(postfixTokens), stack))
    {
      rest := stack;
      while rest != [] && rest[|rest| - 1] != "("
        invariant rawExpr == old(rawExpr) && symbols == old(symbols) && symbolSet == old(symbolSet) && tokens == old(tokens)
        invariant Postfix.PopToParen(Postfix.Scan(postfixTokens, rest)) ==
                  Postfix.PopToParen(Postfix.Scan(old(postfixTokens), stack))
        decreases |rest|
      {
        var top := rest[|rest| - 1];
        rest := rest[..|rest| - 1];
        postfixTokens := postfixTokens + [top];
      }
    }

    /** One iteration of `_to_postfix`'s token loop. */
    method PushToken(token: string, operandSet: set<string>, stack: seq<string>)
      returns (err: Option<string>, next: seq<string>)
      requires Postfix.StackKeys(stack, OperatorMapping)
      modifies this
      ensures rawExpr == old(rawExpr) && symbols == old(symbols) && symbolSet == old(symbolSet) && tokens == old(tokens)
      ensures match Postfix.StepToken(Postfix.Scan(old(postfixTokens), stack), token, operandSet, OperatorMapping)
        case Ok(r) => err.None? && Postfix.Scan(postfixTokens, next) == r
        case Err(e) => err == Some(e)
    {
      err, next := None, stack;
      if token in operandSet {
        postfixTokens := postfixTokens + [token];
      } else if token == "(" {
        next := stack + [token];
      } else if token in OperatorMapping {
        if stack == [] {
          next := [token];
        } else {
          var rest := PopTighter(stack, OperatorMapping[token].precedence, OperatorMapping);
          next := rest + [token];
        }
      } else if token == ")" {
        var rest := PopToOpen(stack);
        if rest == [] {
          // `stack.pop()` on an empty list
          return Some(Postfix.PopFromEmpty), rest;
        }
        next := rest[..|rest| - 1];
      }
    }

    /** The final loop of `_to_postfix`: what is left on the stack goes out, top first. */
    method EmitStack(stack: seq<string>)
      modifies this
      ensures rawExpr == old(rawExpr) && symbols == old(symbols) && symbolSet == old(symbolSet) && tokens == old(tokens)
      ensures postfixTokens == old(postfixTokens) + Reversed(stack)
    {
      var rev := Reversed(stack);
      for j := 0 to |stack|
        invariant rawExpr == old(rawExpr) && symbols == old(symbols) && symbolSet == old(symbolSet) && tokens == old(tokens)
        invariant postfixTokens == old(postfixTokens) + rev[..j]
      {
        assert rev[..j + 1] == rev[..j] + [stack[|stack| - 1 - j]];
        postfixTokens := postfixTokens + [stack[|stack| - 1 - j]];
      }
      assert rev[..|stack|] == rev;
    }

    /** `_to_postfix`: the shunting-yard pass over `tokens`, filling `postfixTokens`. */
    method ToPostfix() returns (err: Option<string>)
      requires postfixTokens == []
      modifies this
      ensures rawExpr == old(rawExpr) && symbols == old(symbols) && symbolSet == old(symbolSet) && tokens == old(tokens)
      ensures match Postfix.ToPostfix(tokens, symbolSet + Grammar.ConstantValues)
        case Ok(out) => err.None? && postfixTokens == out
        case Err(e) => err == Some(e)
    {
      var operandSet := symbolSet + Grammar.ConstantValues;
      var stack: seq<string> := [];
      for i := 0 to |tokens|
        invariant rawExpr == old(rawExpr) && symbols == old(symbols) && symbolSet == old(symbolSet) && tokens == old(tokens)
        invariant Postfix.Run(tokens[..i], operandSet, OperatorMapping) == Ok(Postfix.Scan(postfixTokens, stack))
      {
        ghost var sc := Postfix.Scan(postfixTokens, stack);
        Postfix.RunSnoc(tokens[..i], tokens[i], operandSet, OperatorMapping, sc);
        assert tokens[..i + 1] == tokens[..i] + [tokens[i]];
        var e;
        e, stack := PushToken(tokens[i], operandSet, stack);
        if e.Some? {
          Postfix.RunFailsFor(tokens, i + 1, operandSet, OperatorMapping);
          return e;
        }
      }
      assert tokens[..|tokens|] == tokens;
      EmitStack(stack);
      err := None;
    }
  }
}
