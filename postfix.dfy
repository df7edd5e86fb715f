/**
 * `BooleanExpression._to_postfix`: the shunting-yard pass from the token
 * list to postfix order, as functions over the output list and the operator
 * stack, and what the pass keeps of its input.
 */
module Postfix {
  import opened Wrappers
  import opened Seqs
  import opened Operators

  /** The output list and the operator stack (top last) of `_to_postfix`. */
  datatype Scan = Scan(out: seq<string>, stack: seq<string>)

  /*
   * The pass is stated for any operator table `ops`; `_to_postfix` uses
   * `OPERATOR_MAPPING` (see `ToPostfix`).
   */

  /** Every stack entry is a `(` or a key of `ops`. */
  predicate StackKeys(stack: seq<string>, ops: map<string, BooleanOperator>) {
    forall i :: 0 <= i < |stack| ==> stack[i] == "(" || stack[i] in ops
  }

  /** `ops[k].precedence`. */
  function Precedence(ops: map<string, BooleanOperator>, k: string): nat
    requires k in ops
  {
    ops[k].precedence
  }

  /** `r` is `sc` after popping the stack down to `|r.stack|` entries, each popped entry appended to the output. */
  predicate PoppedTo(sc: Scan, r: Scan) {
    && |r.stack| <= |sc.stack| && r.stack == sc.stack[..|r.stack|]
    && r.out == sc.out + Reversed(sc.stack[|r.stack|..])
  }

  lemma PoppedToSelf(sc: Scan)
    ensures PoppedTo(sc, sc)
  {
    assert sc.stack[..|sc.stack|] == sc.stack;
    assert sc.out + Reversed(sc.stack[|sc.stack|..]) == sc.out;
  }

  /** Popping the top entry and then down to `|r.stack|` entries is popping down to `|r.stack|` entries. */
  lemma PoppedThroughTop(sc: Scan, r: Scan)
    requires sc.stack != []
    requires PoppedTo(Scan(sc.out + [sc.stack[|sc.stack| - 1]], sc.stack[..|sc.stack| - 1]), r)
    ensures PoppedTo(sc, r)
  {
    var n := |sc.stack|;
    var j := |r.stack|;
    assert r.stack == sc.stack[..j];
    var tail := sc.stack[j..];
    assert tail[|tail| - 1] == sc.stack[n - 1];
    assert tail[..|tail| - 1] == sc.stack[..n - 1][j..];
    assert Reversed(tail) == [sc.stack[n - 1]] + Reversed(sc.stack[..n - 1][j..]);
  }

  /** The run of entries tighter than `p` above index `j` extends through a tighter top entry. */
  lemma TighterThroughTop(sc: Scan, j: nat, p: nat, ops: map<string, BooleanOperator>)
    requires StackKeys(sc.stack, ops) && j < |sc.stack|
    requires sc.stack[|sc.stack| - 1] != "(" && Precedence(ops, sc.stack[|sc.stack| - 1]) > p
    requires var below := sc.stack[..|sc.stack| - 1];
      forall i :: j <= i < |below| ==> below[i] != "(" && below[i] in ops && Precedence(ops, below[i]) > p
    ensures forall i :: j <= i < |sc.stack| ==> sc.stack[i] != "(" && sc.stack[i] in ops && Precedence(ops, sc.stack[i]) > p
  {
    var below := sc.stack[..|sc.stack| - 1];
    forall i | j <= i < |sc.stack|
      ensures sc.stack[i] != "(" && sc.stack[i] in ops && Precedence(ops, sc.stack[i]) > p
    {
      if i < |below| {
        assert below[i] == sc.stack[i];
      }
    }
  }

  /**
   * The inner loop for an operator of precedence `p`: pop while the top is
   * not `(` and binds tighter than `p`. It pops exactly the longest run of
   * such entries at the top.
   */
  function PopHigher(sc: Scan, p: nat, ops: map<string, BooleanOperator>): (r: Scan)
    requires StackKeys(sc.stack, ops)
    ensures PoppedTo(sc, r) && StackKeys(r.stack, ops)
    decreases |sc.stack|
  {
    var n := |sc.stack|;
    if n > 0 && sc.stack[n - 1] != "(" && Precedence(ops, sc.stack[n - 1]) > p then
      var r := PopHigher(Scan(sc.out + [sc.stack[n - 1]], sc.stack[..n - 1]), p, ops);
      PoppedThroughTop(sc, r);
      r
    else
      PoppedToSelf(sc);
      sc
  }

  /**
   * `PopHigher` pops exactly the longest run of entries at the top that are
   * operators binding tighter than `p`.
   */
  lemma {:induction false} PopHigherStops(sc: Scan, p: nat, ops: map<string, BooleanOperator>)
    requires StackKeys(sc.stack, ops)
    ensures var r := PopHigher(sc, p, ops);
      && (forall i :: |r.stack| <= i < |sc.stack| ==>
            sc.stack[i] != "(" && sc.stack[i] in ops && Precedence(ops, sc.stack[i]) > p)
      && (r.stack == [] || r.stack[|r.stack| - 1] == "(" || Precedence(ops, r.stack[|r.stack| - 1]) <= p)
    decreases |sc.stack|
  {
    var n := |sc.stack|;
    if n > 0 && sc.stack[n - 1] != "(" && Precedence(ops, sc.stack[n - 1]) > p {
      var sc' := Scan(sc.out + [sc.stack[n - 1]], sc.stack[..n - 1]);
      var r := PopHigher(sc', p, ops);
      assert PopHigher(sc, p, ops) == r;
      PopHigherStops(sc', p, ops);
      TighterThroughTop(sc, |r.stack|, p, ops);
    } else {
      assert PopHigher(sc, p, ops) == sc;
    }
  }

  /** The loop for `)`: pop until the top is `(` or the stack is empty. */
  function PopToParen(sc: Scan): (r: Scan)
    ensures PoppedTo(sc, r)
    ensures forall i :: |r.stack| <= i < |sc.stack| ==> sc.stack[i] != "("
    ensures r.stack == [] || r.stack[|r.stack| - 1] == "("
    decreases |sc.stack|
  {
    var n := |sc.stack|;
    if n > 0 && sc.stack[n - 1] != "(" then
      var r := PopToParen(Scan(sc.out + [sc.stack[n - 1]], sc.stack[..n - 1]));
      PoppedThroughTop(sc, r);
      r
    else
      PoppedToSelf(sc);
      sc
  }

  /** The message of the `IndexError` that `stack.pop()` raises on an empty list. */
  const PopFromEmpty := "pop from empty list"

  /**
   * One iteration of the token loop: an operand goes to the output, `(` is
   * pushed, an operator first pops what binds tighter and is then pushed,
   * and `)` pops down to the `(` and drops it; any other token is ignored.
   */
  function StepToken(sc: Scan, tok: string, operands: set<string>, ops: map<string, BooleanOperator>): (r: Result<Scan, string>)
    requires StackKeys(sc.stack, ops)
    ensures r.Ok? ==> StackKeys(r.value.stack, ops)
  {
    if tok in operands then Ok(Scan(sc.out + [tok], sc.stack))
    else if tok == "(" then Ok(Scan(sc.out, sc.stack + ["("]))
    else if tok in ops then
      if sc.stack == [] then Ok(Scan(sc.out, [tok]))
      else
        var q := PopHigher(sc, Precedence(ops, tok), ops);
        Ok(Scan(q.out, q.stack + [tok]))
    else if tok == ")" then
      var q := PopToParen(sc);
      assert forall i :: 0 <= i < |q.stack| ==> q.stack[i] == sc.stack[i];
      if q.stack == [] then Err(PopFromEmpty)
      else Ok(Scan(q.out, q.stack[..|q.stack| - 1]))
    else Ok(sc)
  }

  /** The token loop over `tokens`, with `operands` the set `symbol_set | CONSTANT_VALUES`. */
  function Run(tokens: seq<string>, operands: set<string>, ops: map<string, BooleanOperator>): (r: Result<Scan, string>)
    ensures r.Ok? ==> StackKeys(r.value.stack, ops)
  {
    if tokens == [] then Ok(Scan([], []))
    else
      match Run(tokens[..|tokens| - 1], operands, ops)
      case Err(e) => Err(e)
      case Ok(sc) => StepToken(sc, tokens[|tokens| - 1], operands, ops)
  }

  /** The token loop, then what is left on the stack, top first. */
  function Convert(tokens: seq<string>, operands: set<string>, ops: map<string, BooleanOperator>): Result<seq<string>, string> {
    match Run(tokens, operands, ops)
    case Err(e) => Err(e)
    case Ok(sc) => Ok(sc.out + Reversed(sc.stack))
  }

  /** `_to_postfix`. */
  function ToPostfix(tokens: seq<string>, operands: set<string>): Result<seq<string>, string> {
    Convert(tokens, operands, OperatorMapping)
  }

  // ---------------------------------------------------------------------------
  // What the pass keeps

  /** The tokens the pass emits: operands and operators, in order. */
  function Kept(ts: seq<string>, operands: set<string>, ops: map<string, BooleanOperator>): seq<string> {
    if ts == [] then []
    else
      var t := ts[|ts| - 1];
      Kept(ts[..|ts| - 1], operands, ops) + (if t in operands || t in ops then [t] else [])
  }

  /** The operands among `ts`, in order. */
  function OperandsIn(ts: seq<string>, operands: set<string>): seq<string> {
    if ts == [] then []
    else
      var t := ts[|ts| - 1];
      OperandsIn(ts[..|ts| - 1], operands) + (if t in operands then [t] else [])
  }

  /** The entries of `ts` other than `(`, in order. */
  function NonParens(ts: seq<string>): seq<string> {
    if ts == [] then []
    else
      var t := ts[|ts| - 1];
      NonParens(ts[..|ts| - 1]) + (if t != "(" then [t] else [])
  }

  lemma {:induction false} OperandsInConcat(a: seq<string>, b: seq<string>, operands: set<string>)
    ensures OperandsIn(a + b, operands) == OperandsIn(a, operands) + OperandsIn(b, operands)
    decreases |b|
  {
    if b != [] {
      assert (a + b)[..|a + b| - 1] == a + b[..|b| - 1];
      OperandsInConcat(a, b[..|b| - 1], operands);
    } else {
      assert a + b == a;
    }
  }

  lemma {:induction false} OperandsInNone(ts: seq<string>, operands: set<string>)
    requires forall i :: 0 <= i < |ts| ==> ts[i] !in operands
    ensures OperandsIn(ts, operands) == []
  {
    if ts != [] {
      OperandsInNone(ts[..|ts| - 1], operands);
    }
  }

  lemma {:induction false} NonParensConcat(a: seq<string>, b: seq<string>)
    ensures NonParens(a + b) == NonParens(a) + NonParens(b)
    decreases |b|
  {
    if b != [] {
      assert (a + b)[..|a + b| - 1] == a + b[..|b| - 1];
      NonParensConcat(a, b[..|b| - 1]);
    } else {
      assert a + b == a;
    }
  }

  lemma NonParensOne(t: string)
    ensures NonParens([t]) == (if t != "(" then [t] else [])
  {
    assert [t][..0] == [];
  }

  lemma {:induction false} NonParensAll(ts: seq<string>)
    requires forall i :: 0 <= i < |ts| ==> ts[i] != "("
    ensures NonParens(ts) == ts
  {
    if ts != [] {
      NonParensAll(ts[..|ts| - 1]);
    }
  }

  /** No stack entry is an operand. */
  predicate StackClear(stack: seq<string>, operands: set<string>) {
    forall i :: 0 <= i < |stack| ==> stack[i] !in operands
  }

  /** Popping moves operators only: the operands of the output and the non-parenthesis tokens overall stay the same. */
  lemma PoppedKeeps(sc: Scan, r: Scan, operands: set<string>)
    requires PoppedTo(sc, r) && StackClear(sc.stack, operands)
    requires forall i :: |r.stack| <= i < |sc.stack| ==> sc.stack[i] != "("
    ensures StackClear(r.stack, operands)
    ensures OperandsIn(r.out, operands) == OperandsIn(sc.out, operands)
    ensures multiset(r.out) + multiset(NonParens(r.stack)) == multiset(sc.out) + multiset(NonParens(sc.stack))
  {
    var j := |r.stack|;
    var popped := sc.stack[j..];
    assert sc.stack == r.stack + popped;
    var rev := Reversed(popped);
    assert r.out == sc.out + rev;
    assert StackClear(r.stack, operands) by {
      forall i | 0 <= i < |r.stack| ensures r.stack[i] !in operands {
        assert r.stack[i] == sc.stack[i];
      }
    }
    assert OperandsIn(r.out, operands) == OperandsIn(sc.out, operands) by {
      OperandsInConcat(sc.out, rev, operands);
      OperandsInNone(rev, operands);
    }
    assert NonParens(sc.stack) == NonParens(r.stack) + popped by {
      NonParensConcat(r.stack, popped);
      NonParensAll(popped);
    }
    assert multiset(r.out) == multiset(sc.out) + multiset(popped) by {
      ReversedMultiset(popped);
    }
  }

  /** The invariant of the token loop, over the tokens read so far. */
  predicate Keeps(ts: seq<string>, operands: set<string>, ops: map<string, BooleanOperator>, sc: Scan) {
    && StackClear(sc.stack, operands)
    && OperandsIn(sc.out, operands) == OperandsIn(ts, operands)
    && multiset(sc.out) + multiset(NonParens(sc.stack)) == multiset(Kept(ts, operands, ops))
  }

  /** What one step adds: `tok` to the operands if it is one, and to the kept tokens if it is kept. */
  predicate StepAdds(sc: Scan, tok: string, operands: set<string>, ops: map<string, BooleanOperator>, r: Scan) {
    && StackClear(r.stack, operands)
    && OperandsIn(r.out, operands) == OperandsIn(sc.out, operands) + (if tok in operands then [tok] else [])
    && multiset(r.out) + multiset(NonParens(r.stack)) ==
       multiset(sc.out) + multiset(NonParens(sc.stack)) + (if tok in operands || tok in ops then multiset{tok} else multiset{})
  }

  lemma KeepsSnoc(ts: seq<string>, tok: string, operands: set<string>, ops: map<string, BooleanOperator>, sc: Scan, r: Scan)
    requires Keeps(ts, operands, ops, sc) && StepAdds(sc, tok, operands, ops, r)
    ensures Keeps(ts + [tok], operands, ops, r)
  {
    var ts' := ts + [tok];
    assert ts'[..|ts'| - 1] == ts;
    assert OperandsIn(ts', operands) == OperandsIn(ts, operands) + (if tok in operands then [tok] else []);
    assert Kept(ts', operands, ops) == Kept(ts, operands, ops) + (if tok in operands || tok in ops then [tok] else []);
  }

  lemma StepAddsOperand(sc: Scan, tok: string, operands: set<string>, ops: map<string, BooleanOperator>)
    requires StackClear(sc.stack, operands) && tok in operands
    ensures StepAdds(sc, tok, operands, ops, Scan(sc.out + [tok], sc.stack))
  {
    OperandsInConcat(sc.out, [tok], operands);
    assert OperandsIn([tok], operands) == [tok];
  }

  lemma StepAddsOpen(sc: Scan, operands: set<string>, ops: map<string, BooleanOperator>)
    requires StackClear(sc.stack, operands) && "(" !in operands && "(" !in ops
    ensures StepAdds(sc, "(", operands, ops, Scan(sc.out, sc.stack + ["("]))
  {
    NonParensConcat(sc.stack, ["("]);
    NonParensOne("(");
  }

  /** Popping operators and then pushing the operator `tok`. */
  lemma StepAddsPush(sc: Scan, q: Scan, tok: string, operands: set<string>, ops: map<string, BooleanOperator>)
    requires PoppedTo(sc, q) && StackClear(sc.stack, operands)
    requires forall i :: |q.stack| <= i < |sc.stack| ==> sc.stack[i] != "("
    requires tok !in operands && tok != "(" && tok in ops
    ensures StepAdds(sc, tok, operands, ops, Scan(q.out, q.stack + [tok]))
  {
    PoppedKeeps(sc, q, operands);
    PushCounts(q.out, q.stack, tok, multiset(sc.out) + multiset(NonParens(sc.stack)));
  }

  lemma PushCounts(out: seq<string>, stack: seq<string>, tok: string, m: multiset<string>)
    requires multiset(out) + multiset(NonParens(stack)) == m
    requires tok != "("
    ensures multiset(out) + multiset(NonParens(stack + [tok])) == m + multiset{tok}
  {
    NonParensConcat(stack, [tok]);
    NonParensOne(tok);
  }

  /** Popping operators and then the `(` on top. */
  lemma StepAddsClose(sc: Scan, q: Scan, operands: set<string>, ops: map<string, BooleanOperator>)
    requires PoppedTo(sc, q) && StackClear(sc.stack, operands)
    requires forall i :: |q.stack| <= i < |sc.stack| ==> sc.stack[i] != "("
    requires q.stack != [] && q.stack[|q.stack| - 1] == "("
    requires ")" !in operands && ")" !in ops
    ensures StepAdds(sc, ")", operands, ops, Scan(q.out, q.stack[..|q.stack| - 1]))
  {
    PoppedKeeps(sc, q, operands);
    DropParenCounts(q.stack);
  }

  /** Dropping a `(` from the top leaves the non-parenthesis entries as they were. */
  lemma DropParenCounts(stack: seq<string>)
    requires stack != [] && stack[|stack| - 1] == "("
    ensures NonParens(stack[..|stack| - 1]) == NonParens(stack)
  {
  }

  lemma StepKeeps(ts: seq<string>, tok: string, operands: set<string>, ops: map<string, BooleanOperator>, sc: Scan)
    requires "(" !in ops && ")" !in ops
    requires StackKeys(sc.stack, ops) && Keeps(ts, operands, ops, sc)
    requires StepToken(sc, tok, operands, ops).Ok?
    ensures Keeps(ts + [tok], operands, ops, StepToken(sc, tok, operands, ops).value)
  {
    var r := StepToken(sc, tok, operands, ops).value;
    if tok in operands {
      StepAddsOperand(sc, tok, operands, ops);
    } else if tok == "(" {
      StepAddsOpen(sc, operands, ops);
    } else if tok in ops {
      if sc.stack == [] {
        PoppedToSelf(sc);
        StepAddsPush(sc, sc, tok, operands, ops);
      } else {
        PopHigherStops(sc, Precedence(ops, tok), ops);
        StepAddsPush(sc, PopHigher(sc, Precedence(ops, tok), ops), tok, operands, ops);
      }
    } else if tok == ")" {
      StepAddsClose(sc, PopToParen(sc), operands, ops);
    } else {
      assert StepAdds(sc, tok, operands, ops, r);
    }
    KeepsSnoc(ts, tok, operands, ops, sc, r);
  }

  /** The token loop keeps every operand and operator and drops exactly the parentheses that pair up. */
  lemma {:induction false} RunKeeps(ts: seq<string>, operands: set<string>, ops: map<string, BooleanOperator>)
    requires "(" !in ops && ")" !in ops
    ensures Run(ts, operands, ops).Ok? ==> Keeps(ts, operands, ops, Run(ts, operands, ops).value)
  {
    if ts != [] {
      var prefix := ts[..|ts| - 1];
      RunKeeps(prefix, operands, ops);
      if Run(ts, operands, ops).Ok? {
        assert ts == prefix + [ts[|ts| - 1]];
        StepKeeps(prefix, ts[|ts| - 1], operands, ops, Run(prefix, operands, ops).value);
      }
    }
  }

  // ---------------------------------------------------------------------------
  // Nested parentheses

  /** The number of `(` minus the number of `)` in `ts`. */
  function Depth(ts: seq<string>): int {
    if ts == [] then 0
    else
      var t := ts[|ts| - 1];
      Depth(ts[..|ts| - 1]) + (if t == "(" then 1 else if t == ")" then -1 else 0)
  }

  /** No prefix closes more parentheses than it opens. */
  predicate Nested(ts: seq<string>) {
    forall k :: 0 <= k <= |ts| ==> Depth(ts[..k]) >= 0
  }

  /** Appending a token keeps the nesting when the depth stays non-negative. */
  lemma NestedSnoc(ts: seq<string>, tok: string)
    requires Nested(ts) && Depth(ts) + DepthChange(tok) >= 0
    ensures Depth(ts + [tok]) == Depth(ts) + DepthChange(tok)
    ensures Nested(ts + [tok])
  {
    var xs := ts + [tok];
    assert xs[..|ts|] == ts;
    forall k | 0 <= k <= |xs|
      ensures Depth(xs[..k]) >= 0
    {
      if k < |xs| {
        assert xs[..k] == ts[..k];
      } else {
        assert xs[..k] == xs;
      }
    }
  }

  /** `(` occurrences are counted by the multiset of the stack. */
  lemma StackParens(sc: Scan, r: Scan)
    requires PoppedTo(sc, r)
    requires forall i :: |r.stack| <= i < |sc.stack| ==> sc.stack[i] != "("
    ensures multiset(r.stack)["("] == multiset(sc.stack)["("]
  {
    var popped := sc.stack[|r.stack|..];
    assert sc.stack == r.stack + popped;
    assert "(" !in multiset(popped);
  }

  /** How one token changes the depth: `+1` for `(`, `-1` for `)`, 0 otherwise. */
  function DepthChange(tok: string): int {
    if tok == "(" then 1 else if tok == ")" then -1 else 0
  }

  lemma ParenCountPush(stack: seq<string>, tok: string)
    ensures multiset(stack + [tok])["("] == multiset(stack)["("] + (if tok == "(" then 1 else 0)
  {
  }

  lemma ParenCountDrop(stack: seq<string>)
    requires stack != [] && stack[|stack| - 1] == "("
    ensures multiset(stack[..|stack| - 1])["("] == multiset(stack)["("] - 1
  {
    assert stack == stack[..|stack| - 1] + ["("];
  }

  /** One step over a token that does not close more than is open succeeds and changes the `(` count by the token's depth change. */
  lemma StepNested(sc: Scan, tok: string, operands: set<string>, ops: map<string, BooleanOperator>)
    requires "(" !in operands && ")" !in operands && "(" !in ops && ")" !in ops
    requires StackKeys(sc.stack, ops)
    requires multiset(sc.stack)["("] + DepthChange(tok) >= 0
    ensures StepToken(sc, tok, operands, ops).Ok?
    ensures multiset(StepToken(sc, tok, operands, ops).value.stack)["("] == multiset(sc.stack)["("] + DepthChange(tok)
  {
    if tok in operands {
    } else if tok == "(" {
      ParenCountPush(sc.stack, "(");
    } else if tok in ops {
      if sc.stack != [] {
        var q := PopHigher(sc, Precedence(ops, tok), ops);
        PopHigherStops(sc, Precedence(ops, tok), ops);
        StackParens(sc, q);
        ParenCountPush(q.stack, tok);
      }
    } else if tok == ")" {
      var q := PopToParen(sc);
      StackParens(sc, q);
      if q.stack != [] {
        ParenCountDrop(q.stack);
      }
    }
  }

  /**
   * With properly nested parentheses that are not operands, the token loop
   * never pops an empty stack, and the `(` entries left on the stack are the
   * ones still open.
   */
  lemma {:induction false} RunNested(ts: seq<string>, operands: set<string>, ops: map<string, BooleanOperator>)
    requires "(" !in operands && ")" !in operands && "(" !in ops && ")" !in ops
    requires Nested(ts)
    ensures Run(ts, operands, ops).Ok?
    ensures multiset(Run(ts, operands, ops).value.stack)["("] == Depth(ts)
  {
    if ts != [] {
      var prefix := ts[..|ts| - 1];
      var tok := ts[|ts| - 1];
      assert Nested(prefix) by {
        forall k | 0 <= k <= |prefix|
          ensures Depth(prefix[..k]) >= 0
        {
          assert prefix[..k] == ts[..k];
        }
      }
      RunNested(prefix, operands, ops);
      assert ts[..|ts|] == ts;
      assert Depth(ts) == Depth(prefix) + DepthChange(tok);
      StepNested(Run(prefix, operands, ops).value, tok, operands, ops);
    }
  }

  /**
   * `_to_postfix` on properly nested tokens: it succeeds, its output holds
   * exactly the operands and operators of the input, and the operands keep
   * their order.
   */
  lemma ConvertKeeps(ts: seq<string>, operands: set<string>, ops: map<string, BooleanOperator>)
    requires "(" !in operands && ")" !in operands && "(" !in ops && ")" !in ops
    requires Nested(ts) && Depth(ts) == 0
    ensures Convert(ts, operands, ops).Ok?
    ensures multiset(Convert(ts, operands, ops).value) == multiset(Kept(ts, operands, ops))
    ensures OperandsIn(Convert(ts, operands, ops).value, operands) == OperandsIn(ts, operands)
  {
    RunNested(ts, operands, ops);
    RunKeeps(ts, operands, ops);
    var sc := Run(ts, operands, ops).value;
    NoOpenLeft(sc.stack);
    FinalCounts(sc.out, sc.stack, multiset(Kept(ts, operands, ops)));
    FinalOperands(sc.out, sc.stack, operands);
  }

  lemma NoOpenLeft(stack: seq<string>)
    requires multiset(stack)["("] == 0
    ensures forall i :: 0 <= i < |stack| ==> stack[i] != "("
  {
    forall i | 0 <= i < |stack|
      ensures stack[i] != "("
    {
      assert stack[i] in multiset(stack);
    }
  }

  /** Emptying a stack without `(` entries onto the output keeps the counts. */
  lemma FinalCounts(out: seq<string>, stack: seq<string>, m: multiset<string>)
    requires forall i :: 0 <= i < |stack| ==> stack[i] != "("
    requires multiset(out) + multiset(NonParens(stack)) == m
    ensures multiset(out + Reversed(stack)) == m
  {
    NonParensAll(stack);
    ReversedMultiset(stack);
  }

  /** Emptying a stack without operands onto the output adds no operand. */
  lemma FinalOperands(out: seq<string>, stack: seq<string>, operands: set<string>)
    requires StackClear(stack, operands)
    ensures OperandsIn(out + Reversed(stack), operands) == OperandsIn(out, operands)
  {
    OperandsInConcat(out, Reversed(stack), operands);
    OperandsInNone(Reversed(stack), operands);
  }

  // ---------------------------------------------------------------------------
  // Grouping

  /** Once a prefix of the tokens fails, the whole pass fails with the same error. */
  lemma {:induction false} RunFailsFor(ts: seq<string>, k: nat, operands: set<string>, ops: map<string, BooleanOperator>)
    requires k <= |ts| && Run(ts[..k], operands, ops).Err?
    ensures Run(ts, operands, ops) == Run(ts[..k], operands, ops)
    decreases |ts| - k
  {
    if k < |ts| {
      assert ts[..k + 1][..k] == ts[..k];
      RunFailsFor(ts, k + 1, operands, ops);
    } else {
      assert ts[..k] == ts;
    }
  }

  /** The token loop after one more token. */
  lemma RunSnoc(ts: seq<string>, tok: string, operands: set<string>, ops: map<string, BooleanOperator>, sc: Scan)
    requires Run(ts, operands, ops) == Ok(sc)
    ensures Run(ts + [tok], operands, ops) == StepToken(sc, tok, operands, ops)
  {
    assert (ts + [tok])[..|ts|] == ts;
  }

  /** An operator that nothing on top of the stack outranks is pushed without popping. */
  lemma PushOperator(sc: Scan, t: string, operands: set<string>, ops: map<string, BooleanOperator>)
    requires StackKeys(sc.stack, ops) && t !in operands && t != "(" && t in ops
    requires sc.stack == [] || sc.stack[|sc.stack| - 1] == "(" || Precedence(ops, sc.stack[|sc.stack| - 1]) <= Precedence(ops, t)
    ensures StepToken(sc, t, operands, ops) == Ok(Scan(sc.out, sc.stack + [t]))
  {
    if sc.stack != [] {
      assert PopHigher(sc, Precedence(ops, t), ops) == sc;
    } else {
      assert sc.stack + [t] == [t];
    }
  }

  /**
   * An operator meeting a tighter-binding operator on top of the stack sends
   * that operator to the output first, then pushes itself: in `a op1 b op2 c`
   * with `op1` binding tighter, `a b op1` is formed before `op2` is placed.
   */
  lemma PopsTighter(sc: Scan, t: string, operands: set<string>, ops: map<string, BooleanOperator>)
    requires StackKeys(sc.stack, ops) && t !in operands && t != "(" && t in ops
    requires sc.stack != [] && sc.stack[|sc.stack| - 1] != "("
    requires Precedence(ops, sc.stack[|sc.stack| - 1]) > Precedence(ops, t)
    ensures StepToken(sc, t, operands, ops).Ok?
    ensures var r := StepToken(sc, t, operands, ops).value;
      |r.out| > |sc.out| && r.out[..|sc.out|] == sc.out && r.out[|sc.out|] == sc.stack[|sc.stack| - 1]
      && r.stack != [] && r.stack[|r.stack| - 1] == t && |r.stack| < |sc.stack| + 1
  {
    var q := PopHigher(sc, Precedence(ops, t), ops);
    assert |q.stack| < |sc.stack|;
    var popped := sc.stack[|q.stack|..];
    assert Reversed(popped)[0] == sc.stack[|sc.stack| - 1];
  }

  // ---------------------------------------------------------------------------
  // Whole-pass outputs

  /** The pass's result once the loop has reached `sc`. */
  lemma ConvertOf(ts: seq<string>, operands: set<string>, ops: map<string, BooleanOperator>, sc: Scan)
    requires Run(ts, operands, ops) == Ok(sc)
    ensures Convert(ts, operands, ops) == Ok(sc.out + Reversed(sc.stack))
  {
  }

  /** An operand goes to the output. */
  lemma OperandThrough(ts: seq<string>, tok: string, operands: set<string>, ops: map<string, BooleanOperator>, sc: Scan)
    requires Run(ts, operands, ops) == Ok(sc) && tok in operands
    ensures Run(ts + [tok], operands, ops) == Ok(Scan(sc.out + [tok], sc.stack))
  {
    RunSnoc(ts, tok, operands, ops, sc);
  }

  /** `(` is pushed. */
  lemma OpenThrough(ts: seq<string>, operands: set<string>, ops: map<string, BooleanOperator>, sc: Scan)
    requires Run(ts, operands, ops) == Ok(sc) && "(" !in operands
    ensures Run(ts + ["("], operands, ops) == Ok(Scan(sc.out, sc.stack + ["("]))
  {
    RunSnoc(ts, "(", operands, ops, sc);
  }

  /** An operator that nothing on top outranks is pushed. */
  lemma PushThrough(ts: seq<string>, tok: string, operands: set<string>, ops: map<string, BooleanOperator>, sc: Scan)
    requires Run(ts, operands, ops) == Ok(sc)
    requires tok !in operands && tok != "(" && tok in ops
    requires sc.stack == [] || sc.stack[|sc.stack| - 1] == "(" || Precedence(ops, sc.stack[|sc.stack| - 1]) <= Precedence(ops, tok)
    ensures Run(ts + [tok], operands, ops) == Ok(Scan(sc.out, sc.stack + [tok]))
  {
    RunSnoc(ts, tok, operands, ops, sc);
    PushOperator(sc, tok, operands, ops);
  }

  /** An operator meeting a lone tighter operator on the stack emits it, then is pushed. */
  lemma PopOneThrough(ts: seq<string>, tok: string, operands: set<string>, ops: map<string, BooleanOperator>, out: seq<string>, top: string)
    requires Run(ts, operands, ops) == Ok(Scan(out, [top]))
    requires tok !in operands && tok != "(" && tok in ops
    requires top != "(" && top in ops && Precedence(ops, top) > Precedence(ops, tok)
    ensures Run(ts + [tok], operands, ops) == Ok(Scan(out + [top], [tok]))
  {
    var sc := Scan(out, [top]);
    RunSnoc(ts, tok, operands, ops, sc);
    assert sc.stack[..0] == [];
    var q := Scan(out + [top], []);
    assert PopHigher(q, Precedence(ops, tok), ops) == q;
    assert PopHigher(sc, Precedence(ops, tok), ops) == q;
    assert [] + [tok] == [tok];
  }

  /** `A op B op C` with one operator: equal precedence groups to the right, giving `A B C op op`. */
  lemma ChainGroupsRight(a: string, b: string, c: string, o: string, operands: set<string>, ops: map<string, BooleanOperator>)
    requires a in operands && b in operands && c in operands
    requires o in ops && o !in operands && o != "("
    ensures Convert([a, o, b, o, c], operands, ops) == Ok([a, b, c, o, o])
  {
    var t0: seq<string> := [];
    OperandThrough(t0, a, operands, ops, Scan([], []));
    var t1 := t0 + [a];
    assert [] + [a] == [a];
    PushThrough(t1, o, operands, ops, Scan([a], []));
    var t2 := t1 + [o];
    assert [] + [o] == [o];
    OperandThrough(t2, b, operands, ops, Scan([a], [o]));
    var t3 := t2 + [b];
    assert [a] + [b] == [a, b];
    PushThrough(t3, o, operands, ops, Scan([a, b], [o]));
    var t4 := t3 + [o];
    assert [o] + [o] == [o, o];
    OperandThrough(t4, c, operands, ops, Scan([a, b], [o, o]));
    assert [a, b] + [c] == [a, b, c];
    assert t4 + [c] == [a, o, b, o, c];
    ConvertOf(t4 + [c], operands, ops, Scan([a, b, c], [o, o]));
    assert Reversed([o, o]) == [o, o];
    assert [a, b, c] + [o, o] == [a, b, c, o, o];
  }

  /** `A hi B lo C` with `hi` binding tighter: `hi` is emitted first, giving `A B hi C lo`. */
  lemma TighterFirst(a: string, b: string, c: string, hi: string, lo: string, operands: set<string>, ops: map<string, BooleanOperator>)
    requires a in operands && b in operands && c in operands
    requires hi in ops && hi !in operands && hi != "("
    requires lo in ops && lo !in operands && lo != "("
    requires Precedence(ops, hi) > Precedence(ops, lo)
    ensures Convert([a, hi, b, lo, c], operands, ops) == Ok([a, b, hi, c, lo])
  {
    var t0: seq<string> := [];
    OperandThrough(t0, a, operands, ops, Scan([], []));
    var t1 := t0 + [a];
    assert [] + [a] == [a];
    PushThrough(t1, hi, operands, ops, Scan([a], []));
    var t2 := t1 + [hi];
    assert [] + [hi] == [hi];
    OperandThrough(t2, b, operands, ops, Scan([a], [hi]));
    var t3 := t2 + [b];
    assert [a] + [b] == [a, b];
    PopOneThrough(t3, lo, operands, ops, [a, b], hi);
    var t4 := t3 + [lo];
    assert [a, b] + [hi] == [a, b, hi];
    OperandThrough(t4, c, operands, ops, Scan([a, b, hi], [lo]));
    assert [a, b, hi] + [c] == [a, b, hi, c];
    assert t4 + [c] == [a, hi, b, lo, c];
    ConvertOf(t4 + [c], operands, ops, Scan([a, b, hi, c], [lo]));
    assert Reversed([lo]) == [lo];
    assert [a, b, hi, c] + [lo] == [a, b, hi, c, lo];
  }

  /** `A lo B hi C` with `hi` binding tighter: `hi` stays above `lo` and binds `B C`, giving `A B C hi lo`. */
  lemma LooserFirst(a: string, b: string, c: string, hi: string, lo: string, operands: set<string>, ops: map<string, BooleanOperator>)
    requires a in operands && b in operands && c in operands
    requires hi in ops && hi !in operands && hi != "("
    requires lo in ops && lo !in operands && lo != "("
    requires Precedence(ops, hi) > Precedence(ops, lo)
    ensures Convert([a, lo, b, hi, c], operands, ops) == Ok([a, b, c, hi, lo])
  {
    var t0: seq<string> := [];
    OperandThrough(t0, a, operands, ops, Scan([], []));
    var t1 := t0 + [a];
    assert [] + [a] == [a];
    PushThrough(t1, lo, operands, ops, Scan([a], []));
    var t2 := t1 + [lo];
    assert [] + [lo] == [lo];
    OperandThrough(t2, b, operands, ops, Scan([a], [lo]));
    var t3 := t2 + [b];
    assert [a] + [b] == [a, b];
    PushThrough(t3, hi, operands, ops, Scan([a, b], [lo]));
    var t4 := t3 + [hi];
    assert [lo] + [hi] == [lo, hi];
    OperandThrough(t4, c, operands, ops, Scan([a, b], [lo, hi]));
    assert [a, b] + [c] == [a, b, c];
    assert t4 + [c] == [a, lo, b, hi, c];
    ConvertOf(t4 + [c], operands, ops, Scan([a, b, c], [lo, hi]));
    assert Reversed([lo, hi]) == [hi, lo];
    assert [a, b, c] + [hi, lo] == [a, b, c, hi, lo];
  }

  /** `)` meeting `( top` on the stack emits `top` and drops the `(`. */
  lemma CloseThrough(ts: seq<string>, operands: set<string>, ops: map<string, BooleanOperator>, sc: Scan, below: seq<string>, top: string)
    requires Run(ts, operands, ops) == Ok(sc) && sc.stack == below + ["("] + [top]
    requires ")" !in operands && ")" !in ops && top != "("
    ensures Run(ts + [")"], operands, ops) == Ok(Scan(sc.out + [top], below))
  {
    RunSnoc(ts, ")", operands, ops, sc);
    var n := |sc.stack|;
    assert sc.stack[n - 1] == top && sc.stack[..n - 1] == below + ["("];
    var q := Scan(sc.out + [top], below + ["("]);
    assert PopToParen(q) == q;
    assert PopToParen(sc) == q;
    assert q.stack[..|q.stack| - 1] == below;
  }

  /** After any prefix, `( A` appends `A` to the output and pushes `(`. */
  lemma OpenOperandThrough(ts: seq<string>, a: string, operands: set<string>, ops: map<string, BooleanOperator>, sc: Scan)
    requires Run(ts, operands, ops) == Ok(sc)
    requires a in operands && "(" !in operands
    ensures Run(ts + ["("] + [a], operands, ops) == Ok(Scan(sc.out + [a], sc.stack + ["("]))
  {
    OpenThrough(ts, operands, ops, sc);
    OperandThrough(ts + ["("], a, operands, ops, Scan(sc.out, sc.stack + ["("]));
  }

  /** After any prefix, `( A op B )` appends `A B op` to the output and leaves the stack as it was. */
  lemma ParenPairThrough(ts: seq<string>, a: string, b: string, o: string, operands: set<string>, ops: map<string, BooleanOperator>, sc: Scan)
    requires Run(ts, operands, ops) == Ok(sc)
    requires a in operands && b in operands
    requires o in ops && o !in operands && o != "("
    requires "(" !in operands && ")" !in operands && ")" !in ops
    ensures Run(ts + ["("] + [a] + [o] + [b] + [")"], operands, ops) == Ok(Scan(sc.out + [a] + [b] + [o], sc.stack))
  {
    var t2 := ts + ["("] + [a];
    var s2 := Scan(sc.out + [a], sc.stack + ["("]);
    OpenOperandThrough(ts, a, operands, ops, sc);
    var t3 := t2 + [o];
    var s3 := Scan(s2.out, s2.stack + [o]);
    PushThrough(t2, o, operands, ops, s2);
    var t4 := t3 + [b];
    var s4 := Scan(s3.out + [b], s3.stack);
    OperandThrough(t3, b, operands, ops, s3);
    CloseThrough(t4, operands, ops, s4, sc.stack, o);
  }

  /** `( A op B ) op C`: the parenthesised pair is formed first and the parentheses are dropped, giving `A B op C op`. */
  lemma ParensGroupFirst(a: string, b: string, c: string, o: string, operands: set<string>, ops: map<string, BooleanOperator>)
    requires a in operands && b in operands && c in operands
    requires o in ops && o !in operands && o != "("
    requires "(" !in operands && ")" !in operands && ")" !in ops
    ensures Convert(["(", a, o, b, ")", o, c], operands, ops) == Ok([a, b, o, c, o])
  {
    var t0: seq<string> := [];
    ParenPairThrough(t0, a, b, o, operands, ops, Scan([], []));
    var t5 := t0 + ["("] + [a] + [o] + [b] + [")"];
    var s5 := Scan([] + [a] + [b] + [o], []);
    PushThrough(t5, o, operands, ops, s5);
    var t6 := t5 + [o];
    var s6 := Scan(s5.out, s5.stack + [o]);
    OperandThrough(t6, c, operands, ops, s6);
    var s7 := Scan(s6.out + [c], s6.stack);
    assert t6 + [c] == ["(", a, o, b, ")", o, c];
    ConvertOf(t6 + [c], operands, ops, s7);
    assert Reversed(s7.stack) == [o];
    assert s7.out + [o] == [a, b, o, c, o];
  }

  /** The key at position `i` of the operator strings, and its operator. */
  lemma KeyAt(i: nat)
    requires i < |OperatorStrs|
    ensures OperatorStrs[i] in OperatorMapping && OperatorMapping[OperatorStrs[i]] == OperatorOps[i]
  {
    OperatorMappingValues();
  }

  /** `and` and `or` are keys of `OPERATOR_MAPPING`, `and` binding tighter. */
  lemma AndOrEntries()
    ensures "and" in OperatorMapping && "or" in OperatorMapping
    ensures Precedence(OperatorMapping, "and") > Precedence(OperatorMapping, "or")
  {
    KeyAt(12);
    KeyAt(16);
    assert OperatorStrs[12] == "and" && OperatorOps[12] == AndOp by {
      assert OperatorStrs[12] == PlainEnglishStrs[12] && OperatorOps[12] == PlainEnglishOps[12];
    }
    assert OperatorStrs[16] == "or" && OperatorOps[16] == OrOp by {
      assert OperatorStrs[16] == PlainEnglishStrs[16] && OperatorOps[16] == PlainEnglishOps[16];
    }
    PrecedenceOrder();
  }

  /** With the package's table: `A and B or C` gives `A B and C or`, and `A or B or C` gives `A B C or or`. */
  lemma AndOrOrder(operands: set<string>)
    requires "A" in operands && "B" in operands && "C" in operands
    requires "and" !in operands && "or" !in operands
    ensures ToPostfix(["A", "and", "B", "or", "C"], operands) == Ok(["A", "B", "and", "C", "or"])
    ensures ToPostfix(["A", "or", "B", "or", "C"], operands) == Ok(["A", "B", "C", "or", "or"])
  {
    AndOrEntries();
    TighterFirst("A", "B", "C", "and", "or", operands, OperatorMapping);
    ChainGroupsRight("A", "B", "C", "or", operands, OperatorMapping);
  }
}
