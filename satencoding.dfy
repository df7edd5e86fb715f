/**
 * What the PicoSAT glue feeds the solver, as values: C integer conversion of
 * Python ints, the literals and terminators a clause or a list of clauses
 * adds to the solver, assumption validation, the solution list and the
 * blocking clause, and what it means for an assignment to satisfy them.
 */
module SatEncoding {
  import opened Wrappers
  import opened PyValues

  // ---------------------------------------------------------------------------
  // C integers

  const LongMin: int := -0x8000_0000_0000_0000
  const LongMax: int := 0x7fff_ffff_ffff_ffff
  const IntMin: int := -0x8000_0000
  const IntMax: int := 0x7fff_ffff

  /** `PyLong_AsLong(v)` sets an OverflowError: `v` does not fit a 64-bit C `long`. */
  predicate Overflows(v: int) {
    v < LongMin || v > LongMax
  }

  /** `PyLong_AsLong(v)`: the value when it fits a C `long`, otherwise -1 (with the error pending). */
  function AsLong(v: int): (r: int)
    ensures LongMin <= r <= LongMax
    ensures Overflows(v) ==> r == -1
  {
    if Overflows(v) then -1 else v
  }

  /** Storing a C `long` in an `int`: the low 32 bits, read as two's complement. */
  function ToCInt(l: int): (r: int)
    ensures IntMin <= r <= IntMax
    ensures IntMin <= l <= IntMax ==> r == l
  {
    (l - IntMin) % 0x1_0000_0000 + IntMin
  }

  /** Two values 2^32 apart are stored as the same `int`. */
  lemma ToCIntPeriodic(l: int)
    ensures ToCInt(l + 0x1_0000_0000) == ToCInt(l)
  {
  }

  /** The `int` that `l = PyLong_AsLong(literal)` leaves for a Python int. */
  function Literal(v: int): int {
    ToCInt(AsLong(v))
  }

  /**
   * The conversion keeps the ints of the 32-bit range and wraps the rest:
   * 2^32 reads as 0 and 2^32 + 1 as 1, and a value beyond the C `long`
   * range reads as -1.
   */
  lemma LiteralWraps(v: int)
    ensures IntMin <= v <= IntMax ==> Literal(v) == v
    ensures Literal(0x1_0000_0000) == 0 && Literal(0x1_0000_0001) == 1
    ensures Overflows(v) ==> Literal(v) == -1
  {
  }

  // ---------------------------------------------------------------------------
  // Feeding literals

  datatype CError =
    | TypeError(message: string)
    | ValueError(message: string)
    | OverflowError
    | RuntimeError(message: string)

  /** What a step of feeding passed to `picosat_add`, and the error it stopped with, if any. */
  datatype Feed = Feed(added: seq<int>, error: Option<CError>)

  /** `p` added before the feed `f`. */
  function Prepend(p: seq<int>, f: Feed): (r: Feed)
    ensures r.added == p + f.added && r.error == f.error
  {
    Feed(p + f.added, f.error)
  }

  const ClauseTypeMessage := "clause must be a list of non-zero ints"
  const ClauseEmptyMessage := "clause must be non-empty"
  const LiteralTypeMessage := "All literals expected to be ints"
  const LiteralZeroMessage := "All literals must be non-zero"
  const ClausesTypeMessage := "clauses must be a list of lists of non-zero ints"
  const ClausesEmptyMessage := "clause musts be non-empty"
  const AssumptionsTypeMessage := "assumptions must be a list of non-zero ints"
  const AssumptionsEmptyMessage := "assumptions must be non-empty"
  const AssumptionTypeMessage := "All assumption literals expected to be ints"
  const AssumptionZeroMessage := "All assumption literals must be non-zero"

  /**
   * The literal loop over `items`: a non-int or a literal that converts to
   * 0 stops it with the given messages; every other literal is added; an
   * overflow (here or earlier, `overflow`) is only noticed after the loop,
   * which otherwise adds the 0 terminator.
   */
  function ScanLiterals(items: seq<PyValue>, overflow: bool, typeMsg: string, zeroMsg: string): Feed
    decreases |items|
  {
    if items == [] then
      if overflow then Feed([], Some(OverflowError)) else Feed([0], None)
    else if !IsInt(items[0]) then Feed([], Some(TypeError(typeMsg)))
    else
      var v := IntValue(items[0]);
      if Literal(v) == 0 then Feed([], Some(ValueError(zeroMsg)))
      else Prepend([Literal(v)], ScanLiterals(items[1..], overflow || Overflows(v), typeMsg, zeroMsg))
  }

  /** An int that fits a C `long` and does not convert to 0. */
  predicate GoodLiteral(v: PyValue) {
    IsInt(v) && !Overflows(IntValue(v)) && Literal(IntValue(v)) != 0
  }

  /** The converted literals of a list of ints. */
  function Lits(items: seq<PyValue>): (r: seq<int>)
    requires forall k :: 0 <= k < |items| ==> IsInt(items[k])
    ensures |r| == |items| && forall k :: 0 <= k < |items| ==> r[k] == Literal(IntValue(items[k]))
  {
    seq(|items|, k requires 0 <= k < |items| => Literal(IntValue(items[k])))
  }

  /** Every item is a good literal. */
  predicate AllGood(items: seq<PyValue>) {
    forall k :: 0 <= k < |items| ==> GoodLiteral(items[k])
  }

  lemma AllGoodTail(items: seq<PyValue>)
    requires items != []
    ensures AllGood(items) <==> GoodLiteral(items[0]) && AllGood(items[1..])
  {
    assert forall k :: 1 <= k < |items| ==> items[k] == items[1..][k - 1];
  }

  /** The literal loop succeeds exactly when there was no overflow before it and every item is a good literal. */
  lemma {:induction false} ScanSucceeds(items: seq<PyValue>, overflow: bool, typeMsg: string, zeroMsg: string)
    ensures ScanLiterals(items, overflow, typeMsg, zeroMsg).error.None? <==> !overflow && AllGood(items)
    decreases |items|
  {
    if items != [] {
      AllGoodTail(items);
      if IsInt(items[0]) && Literal(IntValue(items[0])) != 0 {
        ScanSucceeds(items[1..], overflow || Overflows(IntValue(items[0])), typeMsg, zeroMsg);
      }
    }
  }

  /** On success the loop has added the literals in order and then a 0. */
  lemma {:induction false} ScanAdds(items: seq<PyValue>, typeMsg: string, zeroMsg: string)
    requires AllGood(items)
    ensures ScanLiterals(items, false, typeMsg, zeroMsg).added == Lits(items) + [0]
    decreases |items|
  {
    if items != [] {
      AllGoodTail(items);
      ScanAdds(items[1..], typeMsg, zeroMsg);
      assert Lits(items) == [Literal(IntValue(items[0]))] + Lits(items[1..]);
    }
  }

  /** On failure the loop has added the converted literals of a prefix of the items, none of them 0: no terminator. */
  lemma {:induction false} ScanStopsShort(items: seq<PyValue>, overflow: bool, typeMsg: string, zeroMsg: string)
    requires ScanLiterals(items, overflow, typeMsg, zeroMsg).error.Some?
    ensures var f := ScanLiterals(items, overflow, typeMsg, zeroMsg);
            |f.added| <= |items| &&
            forall k :: 0 <= k < |f.added| ==>
              IsInt(items[k]) && f.added[k] == Literal(IntValue(items[k])) && f.added[k] != 0
    decreases |items|
  {
    if items != [] && IsInt(items[0]) && Literal(IntValue(items[0])) != 0 {
      ScanStopsShort(items[1..], overflow || Overflows(IntValue(items[0])), typeMsg, zeroMsg);
      assert forall k :: 1 <= k < |items| ==> items[k] == items[1..][k - 1];
    }
  }

  /** `_tt_add_picosat_clause(picosat, clause)`: what it adds and how it fails. */
  function ClauseFeed(clause: PyValue): Feed {
    if !clause.PyList? then Feed([], Some(TypeError(ClauseTypeMessage)))
    else if |clause.items| < 1 then Feed([], Some(ValueError(ClauseEmptyMessage)))
    else ScanLiterals(clause.items, false, LiteralTypeMessage, LiteralZeroMessage)
  }

  /** A clause the glue accepts: a non-empty list of good literals. */
  predicate AcceptedClause(clause: PyValue) {
    clause.PyList? && |clause.items| >= 1 && AllGood(clause.items)
  }

  /** The literals of an accepted clause. */
  function ClauseLits(clause: PyValue): (r: seq<int>)
    requires AcceptedClause(clause)
    ensures |r| == |clause.items| && forall k :: 0 <= k < |r| ==> r[k] != 0
  {
    Lits(clause.items)
  }

  /**
   * A clause is accepted exactly when it is a non-empty list of good
   * literals; it then adds its literals in order and one 0, and otherwise
   * adds no 0 at all.
   */
  lemma ClauseAccepted(clause: PyValue)
    ensures ClauseFeed(clause).error.None? <==> AcceptedClause(clause)
    ensures AcceptedClause(clause) ==> ClauseFeed(clause).added == ClauseLits(clause) + [0]
    ensures ClauseFeed(clause).error.Some? ==> forall k :: 0 <= k < |ClauseFeed(clause).added| ==> ClauseFeed(clause).added[k] != 0
  {
    if clause.PyList? && |clause.items| >= 1 {
      var f := ClauseFeed(clause);
      ScanSucceeds(clause.items, false, LiteralTypeMessage, LiteralZeroMessage);
      if f.error.None? {
        ScanAdds(clause.items, LiteralTypeMessage, LiteralZeroMessage);
      } else {
        ScanStopsShort(clause.items, false, LiteralTypeMessage, LiteralZeroMessage);
      }
    }
  }

  /** The clauses loop: each clause in turn, stopping at the first that fails. */
  function ClausesFrom(clauses: seq<PyValue>): Feed
    decreases |clauses|
  {
    if clauses == [] then Feed([], None)
    else
      var f := ClauseFeed(clauses[0]);
      if f.error.Some? then f else Prepend(f.added, ClausesFrom(clauses[1..]))
  }

  /** `_tt_add_picosat_clauses(picosat, clauses)`. */
  function ClausesFeed(clauses: PyValue): Feed {
    if !clauses.PyList? then Feed([], Some(TypeError(ClausesTypeMessage)))
    else if |clauses.items| < 1 then Feed([], Some(ValueError(ClausesEmptyMessage)))
    else ClausesFrom(clauses.items)
  }

  /** A clause list the glue accepts: a non-empty list of accepted clauses. */
  predicate AcceptedClauses(clauses: PyValue) {
    clauses.PyList? && |clauses.items| >= 1 && AllAccepted(clauses.items)
  }

  /** The literal lists of accepted clauses, in order. */
  function ClauseList(clauses: seq<PyValue>): (r: seq<seq<int>>)
    requires AllAccepted(clauses)
    ensures |r| == |clauses| && forall k :: 0 <= k < |r| ==> r[k] == ClauseLits(clauses[k])
  {
    seq(|clauses|, k requires 0 <= k < |clauses| => ClauseLits(clauses[k]))
  }

  // ---------------------------------------------------------------------------
  // The clause stream

  /** The stream cut at its 0s, `cur` being the clause read so far; literals after the last 0 form no clause. */
  function Split(stream: seq<int>, cur: seq<int>): seq<seq<int>>
    decreases |stream|
  {
    if stream == [] then []
    else if stream[0] == 0 then [cur] + Split(stream[1..], [])
    else Split(stream[1..], cur + [stream[0]])
  }

  /** The clauses a stream of `picosat_add` calls denotes. */
  function Clauses(stream: seq<int>): seq<seq<int>> {
    Split(stream, [])
  }

  /** The stream ends at a clause boundary. */
  predicate Complete(stream: seq<int>) {
    stream == [] || stream[|stream| - 1] == 0
  }

  predicate NoZero(c: seq<int>) {
    forall k :: 0 <= k < |c| ==> c[k] != 0
  }

  lemma {:induction false} SplitClause(c: seq<int>, rest: seq<int>, cur: seq<int>)
    requires NoZero(c)
    ensures Split(c + [0] + rest, cur) == [cur + c] + Split(rest, [])
    decreases |c|
  {
    var t := c + [0] + rest;
    if c == [] {
      assert t[1..] == rest;
      assert cur + c == cur;
    } else {
      assert t[0] == c[0];
      assert t[1..] == c[1..] + [0] + rest;
      SplitClause(c[1..], rest, cur + [c[0]]);
      assert cur + [c[0]] + c[1..] == cur + c;
    }
  }

  lemma {:induction false} SplitAppend(s: seq<int>, c: seq<int>, cur: seq<int>)
    requires Complete(s) && NoZero(c) && (s == [] ==> cur == [])
    ensures Split(s + c + [0], cur) == Split(s, cur) + [c]
    decreases |s|
  {
    if s == [] {
      assert s + c + [0] == c + [0] + [];
      SplitClause(c, [], []);
      assert [] + c == c;
    } else {
      var t := s + c + [0];
      assert t[0] == s[0];
      assert t[1..] == s[1..] + c + [0];
      if s[0] == 0 {
        SplitAppend(s[1..], c, []);
      } else {
        SplitAppend(s[1..], c, cur + [s[0]]);
      }
    }
  }

  /** Adding a terminated clause to a complete stream adds exactly that clause. */
  lemma ClausesAppend(s: seq<int>, c: seq<int>)
    requires Complete(s) && NoZero(c)
    ensures Clauses(s + c + [0]) == Clauses(s) + [c]
    ensures Complete(s + c + [0])
  {
    SplitAppend(s, c, []);
  }

  /**
   * A clause list is accepted exactly when it is a non-empty list of
   * accepted clauses; the stream it adds is then complete and denotes
   * exactly those clauses, in order.
   */
  lemma ClausesAccepted(clauses: PyValue)
    ensures ClausesFeed(clauses).error.None? <==> AcceptedClauses(clauses)
    ensures AcceptedClauses(clauses) ==>
      Complete(ClausesFeed(clauses).added) && Clauses(ClausesFeed(clauses).added) == ClauseList(clauses.items)
  {
    if clauses.PyList? && |clauses.items| >= 1 {
      ClausesFromSucceeds(clauses.items);
      if AllAccepted(clauses.items) {
        ClausesFromStream(clauses.items);
      }
    }
  }

  /** Every clause is accepted. */
  predicate AllAccepted(clauses: seq<PyValue>) {
    forall k :: 0 <= k < |clauses| ==> AcceptedClause(clauses[k])
  }

  lemma AllAcceptedTail(clauses: seq<PyValue>)
    requires clauses != []
    ensures AllAccepted(clauses) <==> AcceptedClause(clauses[0]) && AllAccepted(clauses[1..])
  {
    assert forall k :: 1 <= k < |clauses| ==> clauses[k] == clauses[1..][k - 1];
  }

  lemma {:induction false} ClausesFromSucceeds(clauses: seq<PyValue>)
    ensures ClausesFrom(clauses).error.None? <==> AllAccepted(clauses)
    decreases |clauses|
  {
    if clauses != [] {
      ClauseAccepted(clauses[0]);
      AllAcceptedTail(clauses);
      ClausesFromSucceeds(clauses[1..]);
    }
  }

  lemma {:induction false} ClausesFromStream(clauses: seq<PyValue>)
    requires AllAccepted(clauses)
    ensures Complete(ClausesFrom(clauses).added) && Clauses(ClausesFrom(clauses).added) == ClauseList(clauses)
    decreases |clauses|
  {
    if clauses != [] {
      var c := clauses[0];
      ClauseAccepted(c);
      AllAcceptedTail(clauses);
      ClausesFromSucceeds(clauses[1..]);
      ClausesFromStream(clauses[1..]);
      var rest := ClausesFrom(clauses[1..]).added;
      var lits := ClauseLits(c);
      assert ClausesFrom(clauses).added == lits + [0] + rest;
      SplitClause(lits, rest, []);
      assert [] + lits == lits;
      assert ClauseList(clauses) == [lits] + ClauseList(clauses[1..]);
    }
  }

  // ---------------------------------------------------------------------------
  // Assumptions

  /** `_tt_assert_picosat_assumptions(assumptions)`; `None` (or no argument) means no assumptions. */
  function AssumptionsError(assumptions: PyValue): Option<CError> {
    if assumptions.PyNone? then None
    else if !assumptions.PyList? then Some(TypeError(AssumptionsTypeMessage))
    else if |assumptions.items| < 1 then Some(ValueError(AssumptionsEmptyMessage))
    else ScanLiterals(assumptions.items, false, AssumptionTypeMessage, AssumptionZeroMessage).error
  }

  /** The assumptions the glue accepts: none, or a non-empty list of good literals. */
  predicate AcceptedAssumptions(assumptions: PyValue) {
    assumptions.PyNone? ||
    (assumptions.PyList? && |assumptions.items| >= 1 &&
     AllGood(assumptions.items))
  }

  /** What `_tt_add_picosat_assumptions` passes to `picosat_assume`, in order. */
  function AssumptionLits(assumptions: PyValue): (r: seq<int>)
    requires AcceptedAssumptions(assumptions)
    ensures NoZero(r)
  {
    if assumptions.PyNone? then [] else Lits(assumptions.items)
  }

  /** The validation accepts exactly the accepted assumptions. */
  lemma AssumptionsAccepted(assumptions: PyValue)
    ensures AssumptionsError(assumptions).None? <==> AcceptedAssumptions(assumptions)
  {
    if assumptions.PyList? && |assumptions.items| >= 1 {
      ScanSucceeds(assumptions.items, false, AssumptionTypeMessage, AssumptionZeroMessage);
    }
  }

  /** `_tt_setup_picosat`: the assumptions are checked before the clauses are added. */
  function SetupError(clauses: PyValue, assumptions: PyValue): Option<CError> {
    var e := AssumptionsError(assumptions);
    if e.Some? then e else ClausesFeed(clauses).error
  }

  /** With bad assumptions the clauses are never looked at; setup succeeds exactly when both are accepted. */
  lemma SetupChecksAssumptionsFirst(clauses: PyValue, assumptions: PyValue)
    ensures !AcceptedAssumptions(assumptions) ==> SetupError(clauses, assumptions) == AssumptionsError(assumptions)
    ensures SetupError(clauses, assumptions).None? <==> AcceptedAssumptions(assumptions) && AcceptedClauses(clauses)
  {
    AssumptionsAccepted(assumptions);
    ClausesAccepted(clauses);
  }

  // ---------------------------------------------------------------------------
  // Solutions

  /** Literal `lit` is true under the values `picosat_deref` gives for variables 1, 2, .... */
  predicate LitTrue(values: seq<int>, lit: int) {
    (lit > 0 && lit <= |values| && values[lit - 1] > 0) ||
    (lit < 0 && -lit <= |values| && values[-lit - 1] < 0)
  }

  predicate SatisfiesClause(values: seq<int>, c: seq<int>) {
    exists k :: 0 <= k < |c| && LitTrue(values, c[k])
  }

  /** Every variable is 1 (true) or -1 (false). */
  predicate Assignment(values: seq<int>) {
    forall k :: 0 <= k < |values| ==> values[k] == 1 || values[k] == -1
  }

  /** `_tt_picosat_sol_to_py_list`: entry `i - 1` is `deref(i) * i`. */
  function SolutionList(values: seq<int>): (r: seq<int>)
    ensures |r| == |values|
  {
    seq(|values|, k requires 0 <= k < |values| => values[k] * (k + 1))
  }

  /** A solution list holds `i` for a true and `-i` for a false variable `i`, each entry true under the assignment. */
  lemma SolutionListSigns(values: seq<int>)
    requires Assignment(values)
    ensures forall k :: 0 <= k < |values| ==>
      (SolutionList(values)[k] == k + 1 <==> values[k] == 1) &&
      (SolutionList(values)[k] == -(k + 1) <==> values[k] == -1) &&
      LitTrue(values, SolutionList(values)[k])
  {
  }

  /** `_tt_block_sol`'s literals: `-i` for a positive variable `i`, `i` otherwise. */
  function BlockingLits(values: seq<int>): (r: seq<int>)
    ensures |r| == |values| && NoZero(r)
  {
    seq(|values|, k requires 0 <= k < |values| => if values[k] > 0 then -(k + 1) else k + 1)
  }

  /** The blocking clause is the same whether built from the values or from the solution list. */
  lemma BlockingOfSolutionList(values: seq<int>)
    ensures BlockingLits(SolutionList(values)) == BlockingLits(values)
  {
    forall k | 0 <= k < |values| ensures (values[k] * (k + 1) > 0) == (values[k] > 0) {
      MulSign(values[k], k + 1);
    }
  }

  lemma MulSign(a: int, b: int)
    requires b > 0
    ensures (a * b > 0 <==> a > 0) && (a * b < 0 <==> a < 0)
  {
    if a > 0 {
      assert a * b >= b;
    } else if a < 0 {
      assert a * b <= -b;
    }
  }

  /** Between full assignments of the same variables, the blocking clause is false exactly under the assignment it came from. */
  lemma BlockingFalsifiedExactly(values: seq<int>, w: seq<int>)
    requires Assignment(values) && Assignment(w) && |w| == |values|
    ensures !SatisfiesClause(w, BlockingLits(values)) <==> w == values
  {
    var c := BlockingLits(values);
    if w != values {
      var k :| 0 <= k < |w| && w[k] != values[k];
      assert LitTrue(w, c[k]);
    } else {
      forall k | 0 <= k < |c| ensures !LitTrue(w, c[k]) {
        assert c[k] == (if values[k] > 0 then -(k + 1) else k + 1);
      }
    }
  }

  /** Values that satisfy the blocking clause of a solution list give a different solution list. */
  lemma BlockedListDiffers(y: seq<int>, w: seq<int>)
    requires SatisfiesClause(w, BlockingLits(y))
    ensures SolutionList(w) != y
  {
    var c := BlockingLits(y);
    var k :| 0 <= k < |c| && LitTrue(w, c[k]);
    if |w| == |y| {
      MulSign(w[k], k + 1);
      assert SolutionList(w)[k] == w[k] * (k + 1);
    }
  }

  // ---------------------------------------------------------------------------
  // The solver's answers

  const Unknown: int := 0
  const Satisfiable: int := 10
  const Unsatisfiable: int := 20

  /** `picosat_sat`'s result, with `picosat_deref(i)` for the variables 1..`picosat_variables()`. */
  datatype Answer = Answer(code: int, values: seq<int>)

  /** The solver engine: its answer for the added clause stream and the pending assumptions. */
  type Oracle = (seq<int>, seq<int>) -> Answer

  /** A satisfiable answer satisfies every clause of the stream and every assumption. */
  predicate SoundAnswer(stream: seq<int>, assumed: seq<int>, a: Answer) {
    a.code == Satisfiable ==>
      (forall c :: c in Clauses(stream) ==> SatisfiesClause(a.values, c)) &&
      (forall k :: 0 <= k < |assumed| ==> LitTrue(a.values, assumed[k]))
  }

  ghost predicate Sound(oracle: Oracle) {
    forall stream, assumed :: SoundAnswer(stream, assumed, oracle(stream, assumed))
  }

  const UnableMessage := "PicoSAT unable to solve"
  const UnexpectedMessage := "PicoSAT returned unexpected value"

  /** One step of the solution iterator. */
  datatype Step = Yield(solution: seq<int>) | Stop | Raise(error: CError)

  /** `_tt_soliter_next`'s dispatch: a solution, the end of the iteration, or an error. */
  function IterStep(a: Answer): Step {
    if a.code == Satisfiable then Yield(SolutionList(a.values))
    else if a.code == Unsatisfiable || a.code == Unknown then Stop
    else Raise(RuntimeError(UnexpectedMessage))
  }

  /** `sat_one`'s dispatch: a solution, `None`, or an error. */
  function OneResult(a: Answer): Result<Option<seq<int>>, CError> {
    if a.code == Satisfiable then Ok(Some(SolutionList(a.values)))
    else if a.code == Unsatisfiable then Ok(None)
    else if a.code == Unknown then Err(RuntimeError(UnableMessage))
    else Err(RuntimeError(UnexpectedMessage))
  }

  /**
   * `sat_one` and the iterator agree on satisfiable and unsatisfiable
   * answers; on an unknown answer the iterator just stops where `sat_one`
   * raises, and on any other code both raise the same error.
   */
  lemma DispatchesAgree(a: Answer)
    ensures IterStep(a).Yield? <==> OneResult(a).Ok? && OneResult(a).value.Some?
    ensures IterStep(a).Yield? ==> IterStep(a).solution == OneResult(a).value.value
    ensures a.code == Unsatisfiable ==> IterStep(a) == Stop && OneResult(a) == Ok(None)
    ensures a.code == Unknown ==> IterStep(a) == Stop && OneResult(a) == Err(RuntimeError(UnableMessage))
    ensures IterStep(a).Raise? <==> a.code !in {Satisfiable, Unsatisfiable, Unknown}
    ensures IterStep(a).Raise? ==> OneResult(a) == Err(IterStep(a).error)
  {
  }

  /** What `sat_one(clauses, assumptions)` returns or raises. */
  function SatOneResult(clauses: PyValue, assumptions: PyValue, oracle: Oracle): Result<Option<seq<int>>, CError> {
    var e := SetupError(clauses, assumptions);
    if e.Some? then Err(e.value)
    else
      SetupChecksAssumptionsFirst(clauses, assumptions);
      OneResult(oracle(ClausesFeed(clauses).added, AssumptionLits(assumptions)))
  }

  /**
   * With a sound engine, a solution `sat_one` returns is the solution list of
   * values that satisfy every clause given and every assumption.
   */
  lemma SatOneSound(clauses: PyValue, assumptions: PyValue, oracle: Oracle)
    requires Sound(oracle) && SatOneResult(clauses, assumptions, oracle).Ok?
    requires SatOneResult(clauses, assumptions, oracle).value.Some?
    ensures AcceptedClauses(clauses) && AcceptedAssumptions(assumptions)
    ensures var a := oracle(ClausesFeed(clauses).added, AssumptionLits(assumptions));
            SatOneResult(clauses, assumptions, oracle).value.value == SolutionList(a.values) &&
            (forall k :: 0 <= k < |clauses.items| ==> SatisfiesClause(a.values, ClauseLits(clauses.items[k]))) &&
            (forall k :: 0 <= k < |AssumptionLits(assumptions)| ==> LitTrue(a.values, AssumptionLits(assumptions)[k]))
  {
    SetupChecksAssumptionsFirst(clauses, assumptions);
    ClausesAccepted(clauses);
    var stream := ClausesFeed(clauses).added;
    var a := oracle(stream, AssumptionLits(assumptions));
    assert SoundAnswer(stream, AssumptionLits(assumptions), a);
    forall k | 0 <= k < |clauses.items| ensures SatisfiesClause(a.values, ClauseLits(clauses.items[k])) {
      assert Clauses(stream)[k] == ClauseLits(clauses.items[k]);
    }
  }
}
