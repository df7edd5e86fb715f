/**
 * The PicoSAT C extension: a solver handle fed literal by literal, the
 * static helpers that validate Python arguments and feed the handle, the
 * solution iterator of `sat_all`, and `sat_one`. The engine itself
 * (`picosat_sat`, `picosat_deref`, `picosat_variables`) is an `Oracle`.
 */
module PicoSat {
  import opened Wrappers
  import opened PyValues
  import opened SatEncoding

  /**
   * A PicoSAT instance: every literal passed to `picosat_add`, the
   * assumptions passed to `picosat_assume` since the last `picosat_sat`,
   * the last answer, and whether `picosat_reset` has not yet been called.
   */
  class Solver {
    var stream: seq<int>
    var assumed: seq<int>
    var answer: Answer
    var live: bool

    /** `picosat_minit`: an empty instance. */
    constructor ()
      ensures stream == [] && assumed == [] && answer == Answer(Unknown, []) && live
    {
      stream := [];
      assumed := [];
      answer := Answer(Unknown, []);
      live := true;
    }

    /** `picosat_add(picosat, lit)`. */
    method Add(lit: int)
      requires live
      modifies this
      ensures stream == old(stream) + [lit]
      ensures assumed == old(assumed) && answer == old(answer) && live
    {
      stream := stream + [lit];
    }

    /** `picosat_assume(picosat, lit)`: an assumption for the next call of `picosat_sat` only. */
    method Assume(lit: int)
      requires live
      modifies this
      ensures assumed == old(assumed) + [lit]
      ensures stream == old(stream) && answer == old(answer) && live
    {
      assumed := assumed + [lit];
    }

    /** `picosat_sat(picosat, -1)`: the engine's answer, after which the assumptions are dropped. */
    method Sat(oracle: Oracle) returns (code: int)
      requires live
      modifies this
      ensures answer == oracle(old(stream), old(assumed)) && code == answer.code
      ensures stream == old(stream) && assumed == [] && live
    {
      answer := oracle(stream, assumed);
      assumed := [];
      code := answer.code;
    }

    /** `picosat_variables(picosat)`. */
    function Variables(): nat
      reads this
    {
      |answer.values|
    }

    /** `picosat_deref(picosat, i)`. */
    function Deref(i: int): int
      requires 1 <= i <= Variables()
      reads this
    {
      answer.values[i - 1]
    }

    /** `picosat_reset(picosat)`. */
    method Reset()
      modifies this
      ensures !live
      ensures stream == old(stream) && assumed == old(assumed) && answer == old(answer)
    {
      live := false;
    }
  }

  /** One turn of a literal loop. */
  lemma ScanStep(items: seq<PyValue>, k: nat, overflow: bool, typeMsg: string, zeroMsg: string)
    requires k < |items|
    ensures ScanLiterals(items[k..], overflow, typeMsg, zeroMsg) ==
      if !IsInt(items[k]) then Feed([], Some(TypeError(typeMsg)))
      else if Literal(IntValue(items[k])) == 0 then Feed([], Some(ValueError(zeroMsg)))
      else Prepend([Literal(IntValue(items[k]))],
                   ScanLiterals(items[k + 1..], overflow || Overflows(IntValue(items[k])), typeMsg, zeroMsg))
  {
    assert items[k..][1..] == items[k + 1..];
  }

  /** One turn of the clauses loop. */
  lemma ClausesStep(items: seq<PyValue>, k: nat)
    requires k < |items|
    ensures ClausesFrom(items[k..]) ==
      if ClauseFeed(items[k]).error.Some? then ClauseFeed(items[k])
      else Prepend(ClauseFeed(items[k]).added, ClausesFrom(items[k + 1..]))
  {
    assert items[k..][1..] == items[k + 1..];
  }

  lemma ConcatAssoc(a: seq<int>, b: seq<int>, c: seq<int>)
    ensures a + b + c == a + (b + c)
  {
  }

  lemma PrependTwice(a: seq<int>, b: seq<int>, f: Feed)
    ensures Prepend(a, Prepend(b, f)) == Prepend(a + b, f)
  {
    assert a + (b + f.added) == a + b + f.added;
  }

  /** `_tt_add_picosat_clause(picosat, clause)`: the literals in order, then a 0 only if all were good. */
  method AddClause(s: Solver, clause: PyValue) returns (err: Option<CError>)
    requires s.live
    modifies s
    ensures s.stream == old(s.stream) + ClauseFeed(clause).added
    ensures err == ClauseFeed(clause).error
    ensures s.assumed == old(s.assumed) && s.answer == old(s.answer) && s.live
  {
    if !clause.PyList? {
      return Some(TypeError(ClauseTypeMessage));
    }
    if |clause.items| < 1 {
      return Some(ValueError(ClauseEmptyMessage));
    }
    var items := clause.items;
    var overflow := false;
    ghost var added: seq<int> := [];
    assert items[0..] == items;
    var k := 0;
    while k < |items|
      invariant 0 <= k <= |items|
      invariant s.stream == old(s.stream) + added
      invariant ClauseFeed(clause) == Prepend(added, ScanLiterals(items[k..], overflow, LiteralTypeMessage, LiteralZeroMessage))
      invariant s.assumed == old(s.assumed) && s.answer == old(s.answer) && s.live
    {
      ScanStep(items, k, overflow, LiteralTypeMessage, LiteralZeroMessage);
      var literal := items[k];
      if !IsInt(literal) {
        return Some(TypeError(LiteralTypeMessage));
      }
      var v := IntValue(literal);
      var l := ToCInt(AsLong(v));
      if l == 0 {
        return Some(ValueError(LiteralZeroMessage));
      }
      PrependTwice(added, [l], ScanLiterals(items[k + 1..], overflow || Overflows(v), LiteralTypeMessage, LiteralZeroMessage));
      overflow := overflow || Overflows(v);
      s.Add(l);
      added := added + [l];
      k := k + 1;
    }
    assert items[k..] == [];
    if overflow {
      return Some(OverflowError);
    }
    s.Add(0);
    return None;
  }

  /** `_tt_add_picosat_clauses(picosat, clauses)`: each clause in turn, stopping at the first that fails. */
  method AddClauses(s: Solver, clauses: PyValue) returns (err: Option<CError>)
    requires s.live
    modifies s
    ensures s.stream == old(s.stream) + ClausesFeed(clauses).added
    ensures err == ClausesFeed(clauses).error
    ensures s.assumed == old(s.assumed) && s.answer == old(s.answer) && s.live
  {
    if !clauses.PyList? {
      return Some(TypeError(ClausesTypeMessage));
    }
    if |clauses.items| < 1 {
      return Some(ValueError(ClausesEmptyMessage));
    }
    var items := clauses.items;
    ghost var spec := ClausesFrom(items);
    ghost var added: seq<int> := [];
    assert items[0..] == items;
    var k := 0;
    while k < |items|
      invariant 0 <= k <= |items|
      invariant s.stream == old(s.stream) + added
      invariant spec == Prepend(added, ClausesFrom(items[k..]))
      invariant s.assumed == old(s.assumed) && s.answer == old(s.answer) && s.live
    {
      ghost var f := ClauseFeed(items[k]);
      ClausesStep(items, k);
      ghost var before := s.stream;
      var e := AddClause(s, items[k]);
      assert s.stream == before + f.added;
      ConcatAssoc(old(s.stream), added, f.added);
      if e.Some? {
        return e;
      }
      PrependTwice(added, f.added, ClausesFrom(items[k + 1..]));
      added := added + f.added;
      k := k + 1;
    }
    assert items[k..] == [];
    assert added + [] == added;
    return None;
  }

  /** `_tt_assert_picosat_assumptions(assumptions)`: checks every assumption, feeding nothing. */
  method AssertAssumptions(assumptions: PyValue) returns (err: Option<CError>)
    ensures err == AssumptionsError(assumptions)
  {
    if assumptions.PyNone? {
      return None;
    }
    if !assumptions.PyList? {
      return Some(TypeError(AssumptionsTypeMessage));
    }
    if |assumptions.items| < 1 {
      return Some(ValueError(AssumptionsEmptyMessage));
    }
    var items := assumptions.items;
    var overflow := false;
    assert items[0..] == items;
    var k := 0;
    while k < |items|
      invariant 0 <= k <= |items|
      invariant AssumptionsError(assumptions) ==
        ScanLiterals(items[k..], overflow, AssumptionTypeMessage, AssumptionZeroMessage).error
    {
      ScanStep(items, k, overflow, AssumptionTypeMessage, AssumptionZeroMessage);
      var assumption := items[k];
      if !IsInt(assumption) {
        return Some(TypeError(AssumptionTypeMessage));
      }
      var v := IntValue(assumption);
      var a := ToCInt(AsLong(v));
      if a == 0 {
        return Some(ValueError(AssumptionZeroMessage));
      }
      overflow := overflow || Overflows(v);
      k := k + 1;
    }
    assert items[k..] == [];
    if overflow {
      return Some(OverflowError);
    }
    return None;
  }

  /** `_tt_add_picosat_assumptions(picosat, assumptions)`, on assumptions already checked. */
  method AddAssumptions(s: Solver, assumptions: PyValue)
    requires s.live && AcceptedAssumptions(assumptions)
    modifies s
    ensures s.assumed == old(s.assumed) + AssumptionLits(assumptions)
    ensures s.stream == old(s.stream) && s.answer == old(s.answer) && s.live
  {
    if assumptions.PyNone? {
      return;
    }
    var items := assumptions.items;
    var k := 0;
    while k < |items|
      invariant 0 <= k <= |items|
      invariant s.assumed == old(s.assumed) + AssumptionLits(assumptions)[..k]
      invariant s.stream == old(s.stream) && s.answer == old(s.answer) && s.live
    {
      assert AssumptionLits(assumptions)[..k + 1] == AssumptionLits(assumptions)[..k] + [AssumptionLits(assumptions)[k]];
      s.Assume(ToCInt(AsLong(IntValue(items[k]))));
      k := k + 1;
    }
    assert AssumptionLits(assumptions)[..k] == AssumptionLits(assumptions);
  }

  /**
   * `_tt_setup_picosat(args, kwds, iter)`: a new instance; the assumptions
   * checked and assumed; then the clauses added. Every error resets the
   * instance.
   */
  method Setup(clauses: PyValue, assumptions: PyValue) returns (s: Solver, err: Option<CError>)
    ensures fresh(s)
    ensures err == SetupError(clauses, assumptions)
    ensures err.None? ==>
      s.live && AcceptedAssumptions(assumptions) && AcceptedClauses(clauses) &&
      s.stream == ClausesFeed(clauses).added && s.assumed == AssumptionLits(assumptions) &&
      s.answer == Answer(Unknown, [])
    ensures err.Some? ==> !s.live
  {
    s := new Solver();
    err := AssertAssumptions(assumptions);
    if err.Some? {
      s.Reset();
      return;
    }
    SetupChecksAssumptionsFirst(clauses, assumptions);
    AssumptionsAccepted(assumptions);
    AddAssumptions(s, assumptions);
    err := AddClauses(s, clauses);
    if err.Some? {
      s.Reset();
      return;
    }
  }

  /** `_tt_picosat_sol_to_py_list(picosat)`: entry `i - 1` of the list is `deref(i) * i`. */
  method SolToPyList(s: Solver) returns (list: seq<int>)
    ensures list == SolutionList(s.answer.values)
  {
    var numVars := s.Variables();
    var mem := new int[numVars];
    for i := 1 to numVars + 1
      invariant forall k :: 0 <= k < i - 1 ==> mem[k] == SolutionList(s.answer.values)[k]
    {
      var v := s.Deref(i);
      mem[i - 1] := v * i;
    }
    list := mem[..];
  }

  /**
   * `_tt_block_sol(picosat, mem)`: each variable's sign recorded in `mem`,
   * then the literal that contradicts it added for each variable, then 0.
   */
  method BlockSol(s: Solver)
    requires s.live
    modifies s
    ensures s.stream == old(s.stream) + BlockingLits(s.answer.values) + [0]
    ensures s.assumed == old(s.assumed) && s.answer == old(s.answer) && s.live
  {
    var numVars := s.Variables();
    ghost var block := BlockingLits(s.answer.values);
    var mem := new int[numVars + 1];
    for i := 1 to numVars + 1
      modifies mem
      invariant forall k :: 1 <= k < i ==> mem[k] == (if s.Deref(k) > 0 then 1 else -1)
    {
      mem[i] := if s.Deref(i) > 0 then 1 else -1;
    }
    for i := 1 to numVars + 1
      modifies s
      invariant s.stream == old(s.stream) + block[..i - 1]
      invariant s.assumed == old(s.assumed) && s.answer == old(s.answer) && s.live
    {
      assert block[..i] == block[..i - 1] + [block[i - 1]];
      s.Add(if mem[i] < 0 then i else -i);
    }
    assert block[..numVars] == block;
    s.Add(0);
  }

  /**
   * The object `sat_all` returns: the solver and the assumptions, and, as
   * ghost state, the solutions it has yielded so far.
   */
  class SolIter {
    const solver: Solver
    const assumptions: PyValue
    ghost var yielded: seq<seq<int>>

    /**
     * The assumptions were accepted, the stream ends at a clause boundary,
     * and it holds the blocking clause of every solution yielded.
     */
    ghost predicate Valid()
      reads this, solver
    {
      AcceptedAssumptions(assumptions) && Complete(solver.stream) &&
      forall k :: 0 <= k < |yielded| ==> BlockingLits(yielded[k]) in Clauses(solver.stream)
    }

    constructor (s: Solver, assumptions: PyValue)
      requires AcceptedAssumptions(assumptions) && Complete(s.stream)
      ensures solver == s && this.assumptions == assumptions && yielded == [] && Valid()
    {
      solver := s;
      this.assumptions := assumptions;
      yielded := [];
    }

    /**
     * `_tt_soliter_next(iter)`: on a satisfiable answer the solution is
     * returned, its blocking clause added and the assumptions assumed
     * again; unsatisfiable and unknown end the iteration; any other code
     * resets the solver and raises. With a sound engine no solution is
     * yielded twice.
     */
    method Next(oracle: Oracle) returns (r: Step)
      requires Valid() && solver.live
      modifies this, solver
      ensures Valid()
      ensures var a := oracle(old(solver.stream), old(solver.assumed));
              r == IterStep(a) && solver.answer == a &&
              solver.stream == old(solver.stream) + (if a.code == Satisfiable then BlockingLits(a.values) + [0] else []) &&
              solver.assumed == (if a.code == Satisfiable then AssumptionLits(assumptions) else []) &&
              solver.live == (a.code in {Satisfiable, Unsatisfiable, Unknown})
      ensures r.Yield? ==> yielded == old(yielded) + [r.solution]
      ensures !r.Yield? ==> yielded == old(yielded)
      ensures r.Yield? && Sound(oracle) ==> r.solution !in old(yielded)
    {
      ghost var a := oracle(solver.stream, solver.assumed);
      var code := solver.Sat(oracle);
      if code == Satisfiable {
        var list := SolToPyList(solver);
        if Sound(oracle) {
          NoRepeat(old(solver.stream), old(solver.assumed), a, yielded);
        }
        BlockOfSolution(solver.stream, solver.answer.values);
        BlockSol(solver);
        AddAssumptions(solver, assumptions);
        yielded := yielded + [list];
        r := Yield(list);
      } else if code == Unsatisfiable || code == Unknown {
        r := Stop;
      } else {
        solver.Reset();
        r := Raise(RuntimeError(UnexpectedMessage));
      }
    }
  }

  /** Adding the blocking clause of a solution keeps the stream complete and puts the clause of its solution list in it. */
  lemma BlockOfSolution(stream: seq<int>, values: seq<int>)
    requires Complete(stream)
    ensures Clauses(stream + BlockingLits(values) + [0]) == Clauses(stream) + [BlockingLits(SolutionList(values))]
    ensures Complete(stream + BlockingLits(values) + [0])
  {
    ClausesAppend(stream, BlockingLits(values));
    BlockingOfSolutionList(values);
  }

  /** A sound satisfiable answer avoids every solution whose blocking clause is in the stream. */
  lemma NoRepeat(stream: seq<int>, assumed: seq<int>, a: Answer, yielded: seq<seq<int>>)
    requires SoundAnswer(stream, assumed, a) && a.code == Satisfiable
    requires forall k :: 0 <= k < |yielded| ==> BlockingLits(yielded[k]) in Clauses(stream)
    ensures SolutionList(a.values) !in yielded
  {
    forall k | 0 <= k < |yielded| ensures SolutionList(a.values) != yielded[k] {
      BlockedListDiffers(yielded[k], a.values);
    }
  }

  /** `sat_all(clauses, assumptions)`: the setup, then an iterator over it; no iterator on an error. */
  method SatAll(clauses: PyValue, assumptions: PyValue) returns (it: SolIter?, err: Option<CError>)
    ensures err == SetupError(clauses, assumptions)
    ensures err.None? <==> it != null
    ensures it != null ==>
      fresh(it) && fresh(it.solver) && it.assumptions == assumptions && it.Valid() && it.solver.live && it.yielded == [] &&
      it.solver.stream == ClausesFeed(clauses).added && it.solver.assumed == AssumptionLits(assumptions)
  {
    var s;
    s, err := Setup(clauses, assumptions);
    if err.Some? {
      return null, err;
    }
    ClausesAccepted(clauses);
    it := new SolIter(s, assumptions);
  }

  /** `sat_one(clauses, assumptions)`: the setup, one call of the engine, and the solver reset on every path. */
  method SatOne(clauses: PyValue, assumptions: PyValue, oracle: Oracle) returns (r: Result<Option<seq<int>>, CError>)
    ensures r == SatOneResult(clauses, assumptions, oracle)
  {
    var s, err := Setup(clauses, assumptions);
    if err.Some? {
      return Err(err.value);
    }
    var code := s.Sat(oracle);
    if code == Satisfiable {
      var list := SolToPyList(s);
      s.Reset();
      return Ok(Some(list));
    } else if code == Unsatisfiable {
      s.Reset();
      return Ok(None);
    } else if code == Unknown {
      s.Reset();
      return Err(RuntimeError(UnableMessage));
    } else {
      s.Reset();
      return Err(RuntimeError(UnexpectedMessage));
    }
  }
}
