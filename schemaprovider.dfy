/**
 * The intermediate operator schema of the early equation tools: each schema
 * symbol with its precedence, its 0/1 function and its aliases.
 */
module SchemaProvider {
  import opened Wrappers
  import opened PyValues
  import opened Seqs

  /** The truth value of an int operand, as Python reads it. */
  predicate Truthy(x: int) {
    x != 0
  }

  /** `int(b)` for a truth value. */
  function Bit(b: bool): (r: int)
    ensures 0 <= r <= 1 && (r == 1 <==> b)
  {
    if b then 1 else 0
  }

  /** `tt_and(a, b)`, that is `int(a and b)`: `a` when it is falsy, otherwise `b`. */
  function TtAnd(a: int, b: int): (r: int)
    ensures r == a || r == b
    ensures Truthy(r) <==> Truthy(a) && Truthy(b)
  {
    if a == 0 then 0 else b
  }

  /** `tt_or(a, b)`, that is `int(a or b)`: `a` when it is truthy, otherwise `b`. */
  function TtOr(a: int, b: int): (r: int)
    ensures r == a || r == b
    ensures Truthy(r) <==> Truthy(a) || Truthy(b)
  {
    if a != 0 then a else b
  }

  /** `tt_nand(a, b)`, that is `int(not(a and b))`. */
  function TtNand(a: int, b: int): (r: int)
    ensures 0 <= r <= 1
  {
    Bit(!Truthy(TtAnd(a, b)))
  }

  /** `tt_nor(a, b)`, that is `int(not(a or b))`. */
  function TtNor(a: int, b: int): (r: int)
    ensures 0 <= r <= 1
  {
    Bit(!Truthy(TtOr(a, b)))
  }

  /** `tt_xor(a, b)`, that is `int(a != b)`: it compares the ints themselves. */
  function TtXor(a: int, b: int): (r: int)
    ensures 0 <= r <= 1
  {
    Bit(a != b)
  }

  /** `tt_xnor(a, b)`, that is `int(a == b)`. */
  function TtXnor(a: int, b: int): (r: int)
    ensures 0 <= r <= 1
  {
    Bit(a == b)
  }

  /** On the bits 0 and 1 each function is the Boolean function it is named after. */
  lemma FunctionsOnBits(a: int, b: int)
    requires 0 <= a <= 1 && 0 <= b <= 1
    ensures TtAnd(a, b) == Bit(a == 1 && b == 1)
    ensures TtOr(a, b) == Bit(a == 1 || b == 1)
    ensures TtNand(a, b) == Bit(!(a == 1 && b == 1))
    ensures TtNor(a, b) == Bit(!(a == 1 || b == 1))
    ensures TtXor(a, b) == Bit((a == 1) != (b == 1))
    ensures TtXnor(a, b) == Bit((a == 1) == (b == 1))
  {
  }

  /** NAND, NOR and XNOR are the negations of AND, OR and XOR on any ints. */
  lemma NegatedPairs(a: int, b: int)
    ensures TtNand(a, b) == 1 - Bit(Truthy(TtAnd(a, b)))
    ensures TtNor(a, b) == 1 - Bit(Truthy(TtOr(a, b)))
    ensures TtXnor(a, b) == 1 - TtXor(a, b)
  {
  }

  /** Which function an operator stores. */
  datatype BoolFunc = TtUncallable | TtAndFn | TtNandFn | TtOrFn | TtNorFn | TtXorFn | TtXnorFn

  /** The error `tt_uncallable` raises. */
  datatype SchemaError = RuntimeError

  /** `BooleanOperator(precedence_in, bool_func_in, *args)`. */
  datatype BooleanOperator = BooleanOperator(precedence: nat, boolFunc: BoolFunc, equivalentSymbols: seq<string>)
  {
    /**
     * `result(a, b)`: the stored function applied to `a` and `b`. NOT's
     * function is `tt_uncallable`, which always raises.
     */
    function Result(a: int, b: int): (r: Result<int, SchemaError>)
      ensures r.Err? <==> boolFunc == TtUncallable
      ensures r.Ok? ==> 0 <= r.value <= 1 || r.value == a || r.value == b
    {
      match boolFunc
      case TtUncallable => Err(RuntimeError)
      case TtAndFn => Ok(TtAnd(a, b))
      case TtNandFn => Ok(TtNand(a, b))
      case TtOrFn => Ok(TtOr(a, b))
      case TtNorFn => Ok(TtNor(a, b))
      case TtXorFn => Ok(TtXor(a, b))
      case TtXnorFn => Ok(TtXnor(a, b))
    }
  }

  /** `precedence`. */
  const Zero: nat := 0
  const Low: nat := 1
  const Medium: nat := 2
  const High: nat := 3

  /** `SYM_NOT` ... `SYM_NOR`. */
  const SymNot := "~"
  const SymXor := "+"
  const SymXnor := "@"
  const SymAnd := "&"
  const SymNand := "$"
  const SymOr := "|"
  const SymNor := "%"

  const NotOp := BooleanOperator(High, TtUncallable, ["not", "NOT", "~", "!"])
  const XorOp := BooleanOperator(Medium, TtXorFn, ["xor", "XOR"])
  const XnorOp := BooleanOperator(Medium, TtXnorFn, ["xnor", "XNOR", "nxor", "NXOR"])
  const AndOp := BooleanOperator(Low, TtAndFn, ["and", "AND", "&&", "&", "/\\"])
  const NandOp := BooleanOperator(Low, TtNandFn, ["nand", "NAND"])
  const OrOp := BooleanOperator(Zero, TtOrFn, ["or", "OR", "||", "|", "\\/"])
  const NorOp := BooleanOperator(Zero, TtNorFn, ["nor", "NOR"])

  /** `schema`. */
  const Schema: map<string, BooleanOperator> := map[
    SymNot := NotOp, SymXor := XorOp, SymXnor := XnorOp, SymAnd := AndOp,
    SymNand := NandOp, SymOr := OrOp, SymNor := NorOp]

  /** The keys of `schema` in source order, and the operators beside them. */
  const SchemaSymbols: seq<string> := [SymNot, SymXor, SymXnor, SymAnd, SymNand, SymOr, SymNor]
  const SchemaOps: seq<BooleanOperator> := [NotOp, XorOp, XnorOp, AndOp, NandOp, OrOp, NorOp]

  /** `schema_search_ordered_list`. */
  const SchemaSearchOrderedList: seq<string> := [SymXnor, SymXor, SymNor, SymNand, SymAnd, SymOr, SymNot]

  /** Each schema symbol denotes the operator listed beside it, and there are no other keys. */
  lemma SchemaEntries()
    ensures Schema.Keys == {SymNot, SymXor, SymXnor, SymAnd, SymNand, SymOr, SymNor}
    ensures forall i :: 0 <= i < |SchemaSymbols| ==> Schema[SchemaSymbols[i]] == SchemaOps[i]
    ensures |Schema| == 7
  {
  }

  /** NOT binds tightest, then XOR/XNOR, then AND/NAND, then OR/NOR. */
  lemma Precedences()
    ensures Schema[SymNot].precedence == High
    ensures Schema[SymXor].precedence == Schema[SymXnor].precedence == Medium
    ensures Schema[SymAnd].precedence == Schema[SymNand].precedence == Low
    ensures Schema[SymOr].precedence == Schema[SymNor].precedence == Zero
    ensures Zero < Low < Medium < High
  {
  }

  /**
   * `schema[sym].result(a, b)` on bits: the named Boolean function as 0/1,
   * and a `RuntimeError` for NOT.
   */
  lemma SchemaResults(a: int, b: int)
    requires 0 <= a <= 1 && 0 <= b <= 1
    ensures Schema[SymNot].Result(a, b) == Err(RuntimeError)
    ensures Schema[SymAnd].Result(a, b) == Ok(Bit(a == 1 && b == 1))
    ensures Schema[SymNand].Result(a, b) == Ok(Bit(!(a == 1 && b == 1)))
    ensures Schema[SymOr].Result(a, b) == Ok(Bit(a == 1 || b == 1))
    ensures Schema[SymNor].Result(a, b) == Ok(Bit(!(a == 1 || b == 1)))
    ensures Schema[SymXor].Result(a, b) == Ok(Bit(a != b))
    ensures Schema[SymXnor].Result(a, b) == Ok(Bit(a == b))
  {
    FunctionsOnBits(a, b);
  }

  /** No string is in both lists. */
  predicate Disjoint(xs: seq<string>, ys: seq<string>) {
    forall k, l :: 0 <= k < |xs| && 0 <= l < |ys| ==> xs[k] != ys[l]
  }

  /** No alias string appears under two different schema symbols. */
  lemma AliasesDisjoint()
    ensures forall i, j :: 0 <= i < j < |SchemaOps| ==>
      Disjoint(SchemaOps[i].equivalentSymbols, SchemaOps[j].equivalentSymbols)
  {
    NotAndXorAliases();
    XnorAndAndAliases();
    NandAndOrAliases();
  }

  lemma NotAndXorAliases()
    ensures forall j :: 1 <= j < |SchemaOps| ==> Disjoint(NotOp.equivalentSymbols, SchemaOps[j].equivalentSymbols)
    ensures forall j :: 2 <= j < |SchemaOps| ==> Disjoint(XorOp.equivalentSymbols, SchemaOps[j].equivalentSymbols)
  {
  }

  lemma XnorAndAndAliases()
    ensures forall j :: 3 <= j < |SchemaOps| ==> Disjoint(XnorOp.equivalentSymbols, SchemaOps[j].equivalentSymbols)
    ensures forall j :: 4 <= j < |SchemaOps| ==> Disjoint(AndOp.equivalentSymbols, SchemaOps[j].equivalentSymbols)
  {
  }

  lemma NandAndOrAliases()
    ensures forall j :: 5 <= j < |SchemaOps| ==> Disjoint(NandOp.equivalentSymbols, SchemaOps[j].equivalentSymbols)
    ensures Disjoint(OrOp.equivalentSymbols, NorOp.equivalentSymbols)
  {
  }

  /** The search list holds each of the seven schema symbols exactly once. */
  lemma SearchListIsPermutation()
    ensures Distinct(SchemaSearchOrderedList) && |SchemaSearchOrderedList| == 7
    ensures forall i :: 0 <= i < |SchemaSearchOrderedList| ==> SchemaSearchOrderedList[i] in Schema
    ensures forall s :: s in Schema ==> s in SchemaSearchOrderedList
  {
  }

  /** `x` occurs in `l` somewhere before `y`. */
  predicate Before(l: seq<string>, x: string, y: string) {
    exists i, j :: 0 <= i < j < |l| && l[i] == x && l[j] == y
  }

  /**
   * XNOR is searched before XOR, NAND before AND and NOR before OR (see
   * `LongerAliasesContainShorter` for why the order matters); as the list
   * has no repeats, each symbol has only the one position.
   */
  lemma SearchOrderPutsLongerFirst()
    ensures Before(SchemaSearchOrderedList, SymXnor, SymXor)
    ensures Before(SchemaSearchOrderedList, SymNand, SymAnd)
    ensures Before(SchemaSearchOrderedList, SymNor, SymOr)
  {
    var l := SchemaSearchOrderedList;
    assert l[0] == SymXnor && l[1] == SymXor;
    assert l[3] == SymNand && l[4] == SymAnd;
    assert l[2] == SymNor && l[5] == SymOr;
  }

  /** In each of those pairs an alias of the first operator contains an alias of the second. */
  lemma LongerAliasesContainShorter()
    ensures Contains(XnorOp.equivalentSymbols[2], XorOp.equivalentSymbols[0])
    ensures Contains(NandOp.equivalentSymbols[0], AndOp.equivalentSymbols[0])
    ensures Contains(NorOp.equivalentSymbols[0], OrOp.equivalentSymbols[0])
  {
    assert OccursAt("nxor", "xor", 1);
    assert OccursAt("nand", "and", 1);
    assert OccursAt("nor", "or", 1);
  }
}
