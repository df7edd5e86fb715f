/** The older operator table of the package: precedences, lambdas, aliases and delimiters. */
module LegacyOperators {
  import opened Seqs
  import Grammar
  import Operators

  /** Which lambda an operator stores. */
  datatype EvalFunc = NotFn | XorFn | XnorFn | AndFn | NandFn | OrFn | NorFn

  /** `BooleanOperator(precedence, eval_func)`. */
  datatype BooleanOperator = BooleanOperator(precedence: nat, evalFunc: EvalFunc)

  /** `PRECEDENCE`. */
  const Zero: nat := 0
  const Low: nat := 1
  const Medium: nat := 2
  const High: nat := 3

  const TtNotOp := BooleanOperator(High, NotFn)
  const TtXorOp := BooleanOperator(Medium, XorFn)
  const TtXnorOp := BooleanOperator(Medium, XnorFn)
  const TtAndOp := BooleanOperator(Low, AndFn)
  const TtNandOp := BooleanOperator(Low, NandFn)
  const TtOrOp := BooleanOperator(Zero, OrFn)
  const TtNorOp := BooleanOperator(Zero, NorFn)

  /** The unary lambda `lambda a: not a`. */
  function EvalUnary(f: EvalFunc, a: bool): (r: bool)
    requires f == NotFn
    ensures r != a
  {
    !a
  }

  /**
   * The binary lambdas exactly as the table writes them: XOR's lambda is
   * `a == b` and XNOR's is `a != b`, the two swapped.
   */
  function EvalAsWritten(f: EvalFunc, a: bool, b: bool): bool
    requires f != NotFn
  {
    match f
    case XorFn => a == b
    case XnorFn => a != b
    case AndFn => a && b
    case NandFn => !(a && b)
    case OrFn => a || b
    case NorFn => !(a || b)
  }

  /** As written, XOR of true and false is false and XNOR of them is true. */
  lemma XorLambdasSwapped()
    ensures !EvalAsWritten(XorFn, true, false) && EvalAsWritten(XnorFn, true, false)
    ensures forall a: bool, b: bool :: EvalAsWritten(XorFn, a, b) == !EvalAsWritten(XnorFn, a, b)
  {
  }

  /** The binary lambdas with XOR and XNOR as their names mean. */
  function Eval(f: EvalFunc, a: bool, b: bool): bool
    requires f != NotFn
  {
    match f
    case XorFn => a != b
    case XnorFn => a == b
    case AndFn => a && b
    case NandFn => !(a && b)
    case OrFn => a || b
    case NorFn => !(a || b)
  }

  /** The operator of the same name in the current table. */
  function Current(f: EvalFunc): (op: Operators.BooleanOperator)
    ensures op in Operators.AllOperators && op != Operators.ImplOp
  {
    match f
    case NotFn => Operators.NotOp
    case XorFn => Operators.XorOp
    case XnorFn => Operators.XnorOp
    case AndFn => Operators.AndOp
    case NandFn => Operators.NandOp
    case OrFn => Operators.OrOp
    case NorFn => Operators.NorOp
  }

  /**
   * The corrected lambdas agree with the current table on every input, and
   * so do the precedences; the lambdas as written agree everywhere except
   * on XOR and XNOR, where they always disagree.
   */
  lemma EvalMatchesCurrentTable(op: BooleanOperator, a: bool, b: bool)
    requires op in {TtNotOp, TtXorOp, TtXnorOp, TtAndOp, TtNandOp, TtOrOp, TtNorOp}
    ensures op.precedence == Current(op.evalFunc).precedence
    ensures op.evalFunc == NotFn ==> EvalUnary(op.evalFunc, a) == Operators.EvalUnary(Current(op.evalFunc).evalFunc, a)
    ensures op.evalFunc != NotFn ==>
      Eval(op.evalFunc, a, b) == Operators.EvalBinary(Current(op.evalFunc).evalFunc, a, b)
    ensures op.evalFunc != NotFn ==>
      (EvalAsWritten(op.evalFunc, a, b) == Operators.EvalBinary(Current(op.evalFunc).evalFunc, a, b)
       <==> op.evalFunc != XorFn && op.evalFunc != XnorFn)
  {
  }

  /** `OPERATOR_MAPPING`: its keys in source order, and the operators beside them. */
  const LegacyStrs: seq<string> := [
    "not", "NOT", "~", "!", "xor", "XOR", "xnor", "XNOR", "nxor", "NXOR",
    "and", "AND", "&&", "&", "/\\", "nand", "NAND", "or", "OR", "||", "|", "\\/", "nor", "NOR"]
  const LegacyOps: seq<BooleanOperator> := [
    TtNotOp, TtNotOp, TtNotOp, TtNotOp, TtXorOp, TtXorOp, TtXnorOp, TtXnorOp, TtXnorOp, TtXnorOp,
    TtAndOp, TtAndOp, TtAndOp, TtAndOp, TtAndOp, TtNandOp, TtNandOp, TtOrOp, TtOrOp, TtOrOp, TtOrOp, TtOrOp,
    TtNorOp, TtNorOp]
  const OperatorMapping: map<string, BooleanOperator> := DictOf(LegacyStrs, LegacyOps)

  /** `DELIMITERS` and `CONSTANT_VALUES`. */
  const Delimiters: set<char> := {' ', '(', ')'}
  const ConstantValues: set<string> := {"0", "1"}

  lemma LegacyStrsDistinct()
    ensures |LegacyStrs| == |LegacyOps| == 24 && Distinct(LegacyStrs)
  {
  }

  /** The mapping has exactly the 24 alias strings as keys, each denoting the operator listed beside it. */
  lemma MappingEntries()
    ensures OperatorMapping.Keys == set k | k in LegacyStrs
    ensures |OperatorMapping| == 24
    ensures forall i :: 0 <= i < |LegacyStrs| ==> OperatorMapping[LegacyStrs[i]] == LegacyOps[i]
  {
    LegacyStrsDistinct();
    DistinctCard(LegacyStrs);
    forall i | 0 <= i < |LegacyStrs|
      ensures OperatorMapping[LegacyStrs[i]] == LegacyOps[i]
    {
      DictOfValue(LegacyStrs, LegacyOps, i);
    }
  }

  /** The table has no implication operator: none of the current table's implication strings is a key. */
  lemma MappingHasNoImplication()
    ensures "impl" !in OperatorMapping && "IMPL" !in OperatorMapping && "->" !in OperatorMapping
  {
    NotAKey("impl");
    NotAKey("IMPL");
    NotAKey("->");
  }

  lemma NotAKey(k: string)
    requires forall i :: 0 <= i < |LegacyStrs| ==> LegacyStrs[i] != k
    ensures k !in OperatorMapping
  {
    MappingEntries();
  }

  /** NOT binds tightest, then XOR/XNOR, then AND/NAND, then OR/NOR. */
  lemma Precedences()
    ensures TtNotOp.precedence == 3 && TtXorOp.precedence == TtXnorOp.precedence == 2
    ensures TtAndOp.precedence == TtNandOp.precedence == 1 && TtOrOp.precedence == TtNorOp.precedence == 0
  {
  }

  /** The delimiters and constants are those of the current grammar. */
  lemma SameDelimitersAndConstants()
    ensures Delimiters == Grammar.Delimiters && ConstantValues == Grammar.ConstantValues
  {
  }
}
