/** tt's eight built-in Boolean operators and the strings that denote them. */
module Operators {
  import opened Wrappers
  import opened PyValues
  import Grammar
  import opened Seqs

  /** The operator's evaluation lambda. */
  datatype EvalFunc = NotFn | ImplFn | XorFn | XnorFn | AndFn | NandFn | OrFn | NorFn

  /** `BooleanOperator(precedence, eval_func, default_symbol_str, default_plain_english_str)`. */
  datatype BooleanOperator = BooleanOperator(
    precedence: nat,
    evalFunc: EvalFunc,
    defaultSymbolStr: Option<string>,
    defaultPlainEnglishStr: string)
  {
    /** `str(op)`. */
    function Str(): string {
      defaultPlainEnglishStr
    }

    /** `repr(op)`. */
    function Repr(): string {
      "<BooleanOperator \"" + defaultPlainEnglishStr + "\">"
    }
  }

  /** `_PRECEDENCE`. */
  const Zero: nat := 0
  const Low: nat := 1
  const Medium: nat := 2
  const High: nat := 3

  const NotOp := BooleanOperator(High, NotFn, Some("~"), "not")
  const ImplOp := BooleanOperator(Medium, ImplFn, Some("->"), "impl")
  const XorOp := BooleanOperator(Medium, XorFn, None, "xor")
  const XnorOp := BooleanOperator(Medium, XnorFn, None, "xnor")
  const AndOp := BooleanOperator(Low, AndFn, Some("/\\"), "and")
  const NandOp := BooleanOperator(Low, NandFn, None, "nand")
  const OrOp := BooleanOperator(Zero, OrFn, Some("\\/"), "or")
  const NorOp := BooleanOperator(Zero, NorFn, None, "nor")

  const AllOperators: set<BooleanOperator> :=
    {NotOp, ImplOp, XorOp, XnorOp, AndOp, NandOp, OrOp, NorOp}

  /** The unary lambda `lambda a: not a`. */
  function EvalUnary(f: EvalFunc, a: bool): bool
    requires f == NotFn
  {
    !a
  }

  /** The binary lambdas, on truth values. */
  function EvalBinary(f: EvalFunc, a: bool, b: bool): bool
    requires f != NotFn
  {
    match f
    case ImplFn => !a || b
    case XorFn => a != b
    case XnorFn => a == b
    case AndFn => a && b
    case NandFn => !(a && b)
    case OrFn => a || b
    case NorFn => !(a || b)
  }

  /** `BINARY_OPERATORS`. */
  const BinaryOperators: set<BooleanOperator> :=
    {AndOp, ImplOp, NandOp, NorOp, OrOp, XnorOp, XorOp}

  /** `NON_PRIMITIVE_OPERATORS = BINARY_OPERATORS - {TT_AND_OP, TT_OR_OP}`. */
  const NonPrimitiveOperators: set<BooleanOperator> := BinaryOperators - {AndOp, OrOp}

  /** `SYMBOLIC_OPERATOR_MAPPING`: its keys in source order, and the values beside them. */
  const SymbolicStrs: seq<string> := ["~", "!", "->", "<->", "&&", "&", "/\\", "||", "|", "\\/"]
  const SymbolicOps: seq<BooleanOperator> :=
    [NotOp, NotOp, ImplOp, XnorOp, AndOp, AndOp, AndOp, OrOp, OrOp, OrOp]
  const SymbolicOperatorMapping: map<string, BooleanOperator> := DictOf(SymbolicStrs, SymbolicOps)

  /** `PLAIN_ENGLISH_OPERATOR_MAPPING`: its keys in source order, and the values beside them. */
  const PlainEnglishStrs: seq<string> := [
    "not", "NOT", "xor", "XOR", "impl", "IMPL", "iff", "IFF",
    "xnor", "XNOR", "nxor", "NXOR", "and", "AND", "nand", "NAND",
    "or", "OR", "nor", "NOR"]
  const PlainEnglishOps: seq<BooleanOperator> := [
    NotOp, NotOp, XorOp, XorOp, ImplOp, ImplOp, XnorOp, XnorOp,
    XnorOp, XnorOp, XnorOp, XnorOp, AndOp, AndOp, NandOp, NandOp,
    OrOp, OrOp, NorOp, NorOp]
  const PlainEnglishOperatorMapping: map<string, BooleanOperator> :=
    DictOf(PlainEnglishStrs, PlainEnglishOps)

  /** `OPERATOR_MAPPING`: an empty dict updated with the plain-English mapping, then with the symbolic one. */
  const OperatorMapping: map<string, BooleanOperator> :=
    PlainEnglishOperatorMapping + SymbolicOperatorMapping

  /** `list(OPERATOR_MAPPING.keys())`, in insertion order, and the value of each key. */
  const OperatorStrs: seq<string> := PlainEnglishStrs + SymbolicStrs
  const OperatorOps: seq<BooleanOperator> := PlainEnglishOps + SymbolicOps

  /** `is_symbolic[op]`: an operator string is symbolic when it does not start with a letter. */
  predicate IsSymbolic(op: string)
    requires op != ""
  {
    !IsAlpha(op[0])
  }

  /** The largest length in a list of strings (0 for none). */
  function MaxLength(ks: seq<string>): (m: nat)
    ensures forall i :: 0 <= i < |ks| ==> |ks[i]| <= m
    ensures ks != [] ==> exists i :: 0 <= i < |ks| && |ks[i]| == m
  {
    if ks == [] then 0
    else
      var rest := MaxLength(ks[1..]);
      assert forall i :: 1 <= i < |ks| ==> ks[i] == ks[1..][i - 1];
      if |ks[0]| >= rest then |ks[0]| else rest
  }

  /** `MAX_OPERATOR_STR_LEN`. */
  function MaxOperatorStrLen(): nat {
    MaxLength(OperatorStrs)
  }

  /** The token delimiters used by the tokenizer: `DELIMITERS` plus the first character of each symbolic operator. */
  function TokenDelimiters(): set<char> {
    Grammar.Delimiters +
      set i | 0 <= i < |OperatorStrs| && OperatorStrs[i] != "" && IsSymbolic(OperatorStrs[i]) :: OperatorStrs[i][0]
  }
  // ---------------------------------------------------------------------------
  // Properties of the operator table

  /** NOT binds tightest, then IMPL/XOR/XNOR, then AND/NAND, then OR/NOR. */
  lemma PrecedenceOrder()
    ensures NotOp.precedence > ImplOp.precedence == XorOp.precedence == XnorOp.precedence
    ensures XnorOp.precedence > AndOp.precedence == NandOp.precedence
    ensures NandOp.precedence > OrOp.precedence == NorOp.precedence
  {
  }

  /** The truth tables of the eight lambdas. */
  lemma EvalFunctions(a: bool, b: bool)
    ensures EvalUnary(NotOp.evalFunc, a) == !a
    ensures EvalBinary(ImplOp.evalFunc, a, b) == (!a || b)
    ensures EvalBinary(XorOp.evalFunc, a, b) == (a != b)
    ensures EvalBinary(XnorOp.evalFunc, a, b) == (a == b)
    ensures EvalBinary(AndOp.evalFunc, a, b) == (a && b)
    ensures EvalBinary(NandOp.evalFunc, a, b) == !(a && b)
    ensures EvalBinary(OrOp.evalFunc, a, b) == (a || b)
    ensures EvalBinary(NorOp.evalFunc, a, b) == !(a || b)
  {
  }

  /** Every operator but NOT is binary; the non-primitive ones are the binary ones other than AND and OR. */
  lemma OperatorSets()
    ensures BinaryOperators == AllOperators - {NotOp}
    ensures NonPrimitiveOperators == {ImplOp, NandOp, NorOp, XnorOp, XorOp}
    ensures forall op :: op in BinaryOperators ==> op.evalFunc != NotFn
  {
  }

  /** `str` and `repr`, and which operators have no default symbol. */
  lemma OperatorStrings()
    ensures forall op :: op in AllOperators ==> op.Str() == op.defaultPlainEnglishStr
    ensures AndOp.Str() == "and" && ImplOp.Repr() == "<BooleanOperator \"impl\">"
    ensures forall op :: op in AllOperators ==>
      (op.defaultSymbolStr.None? <==> op in {XorOp, XnorOp, NandOp, NorOp})
  {
  }

  /** No operator string is empty or a parenthesis. */
  lemma OperatorStrsNonEmpty()
    ensures forall i :: 0 <= i < |OperatorStrs| ==>
      OperatorStrs[i] != "" && OperatorStrs[i] != "(" && OperatorStrs[i] != ")"
  {
  }

  /** Plain-English operator strings are made of letters; symbolic ones start with a non-letter. */
  lemma OperatorStrClasses()
    ensures forall i, j :: 0 <= i < |PlainEnglishStrs| && 0 <= j < |PlainEnglishStrs[i]| ==>
      IsAlpha(PlainEnglishStrs[i][j])
    ensures forall i :: 0 <= i < |SymbolicStrs| ==> !IsAlpha(SymbolicStrs[i][0])
  {
  }

  /** No key is listed twice. */
  lemma OperatorStrsDistinct()
    ensures Distinct(OperatorStrs)
  {
    assert Distinct(PlainEnglishStrs);
    assert Distinct(SymbolicStrs);
    OperatorStrsNonEmpty();
    OperatorStrClasses();
    forall i, j | 0 <= i < |PlainEnglishStrs| && 0 <= j < |SymbolicStrs|
      ensures PlainEnglishStrs[i] != SymbolicStrs[j]
    {
      assert OperatorStrs[i] == PlainEnglishStrs[i];
      assert IsAlpha(PlainEnglishStrs[i][0]);
    }
    DistinctConcat(PlainEnglishStrs, SymbolicStrs);
  }

  /** The two updates of `OPERATOR_MAPPING` amount to one dict display of all thirty entries. */
  lemma OperatorMappingIsOneDict()
    ensures OperatorMapping == DictOf(OperatorStrs, OperatorOps)
  {
    DictOfAppend(PlainEnglishStrs, PlainEnglishOps, SymbolicStrs, SymbolicOps);
  }

  /** `OPERATOR_MAPPING` has exactly the thirty keys of `OperatorStrs`. */
  lemma OperatorMappingKeys()
    ensures OperatorMapping.Keys == set k | k in OperatorStrs
    ensures |OperatorMapping| == |OperatorStrs| == 30
  {
    OperatorMappingIsOneDict();
    OperatorStrsDistinct();
    DistinctCard(OperatorStrs);
  }

  /** Each key of `OPERATOR_MAPPING` denotes the operator listed beside it. */
  lemma OperatorMappingValues()
    ensures forall i :: 0 <= i < |OperatorStrs| ==>
      OperatorStrs[i] in OperatorMapping && OperatorMapping[OperatorStrs[i]] == OperatorOps[i]
  {
    OperatorMappingIsOneDict();
    OperatorStrsDistinct();
    forall i | 0 <= i < |OperatorStrs|
      ensures OperatorStrs[i] in OperatorMapping && OperatorMapping[OperatorStrs[i]] == OperatorOps[i]
    {
      DictOfValue(OperatorStrs, OperatorOps, i);
    }
  }

  /** `OPERATOR_MAPPING` is the union of the two mappings, whose keys are disjoint. */
  lemma MappingIsDisjointUnion()
    ensures PlainEnglishOperatorMapping.Keys !! SymbolicOperatorMapping.Keys
    ensures OperatorMapping.Keys == PlainEnglishOperatorMapping.Keys + SymbolicOperatorMapping.Keys
    ensures forall k :: k in PlainEnglishOperatorMapping ==> OperatorMapping[k] == PlainEnglishOperatorMapping[k]
    ensures forall k :: k in SymbolicOperatorMapping ==> OperatorMapping[k] == SymbolicOperatorMapping[k]
  {
    OperatorStrsDistinct();
    forall i, j | 0 <= i < |PlainEnglishStrs| && 0 <= j < |SymbolicStrs|
      ensures PlainEnglishStrs[i] != SymbolicStrs[j]
    {
      assert OperatorStrs[i] == PlainEnglishStrs[i];
      assert OperatorStrs[|PlainEnglishStrs| + j] == SymbolicStrs[j];
    }
  }

  /**
   * The entries of `OPERATOR_MAPPING` that denote NOT are those at positions
   * 0, 1, 20 and 21 (`not`, `NOT`, `~`, `!`).
   */
  lemma NotEntries()
    ensures forall i :: 0 <= i < |OperatorOps| ==> (OperatorOps[i] == NotOp <==> i in {0, 1, 20, 21})
    ensures OperatorStrs[0] == "not" && OperatorStrs[1] == "NOT" && OperatorStrs[20] == "~" && OperatorStrs[21] == "!"
  {
  }

  /**
   * The entries of `OPERATOR_MAPPING` that denote XNOR are those at positions
   * 6 to 11 and 23 (`iff`, `IFF`, `xnor`, `XNOR`, `nxor`, `NXOR`, `<->`).
   */
  lemma XnorEntries()
    ensures forall i :: 0 <= i < |OperatorOps| ==> (OperatorOps[i] == XnorOp <==> i in {6, 7, 8, 9, 10, 11, 23})
    ensures OperatorStrs[6] == "iff" && OperatorStrs[7] == "IFF" && OperatorStrs[8] == "xnor"
    ensures OperatorStrs[9] == "XNOR" && OperatorStrs[10] == "nxor" && OperatorStrs[11] == "NXOR"
    ensures OperatorStrs[23] == "<->"
  {
  }

  /** `MAX_OPERATOR_STR_LEN == 4`. */
  lemma MaxOperatorStrLenIsFour()
    ensures MaxOperatorStrLen() == 4
  {
    assert OperatorStrs[8] == "xnor";
    assert forall i :: 0 <= i < |OperatorStrs| ==> |OperatorStrs[i]| <= 4;
  }

  /** The tokenizer's delimiters. */
  lemma TokenDelimitersValue()
    ensures TokenDelimiters() == {' ', '(', ')', '~', '!', '-', '<', '&', '/', '|', '\\'}
  {
    OperatorStrClasses();
    var firsts := set i | 0 <= i < |OperatorStrs| && OperatorStrs[i] != "" && IsSymbolic(OperatorStrs[i]) :: OperatorStrs[i][0];
    var expected := {'~', '!', '-', '<', '&', '/', '|', '\\'};
    forall i | 0 <= i < |OperatorStrs| && OperatorStrs[i] != "" && IsSymbolic(OperatorStrs[i])
      ensures OperatorStrs[i][0] in expected
    {
      if i >= |PlainEnglishStrs| {
        assert OperatorStrs[i] == SymbolicStrs[i - |PlainEnglishStrs|];
      }
    }
    assert OperatorStrs[20][0] == '~' && OperatorStrs[21][0] == '!' && OperatorStrs[22][0] == '-';
    assert OperatorStrs[23][0] == '<' && OperatorStrs[24][0] == '&' && OperatorStrs[26][0] == '/';
    assert OperatorStrs[28][0] == '|' && OperatorStrs[29][0] == '\\';
    assert firsts == expected;
  }

  /** No delimiter of the tokenizer is a letter. */
  lemma DelimitersAreNotLetters()
    ensures forall c :: c in TokenDelimiters() ==> !IsAlpha(c)
  {
    TokenDelimitersValue();
  }

  /** The shape of the operator string at position `i`. */
  lemma OperatorStrAt(i: nat)
    requires i < |OperatorStrs|
    ensures var m := OperatorStrs[i];
      m != "" && m != "(" && m != ")" && m != "0" && m != "1" &&
      (IsAlpha(m[0]) ==> forall j :: 0 <= j < |m| ==> IsAlpha(m[j]))
  {
    OperatorStrsNonEmpty();
    OperatorStrClasses();
    if i < |PlainEnglishStrs| {
      assert OperatorStrs[i] == PlainEnglishStrs[i];
      assert IsAlpha(PlainEnglishStrs[i][0]);
    } else {
      assert OperatorStrs[i] == SymbolicStrs[i - |PlainEnglishStrs|];
    }
  }

  /** What the tokenizer relies on about an operator string it matched. */
  lemma OperatorStrFacts(m: string)
    requires m in OperatorStrs
    ensures m in OperatorMapping && m != "" && m != "(" && m != ")" && m != "0" && m != "1"
    ensures IsAlpha(m[0]) ==> forall j :: 0 <= j < |m| ==> IsAlpha(m[j])
  {
    var i :| 0 <= i < |OperatorStrs| && OperatorStrs[i] == m;
    OperatorStrAt(i);
    OperatorStrIsKey(m);
  }

  lemma OperatorStrIsKey(m: string)
    requires m in OperatorStrs
    ensures m in OperatorMapping
  {
    OperatorMappingValues();
  }

  /** Neither parenthesis nor either constant is a key of `OPERATOR_MAPPING`. */
  lemma NonOperatorStrs()
    ensures "(" !in OperatorMapping && ")" !in OperatorMapping
    ensures "0" !in OperatorMapping && "1" !in OperatorMapping
  {
    forall k | k in OperatorMapping
      ensures k != "(" && k != ")" && k != "0" && k != "1"
    {
      OperatorKeys(k);
      OperatorStrFacts(k);
    }
  }

  /** Every key of `OPERATOR_MAPPING` is one of `OperatorStrs`. */
  lemma OperatorKeys(k: string)
    requires k in OperatorMapping
    ensures k in OperatorStrs
  {
    OperatorMappingKeys();
  }
}
