/**
 * The first pass of `BooleanExpression`: `_tokenize`, as a function of the
 * raw expression string. The class in module `BExpr` runs the same scan as a
 * loop and is proved equal to `Tokenize` below.
 */
module Tokenizer {
  import opened Wrappers
  import opened PyValues
  import opened Seqs
  import Grammar
  import opened Operators

  // ---------------------------------------------------------------------------
  // Errors

  /** The exception types a `BooleanExpression` can raise while being built. */
  datatype ErrorKind =
    | BadParenPosition
    | EmptyExpression
    | ExpressionOrder
    | InvalidArgumentType
    | InvalidIdentifier
    | UnbalancedParen

  /** A raised error: its type, message, and the `expr_str` / `error_pos` it carries. */
  datatype Error = Error(kind: ErrorKind, message: string, exprStr: Option<string>, errorPos: Option<nat>)

  /** An error raised at position `pos` of the expression `s`. */
  function At(kind: ErrorKind, message: string, s: string, pos: nat): Error {
    Error(kind, message, Some(s), Some(pos))
  }

  /** `'<prefix>"{}"'.format(x)`. */
  function Quoted(prefix: string, x: string): string {
    prefix + "\"" + x + "\""
  }

  // ---------------------------------------------------------------------------
  // Tokens

  /** A token, with the role the tokenizer gave it. */
  datatype Token = LeftParen | RightParen | OperatorToken(op: string) | OperandToken(name: string)

  /** The string the tokenizer appends to `_tokens` for a token. */
  function Text(t: Token): string {
    match t
    case LeftParen => "("
    case RightParen => ")"
    case OperatorToken(op) => op
    case OperandToken(name) => name
  }

  function Texts(ts: seq<Token>): (r: seq<string>)
    ensures |r| == |ts| && forall i :: 0 <= i < |ts| ==> r[i] == Text(ts[i])
  {
    if ts == [] then [] else Texts(ts[..|ts| - 1]) + [Text(ts[|ts| - 1])]
  }

  /** The operand names among the tokens, in order. */
  function OperandNames(ts: seq<Token>): (r: seq<string>)
    ensures forall x :: x in r <==> OperandToken(x) in ts
  {
    if ts == [] then []
    else
      var q := ts[..|ts| - 1];
      assert forall t :: t in ts <==> t in q || t == ts[|ts| - 1];
      OperandNames(q) + (if ts[|ts| - 1].OperandToken? then [ts[|ts| - 1].name] else [])
  }

  /**
   * The names not in `excluded`, each once, in order of first appearance:
   * what repeated `if n not in (seen | excluded): append(n)` builds.
   */
  function FirstAppearances(ns: seq<string>, excluded: set<string>): (r: seq<string>)
    ensures forall x :: x in r <==> x in ns && x !in excluded
    ensures Distinct(r)
  {
    if ns == [] then []
    else
      var p := FirstAppearances(ns[..|ns| - 1], excluded);
      var x := ns[|ns| - 1];
      assert forall y :: y in ns <==> y in ns[..|ns| - 1] || y == x;
      if x in excluded || x in p then p else p + [x]
  }

  /** The elements of `r` occur in `ns`, in the order of their first occurrence there. */
  predicate InFirstOrder(ns: seq<string>, r: seq<string>) {
    forall i, j :: 0 <= i < j < |r| ==> r[i] in ns && r[j] in ns && FirstIndex(ns, r[i]) < FirstIndex(ns, r[j])
  }

  /** The names `FirstAppearances` keeps come in the order of their first occurrence. */
  lemma {:induction false} FirstAppearancesInOrder(ns: seq<string>, excluded: set<string>)
    ensures InFirstOrder(ns, FirstAppearances(ns, excluded))
  {
    if ns != [] {
      var q := ns[..|ns| - 1];
      var x := ns[|ns| - 1];
      var p := FirstAppearances(q, excluded);
      var r := FirstAppearances(ns, excluded);
      FirstAppearancesInOrder(q, excluded);
      assert r == p || (r == p + [x] && x !in q);
      forall y | y in p
        ensures FirstIndex(ns, y) == FirstIndex(q, y)
      {
        FirstIndexOfPrefix(ns, |ns| - 1, y);
      }
      if r != p {
        assert FirstIndex(ns, x) == |ns| - 1;
      }
      forall i, j | 0 <= i < j < |r|
        ensures FirstIndex(ns, r[i]) < FirstIndex(ns, r[j])
      {
        assert r[i] == p[i] && p[i] in p;
        assert FirstIndex(ns, r[i]) == FirstIndex(q, p[i]);
        if j < |p| {
          assert r[j] == p[j] && p[j] in p;
          assert FirstIndex(ns, r[j]) == FirstIndex(q, p[j]);
          assert FirstIndex(q, p[i]) < FirstIndex(q, p[j]);
        } else {
          assert r[j] == x;
          assert FirstIndex(q, p[i]) < |q|;
        }
      }
    }
  }

  // ---------------------------------------------------------------------------
  // Operator recognition

  /** Operator string `k` occurs in `s` at `idx`. */
  predicate MatchesAt(s: string, idx: nat, k: string) {
    idx + |k| <= |s| && s[idx..idx + |k|] == k
  }

  predicate SortedByLengthDesc(ks: seq<string>) {
    forall i, j :: 0 <= i < j < |ks| ==> |ks[i]| >= |ks[j]|
  }

  /** Strictly increasing. */
  predicate Increasing(s: seq<nat>) {
    forall i, j :: 0 <= i < j < |s| ==> s[i] < s[j]
  }

  lemma {:induction false} AdjacentIncreasing(s: seq<nat>)
    requires forall i :: 0 <= i < |s| - 1 ==> s[i] < s[i + 1]
    ensures Increasing(s)
  {
    if |s| > 1 {
      AdjacentIncreasing(s[1..]);
      forall i, j | 0 <= i < j < |s|
        ensures s[i] < s[j]
      {
        if i > 0 {
          assert s[i] == s[1..][i - 1] && s[j] == s[1..][j - 1];
        } else if j > 1 {
          assert s[1] == s[1..][0] && s[j] == s[1..][j - 1];
        }
      }
    }
  }

  /**
   * `operator_search_list = sorted(operator_strs, key=len, reverse=True)`,
   * written out by length: the operator strings of length 4, 3, 2 and 1,
   * each group in the order of `OperatorStrs`. `SearchListIsStableSort`
   * proves it is that (stable) sort.
   */
  const SearchList: seq<string> := Length4Strs + Length3Strs + Length2Strs + Length1Strs
  const Length4Strs: seq<string> := ["impl", "IMPL", "xnor", "XNOR", "nxor", "NXOR", "nand", "NAND"]
  const Length3Strs: seq<string> := ["not", "NOT", "xor", "XOR", "iff", "IFF", "and", "AND", "nor", "NOR", "<->"]
  const Length2Strs: seq<string> := ["or", "OR", "->", "&&", "/\\", "||", "\\/"]
  const Length1Strs: seq<string> := ["~", "!", "&", "|"]

  /** The position in `OperatorStrs` of each entry of `SearchList`. */
  const SearchListOrigin: seq<nat> := Length4Origin + Length3Origin + Length2Origin + Length1Origin
  const Length4Origin: seq<nat> := [4, 5, 8, 9, 10, 11, 14, 15]
  const Length3Origin: seq<nat> := [0, 1, 2, 3, 6, 7, 12, 13, 18, 19, 23]
  const Length2Origin: seq<nat> := [16, 17, 22, 24, 26, 27, 29]
  const Length1Origin: seq<nat> := [20, 21, 25, 28]

  /** Where each entry of `OperatorStrs` went: the inverse of `SearchListOrigin`. */
  const SearchListPlace: seq<nat> :=
    [8, 9, 10, 11, 0, 1, 12, 13, 2, 3] + [4, 5, 14, 15, 6, 7, 19, 20, 16, 17] + [26, 27, 21, 18, 22, 28, 23, 24, 29, 25]

  /** Entry `j` of `OperatorStrs`, read from the table it comes from. */
  function OperatorStrFromTable(j: nat): string
    requires j < |PlainEnglishStrs| + |SymbolicStrs|
  {
    if j < |PlainEnglishStrs| then PlainEnglishStrs[j] else SymbolicStrs[j - |PlainEnglishStrs|]
  }

  /** A group of `SearchList`: every string has length `n` and comes from `origin`, in increasing order. */
  predicate Group(strs: seq<string>, origin: seq<nat>, n: nat) {
    && |origin| == |strs|
    && (forall i :: 0 <= i < |strs| ==> |strs[i]| == n)
    && (forall i :: 0 <= i < |strs| ==> origin[i] < |OperatorStrs| && strs[i] == OperatorStrs[origin[i]])
    && Increasing(origin)
  }

  /** The facts `Group` needs, stated against the two tables. */
  lemma TableGroup(strs: seq<string>, origin: seq<nat>, n: nat)
    requires |origin| == |strs|
    requires forall i :: 0 <= i < |strs| ==> |strs[i]| == n
    requires forall i :: 0 <= i < |strs| ==>
      origin[i] < |PlainEnglishStrs| + |SymbolicStrs| && strs[i] == OperatorStrFromTable(origin[i])
    requires forall i :: 0 <= i < |origin| - 1 ==> origin[i] < origin[i + 1]
    ensures Group(strs, origin, n)
  {
    AdjacentIncreasing(origin);
  }

  lemma Length4Group()
    ensures Group(Length4Strs, Length4Origin, 4)
  {
    TableGroup(Length4Strs, Length4Origin, 4);
  }

  lemma Length3Group()
    ensures Group(Length3Strs, Length3Origin, 3)
  {
    TableGroup(Length3Strs, Length3Origin, 3);
  }

  lemma Length2Group()
    ensures Group(Length2Strs, Length2Origin, 2)
  {
    TableGroup(Length2Strs, Length2Origin, 2);
  }

  lemma Length1Group()
    ensures Group(Length1Strs, Length1Origin, 1)
  {
    TableGroup(Length1Strs, Length1Origin, 1);
  }

  /**
   * `s` is the stable sort of `OperatorStrs` by decreasing length restricted
   * to the positions `o`: entry `i` is `OperatorStrs[o[i]]`, lengths do not
   * increase, and strings of equal length keep their original order.
   */
  predicate StablySorted(s: seq<string>, o: seq<nat>) {
    && |o| == |s|
    && (forall i :: 0 <= i < |s| ==> o[i] < |OperatorStrs| && s[i] == OperatorStrs[o[i]])
    && SortedByLengthDesc(s)
    && (forall i, j :: 0 <= i < j < |s| && |s[i]| == |s[j]| ==> o[i] < o[j])
  }

  /** Appending a group of shorter strings keeps a list stably sorted. */
  lemma {:induction false} GroupsConcat(s1: seq<string>, o1: seq<nat>, s2: seq<string>, o2: seq<nat>, n: nat)
    requires StablySorted(s1, o1) && Group(s2, o2, n)
    requires forall i :: 0 <= i < |s1| ==> |s1[i]| > n
    ensures StablySorted(s1 + s2, o1 + o2)
    ensures forall i :: 0 <= i < |s1 + s2| ==> |(s1 + s2)[i]| >= n
  {
    var s, o := s1 + s2, o1 + o2;
    assert forall i :: |s1| <= i < |s| ==> s[i] == s2[i - |s1|] && o[i] == o2[i - |s1|];
  }

  /** `SearchList` is `sorted(operator_strs, key=len, reverse=True)`. */
  lemma SearchListIsStableSort()
    ensures |SearchList| == |OperatorStrs| && StablySorted(SearchList, SearchListOrigin)
  {
    Length4Group();
    Length3Group();
    Length2Group();
    Length1Group();
    assert StablySorted(Length4Strs, Length4Origin);
    GroupsConcat(Length4Strs, Length4Origin, Length3Strs, Length3Origin, 3);
    GroupsConcat(Length4Strs + Length3Strs, Length4Origin + Length3Origin, Length2Strs, Length2Origin, 2);
    GroupsConcat(Length4Strs + Length3Strs + Length2Strs, Length4Origin + Length3Origin + Length2Origin,
                 Length1Strs, Length1Origin, 1);
  }

  lemma SearchListPlaces()
    ensures forall j :: 0 <= j < |OperatorStrs| ==>
      SearchListPlace[j] < |SearchList| && SearchListOrigin[SearchListPlace[j]] == j
  {
  }

  lemma SearchListElements()
    ensures forall k :: k in SearchList <==> k in OperatorStrs
    ensures SortedByLengthDesc(SearchList)
  {
    SearchListIsStableSort();
    SearchListPlaces();
    forall k | k in OperatorStrs
      ensures k in SearchList
    {
      var j :| 0 <= j < |OperatorStrs| && OperatorStrs[j] == k;
      assert SearchList[SearchListPlace[j]] == k;
    }
  }

  /** The first element of `l` that occurs at `idx`: `matching_operators[0]`. */
  function FirstMatch(s: string, idx: nat, l: seq<string>): Option<string> {
    if l == [] then None
    else if MatchesAt(s, idx, l[0]) then Some(l[0])
    else FirstMatch(s, idx, l[1..])
  }

  /** `FirstMatch` finds the first element of `l` occurring at `idx`, and finds none only if none occurs. */
  lemma {:induction false} FirstMatchSpec(s: string, idx: nat, l: seq<string>)
    ensures var r := FirstMatch(s, idx, l);
      r.Some? ==> exists i :: (0 <= i < |l| && l[i] == r.value && MatchesAt(s, idx, l[i]) &&
        forall j :: 0 <= j < i ==> !MatchesAt(s, idx, l[j]))
    ensures FirstMatch(s, idx, l).None? ==> forall j :: 0 <= j < |l| ==> !MatchesAt(s, idx, l[j])
  {
    if l != [] && !MatchesAt(s, idx, l[0]) {
      FirstMatchSpec(s, idx, l[1..]);
      var r := FirstMatch(s, idx, l[1..]);
      assert forall j :: 1 <= j < |l| ==> l[j] == l[1..][j - 1];
      if r.Some? {
        var i :| 0 <= i < |l[1..]| && l[1..][i] == r.value && MatchesAt(s, idx, l[1..][i]) &&
          forall j :: 0 <= j < i ==> !MatchesAt(s, idx, l[1..][j]);
        assert l[i + 1] == r.value;
      }
    }
  }

  /** Two operator strings occurring at the same place with the same length are the same string. */
  lemma SameLengthMatchesAreEqual(s: string, idx: nat, a: string, b: string)
    requires MatchesAt(s, idx, a) && MatchesAt(s, idx, b) && |a| == |b|
    ensures a == b
  {
  }

  /**
   * The operator chosen at `idx` is the longest operator string occurring
   * there, and there is no other of that length; there is none exactly when
   * no operator string occurs at `idx`.
   */
  lemma LongestMatch(s: string, idx: nat)
    ensures FirstMatch(s, idx, SearchList).None? <==> forall k :: k in OperatorStrs ==> !MatchesAt(s, idx, k)
    ensures var r := FirstMatch(s, idx, SearchList);
      r.Some? ==> (r.value in OperatorStrs && MatchesAt(s, idx, r.value) &&
        forall k :: k in OperatorStrs && MatchesAt(s, idx, k) ==> |k| < |r.value| || k == r.value)
  {
    var l := SearchList;
    SearchListElements();
    FirstMatchSpec(s, idx, l);
    var r := FirstMatch(s, idx, l);
    if r.Some? {
      var i :| 0 <= i < |l| && l[i] == r.value && MatchesAt(s, idx, l[i]) &&
        forall j :: 0 <= j < i ==> !MatchesAt(s, idx, l[j]);
      forall k | k in OperatorStrs && MatchesAt(s, idx, k)
        ensures |k| < |r.value| || k == r.value
      {
        var j :| 0 <= j < |l| && l[j] == k;
        assert j >= i;
        if |k| == |r.value| {
          SameLengthMatchesAreEqual(s, idx, k, r.value);
        }
      }
    } else {
      forall k | k in OperatorStrs
        ensures !MatchesAt(s, idx, k)
      {
        var j :| 0 <= j < |l| && l[j] == k;
      }
    }
  }

  // ---------------------------------------------------------------------------
  // The scan

  /** The positions of `(` in `s`, in increasing order (`re.finditer(r'\(', s)`). */
  function LeftParenPositions(s: string): (r: seq<nat>)
    ensures forall i :: 0 <= i < |r| ==> r[i] < |s| && s[r[i]] == '('
    ensures forall p :: 0 <= p < |s| && s[p] == '(' ==> p in r
    ensures forall i, j :: 0 <= i < j < |r| ==> r[i] < r[j]
  {
    if s == [] then []
    else
      var p := LeftParenPositions(s[..|s| - 1]);
      p + (if s[|s| - 1] == '(' then [|s| - 1] else [])
  }

  /** The `(` positions of a prefix are a prefix of those of a longer prefix. */
  lemma {:induction false} LeftParenPositionsGrow(s: string, i: nat, j: nat)
    requires i <= j <= |s|
    ensures |LeftParenPositions(s[..i])| <= |LeftParenPositions(s[..j])|
    decreases j - i
  {
    if i < j {
      LeftParenPositionsGrow(s, i, j - 1);
      assert s[..j][..j - 1] == s[..j - 1];
    }
  }

  /** What `_tokenize` has built so far. */
  datatype State = State(
    idx: nat,                 // the cursor
    expectOperand: bool,      // EXPECTING_OPERAND (true) or EXPECTING_OPERATOR (false)
    open: nat,                // open_paren_count
    tokens: seq<Token>,       // _tokens, with their roles
    symbols: seq<string>,     // _symbols
    symbolSet: set<string>)   // _symbol_set

  const Start := State(0, true, 0, [], [], {})

  /**
   * `c in delimiters`, where `delimiters = DELIMITERS | {first character of
   * each symbolic key}`; `DelimitersValue` proves it is that set.
   */
  predicate IsDelimiter(c: char) {
    || c == ' ' || c == '(' || c == ')'
    || c == '~' || c == '!' || c == '-' || c == '<' || c == '&' || c == '/' || c == '|' || c == '\\'
  }

  lemma DelimitersValue()
    ensures forall c :: IsDelimiter(c) <==> c in TokenDelimiters()
  {
    TokenDelimitersValue();
  }

  /** The end of an operand that starts just before `j`: the next delimiter, or the end. */
  function OperandEnd(s: string, j: nat): (r: nat)
    requires j <= |s|
    ensures j <= r <= |s|
    ensures r < |s| ==> IsDelimiter(s[r])
    ensures forall p :: j <= p < r ==> !IsDelimiter(s[p])
    decreases |s| - j
  {
    if j < |s| && !IsDelimiter(s[j]) then OperandEnd(s, j + 1) else j
  }

  /** The operand text starting at `idx`: `raw_expr[idx:operand_end_idx]`. */
  function OperandAt(s: string, idx: nat): string
    requires idx < |s|
  {
    s[idx..OperandEnd(s, idx + 1)]
  }

  /** What the `else` branch reads at the cursor, before looking at the grammar state. */
  datatype Word = Trailing(op: string) | Word(token: Token)

  /**
   * The first of `matching_operators`, if any, decides: an operator string
   * reaching the end of the input is a trailing operator; one followed by a
   * delimiter, or a symbolic one, is an operator; anything else is an operand.
   */
  function WordAt(s: string, idx: nat): (w: Word)
    requires idx < |s|
  {
    match FirstMatch(s, idx, SearchList)
    case None => Word(OperandToken(OperandAt(s, idx)))
    case Some(m) =>
      LongestMatch(s, idx);
      OperatorStrFacts(m);
      if idx + |m| >= |s| then Trailing(m)
      else if IsDelimiter(s[idx + |m|]) || IsSymbolic(m) then Word(OperatorToken(m))
      else Word(OperandToken(OperandAt(s, idx)))
  }

  /** An operator word is a key of `OPERATOR_MAPPING` occurring at `idx` with a character after it. */
  lemma WordOperator(s: string, idx: nat)
    requires idx < |s| && WordAt(s, idx).Word? && WordAt(s, idx).token.OperatorToken?
    ensures var m := WordAt(s, idx).token.op;
      m in OperatorStrs && m in OperatorMapping && m != "" && MatchesAt(s, idx, m) && idx + |m| < |s|
  {
    var m :| FirstMatch(s, idx, SearchList) == Some(m);
    LongestMatch(s, idx);
    OperatorStrFacts(m);
  }

  /** Reading the operand `operand` at the cursor. */
  function OperandStep(s: string, isIdent: string -> bool, st: State, operand: string): (r: Result<State, Error>)
    requires operand != "" && st.idx + |operand| <= |s|
    ensures r.Ok? ==> st.idx < r.value.idx <= |s| && r.value.open == st.open
  {
    if !st.expectOperand then Err(At(ExpressionOrder, "Unexpected operand", s, st.idx))
    else if operand !in Grammar.ConstantValues && !isIdent(operand) then
      Err(At(InvalidIdentifier, Quoted("Invalid operand name ", operand), s, st.idx))
    else if operand !in st.symbolSet + Grammar.ConstantValues then
      Ok(State(st.idx + |operand|, false, st.open, st.tokens + [OperandToken(operand)],
               st.symbols + [operand], st.symbolSet + {operand}))
    else
      Ok(State(st.idx + |operand|, false, st.open, st.tokens + [OperandToken(operand)], st.symbols, st.symbolSet))
  }

  /** `OPERATOR_MAPPING[m] == TT_NOT_OP`: `m` spells negation. */
  predicate IsNotKey(m: string)
    requires m in OperatorMapping
  {
    OperatorMapping[m] == NotOp
  }

  /** Taking the matched operator string `m` as an operator; `unary` is `IsNotKey(m)`. */
  function OperatorStep(s: string, st: State, m: string, unary: bool): (r: Result<State, Error>)
    requires m != "" && st.idx + |m| < |s|
    ensures r.Ok? ==> st.idx < r.value.idx <= |s| && r.value.open == st.open
  {
    if unary then
      if !st.expectOperand then Err(At(ExpressionOrder, Quoted("Unexpected unary operator ", m), s, st.idx))
      else Ok(st.(idx := st.idx + |m|, tokens := st.tokens + [OperatorToken(m)]))
    else if st.expectOperand then Err(At(ExpressionOrder, Quoted("Unexpected binary operator ", m), s, st.idx))
    else Ok(st.(idx := st.idx + |m|, expectOperand := true, tokens := st.tokens + [OperatorToken(m)]))
  }

  /** One iteration of the `while idx < num_chars` loop. */
  function Step(s: string, isIdent: string -> bool, st: State): (r: Result<State, Error>)
    requires st.idx < |s|
    ensures r.Ok? ==> st.idx < r.value.idx <= |s|
  {
    var c := s[st.idx];
    if IsSpace(c) then Ok(st.(idx := st.idx + 1))
    else if c == '(' || c == ')' then ParenStep(s, st)
    else
      WordAtIsValid(s, st.idx);
      WordStep(s, isIdent, st, WordAt(s, st.idx))
  }

  /** The two parenthesis branches of the loop. */
  function ParenStep(s: string, st: State): (r: Result<State, Error>)
    requires st.idx < |s| && (s[st.idx] == '(' || s[st.idx] == ')')
    ensures r.Ok? ==> r.value.idx == st.idx + 1 && r.value.expectOperand == st.expectOperand
  {
    if s[st.idx] == '(' then
      if !st.expectOperand then Err(At(BadParenPosition, "Unexpected parenthesis", s, st.idx))
      else Ok(st.(idx := st.idx + 1, open := st.open + 1, tokens := st.tokens + [LeftParen]))
    else
      if st.expectOperand then Err(At(BadParenPosition, "Unexpected parenthesis", s, st.idx))
      else if st.open == 0 then Err(At(UnbalancedParen, "Unbalanced parenthesis", s, st.idx))
      else Ok(st.(idx := st.idx + 1, open := st.open - 1, tokens := st.tokens + [RightParen]))
  }

  /** What a word read at `idx` can be: a trailing operator, a key with text after it, or a non-empty operand. */
  predicate ValidWord(s: string, idx: nat, w: Word) {
    match w
    case Trailing(_) => true
    case Word(t) =>
      match t
      case OperatorToken(m) => m in OperatorMapping && m != "" && idx + |m| < |s|
      case OperandToken(n) => n != "" && idx + |n| <= |s|
      case _ => false
  }

  lemma WordAtIsValid(s: string, idx: nat)
    requires idx < |s|
    ensures ValidWord(s, idx, WordAt(s, idx))
  {
    if WordAt(s, idx).Word? && WordAt(s, idx).token.OperatorToken? {
      WordOperator(s, idx);
    }
  }

  /** The `else` branch of the loop, on the word read at the cursor. */
  function WordStep(s: string, isIdent: string -> bool, st: State, w: Word): (r: Result<State, Error>)
    requires ValidWord(s, st.idx, w)
    ensures r.Ok? ==> st.idx < r.value.idx <= |s| && r.value.open == st.open
  {
    match w
    case Trailing(m) => Err(At(ExpressionOrder, Quoted("Unexpected operator ", m), s, st.idx))
    case Word(t) =>
      if t.OperatorToken? then OperatorStep(s, st, t.op, IsNotKey(t.op))
      else OperandStep(s, isIdent, st, t.name)
  }

  /** The parenthesis counter never exceeds the number of `(` read so far. */
  predicate ParensCounted(s: string, st: State) {
    st.idx <= |s| && st.open <= |LeftParenPositions(s[..st.idx])|
  }

  lemma StepCountsParens(s: string, isIdent: string -> bool, st: State)
    requires st.idx < |s| && ParensCounted(s, st)
    ensures Step(s, isIdent, st).Ok? ==> ParensCounted(s, Step(s, isIdent, st).value)
  {
    var r := Step(s, isIdent, st);
    if r.Ok? {
      LeftParenPositionsGrow(s, st.idx, r.value.idx);
      if s[st.idx] == '(' {
        assert s[..st.idx + 1][..st.idx] == s[..st.idx];
      }
    }
  }

  /** The loop, from state `st` to the end of the input or the first error. */
  function Run(s: string, isIdent: string -> bool, st: State): (r: Result<State, Error>)
    requires ParensCounted(s, st)
    ensures r.Ok? ==> r.value.idx == |s| && ParensCounted(s, r.value)
    decreases |s| - st.idx
  {
    if st.idx == |s| then Ok(st)
    else
      StepCountsParens(s, isIdent, st);
      match Step(s, isIdent, st)
      case Err(e) => Err(e)
      case Ok(next) => Run(s, isIdent, next)
  }

  /** The checks after the loop. */
  function Finish(s: string, st: State): (r: Result<State, Error>)
    requires st.open <= |LeftParenPositions(s)|
  {
    if st.open > 0 then
      Err(At(UnbalancedParen, "Unbalanced left parenthesis", s, LeftParenPositions(s)[st.open - 1]))
    else if st.tokens == [] then Err(Error(EmptyExpression, "Empty expression is invalid", None, None))
    else Ok(st)
  }

  /** `_tokenize` on the raw expression `s`; `isIdent` is `is_valid_identifier`. */
  function Tokenize(s: string, isIdent: string -> bool): Result<State, Error> {
    assert s[..0] == [];
    match Run(s, isIdent, Start)
    case Err(e) => Err(e)
    case Ok(st) =>
      assert s[..|s|] == s;
      Finish(s, st)
  }

  // ---------------------------------------------------------------------------
  // Operator recognition, in terms of the longest match

  /** `m` is a longest operator string occurring at `idx`. */
  predicate LongestAt(s: string, idx: nat, m: string) {
    && m in OperatorStrs
    && MatchesAt(s, idx, m)
    && forall k :: k in OperatorStrs && MatchesAt(s, idx, k) ==> |k| <= |m|
  }

  lemma LongestIsFirstMatch(s: string, idx: nat, m: string)
    requires LongestAt(s, idx, m)
    ensures FirstMatch(s, idx, SearchList) == Some(m)
  {
    LongestMatch(s, idx);
    var r := FirstMatch(s, idx, SearchList);
    assert r.Some?;
    var k := r.value;
    assert k in OperatorStrs && MatchesAt(s, idx, k);
    assert |k| <= |m|;
    assert |m| < |k| || m == k;
  }

  /** The search list's first match at `idx` is a non-empty key of `OPERATOR_MAPPING` occurring there. */
  lemma FirstMatchFacts(s: string, idx: nat)
    requires FirstMatch(s, idx, SearchList).Some?
    ensures var m := FirstMatch(s, idx, SearchList).value;
      && m in OperatorStrs && m in OperatorMapping && m != "" && MatchesAt(s, idx, m)
      && (IsAlpha(m[0]) ==> forall j :: 0 <= j < |m| ==> IsAlpha(m[j]))
  {
    LongestMatch(s, idx);
    OperatorStrFacts(FirstMatch(s, idx, SearchList).value);
  }

  /** The search list's first match at `idx` is a non-empty operator string occurring there. */
  lemma FirstMatchIsKey(s: string, idx: nat)
    requires FirstMatch(s, idx, SearchList).Some?
    ensures var m := FirstMatch(s, idx, SearchList).value;
      m in OperatorStrs && m != "" && MatchesAt(s, idx, m)
  {
    FirstMatchFacts(s, idx);
  }

  /** The shape of the first match: the facts about it that do not mention the table. */
  lemma FirstMatchShape(s: string, idx: nat)
    requires FirstMatch(s, idx, SearchList).Some?
    ensures var m := FirstMatch(s, idx, SearchList).value;
      m != "" && MatchesAt(s, idx, m) && (IsAlpha(m[0]) ==> forall j :: 0 <= j < |m| ==> IsAlpha(m[j]))
  {
    FirstMatchFacts(s, idx);
  }

  /** A first match reaching the end of the input is a trailing operator. */
  lemma WordAtTrailing(s: string, idx: nat, m: string)
    requires idx < |s| && FirstMatch(s, idx, SearchList) == Some(m) && m != ""
    ensures idx + |m| == |s| ==> WordAt(s, idx) == Trailing(m)
  {
  }

  /** A symbolic first match with text after it is an operator. */
  lemma WordAtSymbolic(s: string, idx: nat, m: string)
    requires idx < |s| && FirstMatch(s, idx, SearchList) == Some(m) && m != ""
    ensures idx + |m| < |s| && IsSymbolic(m) ==> WordAt(s, idx) == Word(OperatorToken(m))
  {
  }

  /** A plain-English first match is an operator if a delimiter follows it. */
  lemma WordAtPlainOperator(s: string, idx: nat, m: string)
    requires idx < |s| && FirstMatch(s, idx, SearchList) == Some(m) && m != ""
    ensures idx + |m| < |s| && !IsSymbolic(m) && IsDelimiter(s[idx + |m|]) ==> WordAt(s, idx) == Word(OperatorToken(m))
  {
  }

  /** A plain-English first match followed by a non-delimiter is part of an operand. */
  lemma WordAtPlainOperand(s: string, idx: nat, m: string)
    requires idx < |s| && FirstMatch(s, idx, SearchList) == Some(m) && m != ""
    ensures idx + |m| < |s| && !IsSymbolic(m) && !IsDelimiter(s[idx + |m|]) ==>
      WordAt(s, idx) == Word(OperandToken(OperandAt(s, idx)))
  {
  }

  /**
   * Operator recognition. With `m` the longest operator string at `idx`: if
   * it reaches the end of the input it is a trailing operator; a symbolic
   * `m` is always an operator; a plain-English `m` is an operator exactly
   * when a delimiter follows it, and otherwise the text is read as an operand.
   */
  lemma RecognizeOperator(s: string, idx: nat, m: string)
    requires idx < |s| && LongestAt(s, idx, m)
    ensures m != ""
    ensures idx + |m| == |s| ==> WordAt(s, idx) == Trailing(m)
    ensures idx + |m| < |s| && IsSymbolic(m) ==> WordAt(s, idx) == Word(OperatorToken(m))
    ensures idx + |m| < |s| && !IsSymbolic(m) ==>
      WordAt(s, idx) == if IsDelimiter(s[idx + |m|]) then Word(OperatorToken(m))
                        else Word(OperandToken(OperandAt(s, idx)))
  {
    LongestIsFirstMatch(s, idx, m);
    OperatorStrFacts(m);
    WordAtTrailing(s, idx, m);
    WordAtSymbolic(s, idx, m);
    WordAtPlainOperator(s, idx, m);
    WordAtPlainOperand(s, idx, m);
  }

  /** When a plain-English match is read as an operand, the operand runs past the match. */
  lemma OperandOutrunsMatch(s: string, idx: nat, m: string)
    requires idx < |s| && FirstMatch(s, idx, SearchList) == Some(m)
    ensures WordAt(s, idx).Word? && WordAt(s, idx).token.OperandToken? ==> |OperandAt(s, idx)| > |m|
  {
    if WordAt(s, idx).Word? && WordAt(s, idx).token.OperandToken? {
      FirstMatchShape(s, idx);
      WordAtTrailing(s, idx, m);
      WordAtSymbolic(s, idx, m);
      WordAtPlainOperator(s, idx, m);
      assert idx + |m| < |s| && !IsSymbolic(m) && !IsDelimiter(s[idx + |m|]);
      AlphaRunOutrunsDelimiters(s, idx, m);
    }
  }

  /** An operand scan starting on all-letter text followed by a non-delimiter runs past that text. */
  lemma AlphaRunOutrunsDelimiters(s: string, idx: nat, m: string)
    requires idx + |m| < |s| && m != "" && s[idx..idx + |m|] == m && !IsDelimiter(s[idx + |m|])
    requires forall j :: 0 <= j < |m| ==> IsAlpha(m[j])
    ensures OperandEnd(s, idx + 1) > idx + |m|
  {
  }

  /** Where no operator string occurs, the text is an operand. */
  lemma RecognizeOperand(s: string, idx: nat)
    requires idx < |s|
    requires forall k :: k in OperatorStrs ==> !MatchesAt(s, idx, k)
    ensures WordAt(s, idx) == Word(OperandToken(OperandAt(s, idx)))
  {
    LongestMatch(s, idx);
  }

  /**
   * An operand read by the scan is never an operator string, a parenthesis
   * or empty: a key of `OPERATOR_MAPPING` at the cursor is always either
   * taken as an operator or swallowed by a longer plain-English one.
   */
  lemma OperandIsNotOperator(s: string, idx: nat)
    requires idx < |s| && s[idx] != '(' && s[idx] != ')'
    requires WordAt(s, idx).Word? && WordAt(s, idx).token.OperandToken?
    ensures var n := WordAt(s, idx).token.name;
      n == OperandAt(s, idx) && n !in OperatorMapping && n != "(" && n != ")" && n != ""
  {
    var n := OperandAt(s, idx);
    if n in OperatorMapping {
      OperatorKeys(n);
      OperandIsNotOperatorStr(s, idx);
    }
    assert n[0] == s[idx];
  }

  lemma OperandIsNotOperatorStr(s: string, idx: nat)
    requires idx < |s| && WordAt(s, idx).Word? && WordAt(s, idx).token.OperandToken?
    ensures OperandAt(s, idx) !in OperatorStrs
  {
    var n := OperandAt(s, idx);
    if n in OperatorStrs {
      assert MatchesAt(s, idx, n);
      LongestMatch(s, idx);
      OperandOutrunsMatch(s, idx, FirstMatch(s, idx, SearchList).value);
      assert false;
    }
  }

  // ---------------------------------------------------------------------------
  // The grammar the scan enforces

  /** `grammar_state` (EXPECTING_OPERAND when `expectOperand`) and `open_paren_count`. */
  datatype Phase = Phase(expectOperand: bool, open: nat)

  function PhaseOf(st: State): Phase {
    Phase(st.expectOperand, st.open)
  }

  /**
   * The grammar, one token at a time: the phase after `t`, or `None` when
   * `t` may not come next. An operand or `(` needs EXPECTING_OPERAND, a
   * binary operator or `)` needs EXPECTING_OPERATOR, NOT needs
   * EXPECTING_OPERAND and keeps it, and `)` needs an open parenthesis.
   */
  function Next(p: Phase, t: Token): Option<Phase> {
    match t
    case LeftParen => if p.expectOperand then Some(Phase(true, p.open + 1)) else None
    case RightParen => if !p.expectOperand && p.open > 0 then Some(Phase(false, p.open - 1)) else None
    case OperatorToken(op) =>
      if op !in OperatorMapping then None
      else if IsNotKey(op) then (if p.expectOperand then Some(p) else None)
      else if !p.expectOperand then Some(Phase(true, p.open))
      else None
    case OperandToken(_) => if p.expectOperand then Some(Phase(false, p.open)) else None
  }

  /** The phase after a token sequence, starting from EXPECTING_OPERAND with nothing open. */
  function After(ts: seq<Token>): Option<Phase> {
    if ts == [] then Some(Phase(true, 0))
    else match After(ts[..|ts| - 1])
      case None => None
      case Some(p) => Next(p, ts[|ts| - 1])
  }

  /** What the scan reads at a non-space cursor, whatever the phase. */
  function ReadAt(s: string, idx: nat): Word
    requires idx < |s|
  {
    if s[idx] == '(' then Word(LeftParen)
    else if s[idx] == ')' then Word(RightParen)
    else WordAt(s, idx)
  }

  /** An operand is accepted only if it is a constant or a valid identifier. */
  predicate Admissible(t: Token, isIdent: string -> bool) {
    t.OperandToken? ==> t.name in Grammar.ConstantValues || isIdent(t.name)
  }

  /** The error type raised for token `t` in phase `p`. */
  function Rejection(p: Phase, t: Token): ErrorKind {
    if Next(p, t).Some? then InvalidIdentifier
    else if t == RightParen && !p.expectOperand then UnbalancedParen
    else if t == LeftParen || t == RightParen then BadParenPosition
    else ExpressionOrder
  }

  /** The scan state after taking token `t` in phase `p`, with the operand recorded as a symbol if it is new. */
  function Push(st: State, t: Token, p: Phase): State {
    var isNew := t.OperandToken? && t.name !in st.symbolSet + Grammar.ConstantValues;
    State(st.idx + |Text(t)|, p.expectOperand, p.open, st.tokens + [t],
          st.symbols + (if isNew then [t.name] else []),
          st.symbolSet + (if isNew then {t.name} else {}))
  }

  /** A parenthesis step follows the grammar. */
  lemma ParenStepFollowsGrammar(s: string, isIdent: string -> bool, st: State)
    requires st.idx < |s| && (s[st.idx] == '(' || s[st.idx] == ')')
    ensures var t, r := ReadAt(s, st.idx).token, Step(s, isIdent, st);
      && (r.Ok? <==> Next(PhaseOf(st), t).Some?)
      && (r.Ok? ==> r.value == Push(st, t, Next(PhaseOf(st), t).value))
      && (r.Err? ==> r.error == At(Rejection(PhaseOf(st), t), r.error.message, s, st.idx))
  {
  }

  /** An operator step follows the grammar. */
  lemma OperatorStepFollowsGrammar(s: string, st: State, m: string)
    requires m in OperatorMapping && m != "" && st.idx + |m| < |s|
    ensures var t, r := OperatorToken(m), OperatorStep(s, st, m, IsNotKey(m));
      && (r.Ok? <==> Next(PhaseOf(st), t).Some?)
      && (r.Ok? ==> r.value == Push(st, t, Next(PhaseOf(st), t).value))
      && (r.Err? ==> r.error == At(Rejection(PhaseOf(st), t), r.error.message, s, st.idx))
  {
    if IsNotKey(m) {
      UnaryStepFollowsGrammar(s, st, m);
    } else {
      BinaryStepFollowsGrammar(s, st, m);
    }
  }

  lemma UnaryStepFollowsGrammar(s: string, st: State, m: string)
    requires m in OperatorMapping && m != "" && st.idx + |m| < |s| && IsNotKey(m)
    ensures var t, r := OperatorToken(m), OperatorStep(s, st, m, IsNotKey(m));
      && (r.Ok? <==> Next(PhaseOf(st), t).Some?)
      && (r.Ok? ==> r.value == Push(st, t, Next(PhaseOf(st), t).value))
      && (r.Err? ==> r.error == At(Rejection(PhaseOf(st), t), r.error.message, s, st.idx))
  {
  }

  lemma BinaryStepFollowsGrammar(s: string, st: State, m: string)
    requires m in OperatorMapping && m != "" && st.idx + |m| < |s| && OperatorMapping[m] != NotOp
    ensures var t, r := OperatorToken(m), OperatorStep(s, st, m, IsNotKey(m));
      && (r.Ok? <==> Next(PhaseOf(st), t).Some?)
      && (r.Ok? ==> r.value == Push(st, t, Next(PhaseOf(st), t).value))
      && (r.Err? ==> r.error == At(Rejection(PhaseOf(st), t), r.error.message, s, st.idx))
  {
  }

  /** An operand step follows the grammar. */
  lemma OperandStepFollowsGrammar(s: string, isIdent: string -> bool, st: State, n: string)
    requires n != "" && st.idx + |n| <= |s|
    ensures var t, r := OperandToken(n), OperandStep(s, isIdent, st, n);
      && (r.Ok? <==> Next(PhaseOf(st), t).Some? && Admissible(t, isIdent))
      && (r.Ok? ==> r.value == Push(st, t, Next(PhaseOf(st), t).value))
      && (r.Err? ==> r.error == At(Rejection(PhaseOf(st), t), r.error.message, s, st.idx))
  {
  }

  /** A word step follows the grammar. */
  lemma WordStepFollowsGrammar(s: string, isIdent: string -> bool, st: State, w: Word)
    requires ValidWord(s, st.idx, w) && w.Word?
    ensures var t, r := w.token, WordStep(s, isIdent, st, w);
      && (r.Ok? <==> Next(PhaseOf(st), t).Some? && Admissible(t, isIdent))
      && (r.Ok? ==> r.value == Push(st, t, Next(PhaseOf(st), t).value))
      && (r.Err? ==> r.error == At(Rejection(PhaseOf(st), t), r.error.message, s, st.idx))
  {
    match w.token
    case OperatorToken(m) => OperatorStepFollowsGrammar(s, st, m);
    case OperandToken(n) => OperandStepFollowsGrammar(s, isIdent, st, n);
  }

  /** On a non-space, non-parenthesis character the loop runs its `else` branch on `WordAt`. */
  lemma StepOnWord(s: string, isIdent: string -> bool, st: State)
    requires st.idx < |s| && !IsSpace(s[st.idx]) && s[st.idx] != '(' && s[st.idx] != ')'
    ensures ValidWord(s, st.idx, WordAt(s, st.idx))
    ensures Step(s, isIdent, st) == WordStep(s, isIdent, st, WordAt(s, st.idx))
  {
    WordAtIsValid(s, st.idx);
  }

  /**
   * The grammar, as the scan applies it: the token read at a non-space
   * cursor is accepted exactly when the grammar allows it in the current
   * phase (and, for an operand, when it is a constant or a valid
   * identifier); then it is appended and the phase advances, and otherwise
   * the matching error is raised at the cursor.
   */
  lemma StepFollowsGrammar(s: string, isIdent: string -> bool, st: State)
    requires st.idx < |s| && !IsSpace(s[st.idx]) && ReadAt(s, st.idx).Word?
    ensures var t, r := ReadAt(s, st.idx).token, Step(s, isIdent, st);
      && (r.Ok? <==> Next(PhaseOf(st), t).Some? && Admissible(t, isIdent))
      && (r.Ok? ==> r.value == Push(st, t, Next(PhaseOf(st), t).value))
      && (r.Err? ==> r.error == At(Rejection(PhaseOf(st), t), r.error.message, s, st.idx))
  {
    if s[st.idx] == '(' || s[st.idx] == ')' {
      ParenStepFollowsGrammar(s, isIdent, st);
    } else {
      StepOnWord(s, isIdent, st);
      WordStepFollowsGrammar(s, isIdent, st, WordAt(s, st.idx));
    }
  }

  /** An operator occupying the last characters of the input is rejected at its start, in any phase. */
  lemma TrailingOperator(s: string, isIdent: string -> bool, st: State, m: string)
    requires st.idx < |s| && !IsSpace(s[st.idx]) && s[st.idx] != '(' && s[st.idx] != ')'
    requires LongestAt(s, st.idx, m) && st.idx + |m| == |s|
    ensures Step(s, isIdent, st) == Err(At(ExpressionOrder, Quoted("Unexpected operator ", m), s, st.idx))
  {
    RecognizeOperator(s, st.idx, m);
  }

  // ---------------------------------------------------------------------------
  // What the scan keeps true

  /** A token as `_to_postfix` will classify it: operators are keys, operands are neither keys nor parentheses. */
  predicate Classified(t: Token) {
    match t
    case OperatorToken(op) => op in OperatorMapping
    case OperandToken(n) => n !in OperatorMapping && n != "(" && n != ")" && n != ""
    case _ => true
  }

  /**
   * The loop invariant of `_tokenize`: the phase is the grammar's phase after
   * the tokens read, `_symbols` lists the non-constant operands in order of
   * first appearance and `_symbol_set` holds exactly them, every token is
   * classified, and no token has been read only while the input was blank.
   */
  predicate Good(s: string, st: State) {
    && ParensCounted(s, st)
    && After(st.tokens) == Some(PhaseOf(st))
    && st.symbols == FirstAppearances(OperandNames(st.tokens), Grammar.ConstantValues)
    && st.symbolSet == (set x | x in st.symbols)
    && (forall i :: 0 <= i < |st.tokens| ==> Classified(st.tokens[i]))
    && (st.tokens == [] ==> forall i :: 0 <= i < st.idx ==> IsSpace(s[i]))
  }

  lemma StartIsGood(s: string)
    ensures Good(s, Start)
  {
    assert s[..0] == [];
  }

  /** Every token read at the cursor is classified. */
  lemma ReadIsClassified(s: string, idx: nat)
    requires idx < |s| && !IsSpace(s[idx]) && ReadAt(s, idx).Word?
    ensures Classified(ReadAt(s, idx).token)
  {
    if s[idx] != '(' && s[idx] != ')' {
      if WordAt(s, idx).token.OperatorToken? {
        WordOperator(s, idx);
      } else {
        OperandIsNotOperator(s, idx);
      }
    }
  }

  /** Taking a token the grammar allows keeps the invariant. */
  lemma PushIsGood(s: string, st: State, t: Token, p: Phase)
    requires Good(s, st) && Next(PhaseOf(st), t) == Some(p) && Classified(t)
    requires ParensCounted(s, Push(st, t, p))
    ensures Good(s, Push(st, t, p))
  {
    var ts := st.tokens + [t];
    assert ts[..|ts| - 1] == st.tokens;
    var ns := OperandNames(st.tokens);
    if t.OperandToken? {
      assert OperandNames(ts) == ns + [t.name];
      assert (ns + [t.name])[..|ns|] == ns;
    } else {
      assert OperandNames(ts) == ns;
    }
  }

  /** One step keeps the invariant. */
  lemma StepIsGood(s: string, isIdent: string -> bool, st: State)
    requires st.idx < |s| && Good(s, st)
    ensures Step(s, isIdent, st).Ok? ==> Good(s, Step(s, isIdent, st).value)
  {
    var r := Step(s, isIdent, st);
    if r.Ok? {
      StepCountsParens(s, isIdent, st);
      if !IsSpace(s[st.idx]) {
        if s[st.idx] != '(' && s[st.idx] != ')' {
          StepOnWord(s, isIdent, st);
        }
        StepFollowsGrammar(s, isIdent, st);
        ReadIsClassified(s, st.idx);
        var t := ReadAt(s, st.idx).token;
        PushIsGood(s, st, t, Next(PhaseOf(st), t).value);
      }
    }
  }

  /** The invariant holds when the loop ends. */
  lemma {:induction false} RunIsGood(s: string, isIdent: string -> bool, st: State)
    requires Good(s, st)
    ensures Run(s, isIdent, st).Ok? ==> Good(s, Run(s, isIdent, st).value)
    decreases |s| - st.idx
  {
    if st.idx < |s| {
      StepIsGood(s, isIdent, st);
      StepCountsParens(s, isIdent, st);
      var r := Step(s, isIdent, st);
      if r.Ok? {
        RunIsGood(s, isIdent, r.value);
      }
    }
  }

  /**
   * A successful `_tokenize`: the whole input was read, every parenthesis
   * was closed, at least one token was read, and the invariant holds (so the
   * tokens follow the grammar and the symbols are the new operands in order).
   */
  lemma TokenizeIsGood(s: string, isIdent: string -> bool)
    ensures Tokenize(s, isIdent).Ok? ==>
      var st := Tokenize(s, isIdent).value;
      Good(s, st) && st.idx == |s| && st.open == 0 && st.tokens != []
  {
    StartIsGood(s);
    RunIsGood(s, isIdent, Start);
  }

  /**
   * The symbols of a tokenized expression: every operand name that is not a
   * constant, each once, in the order of first appearance.
   */
  lemma TokenizeSymbols(s: string, isIdent: string -> bool)
    ensures Tokenize(s, isIdent).Ok? ==>
      var st := Tokenize(s, isIdent).value;
      var ns := OperandNames(st.tokens);
      && (forall x :: x in st.symbols <==> x in ns && x !in Grammar.ConstantValues)
      && Distinct(st.symbols)
      && InFirstOrder(ns, st.symbols)
  {
    TokenizeIsGood(s, isIdent);
    var r := Tokenize(s, isIdent);
    if r.Ok? {
      FirstAppearancesInOrder(OperandNames(r.value.tokens), Grammar.ConstantValues);
    }
  }

  // ---------------------------------------------------------------------------
  // Errors

  /** The error types the loop raises. */
  predicate IsLoopErrorKind(k: ErrorKind) {
    k == BadParenPosition || k == UnbalancedParen || k == ExpressionOrder || k == InvalidIdentifier
  }

  /**
   * An error raised inside the loop: it carries the expression and a
   * position holding a non-space character, and it is a parenthesis error
   * exactly when that character is a parenthesis (only `)` for an unbalanced one).
   */
  predicate LoopError(s: string, e: Error) {
    && e.exprStr == Some(s) && e.errorPos.Some? && e.errorPos.value < |s|
    && !IsSpace(s[e.errorPos.value])
    && IsLoopErrorKind(e.kind)
    && ((e.kind == BadParenPosition || e.kind == UnbalancedParen) <==>
        (s[e.errorPos.value] == '(' || s[e.errorPos.value] == ')'))
    && (e.kind == UnbalancedParen ==> s[e.errorPos.value] == ')')
  }

  /** A step fails only with a loop error at the cursor. */
  lemma StepErrors(s: string, isIdent: string -> bool, st: State)
    requires st.idx < |s|
    ensures Step(s, isIdent, st).Err? ==>
      LoopError(s, Step(s, isIdent, st).error) && Step(s, isIdent, st).error.errorPos == Some(st.idx)
  {
    if !IsSpace(s[st.idx]) {
      if s[st.idx] == '(' || s[st.idx] == ')' {
        ParenStepFollowsGrammar(s, isIdent, st);
      } else {
        StepOnWord(s, isIdent, st);
        if WordAt(s, st.idx).Word? {
          WordStepFollowsGrammar(s, isIdent, st, WordAt(s, st.idx));
        }
      }
    }
  }

  /** The loop fails only with a loop error at or after the position it started from. */
  lemma {:induction false} RunErrors(s: string, isIdent: string -> bool, st: State)
    requires ParensCounted(s, st)
    ensures Run(s, isIdent, st).Err? ==>
      LoopError(s, Run(s, isIdent, st).error) && st.idx <= Run(s, isIdent, st).error.errorPos.value
    decreases |s| - st.idx
  {
    if st.idx < |s| {
      StepErrors(s, isIdent, st);
      StepCountsParens(s, isIdent, st);
      var r := Step(s, isIdent, st);
      if r.Ok? {
        RunErrors(s, isIdent, r.value);
      }
    }
  }

  /**
   * Every error `_tokenize` raises: an empty expression carries neither the
   * expression nor a position; every other error carries both, at a
   * non-space character, and is a parenthesis error exactly when that
   * character is a parenthesis.
   */
  lemma TokenizeErrors(s: string, isIdent: string -> bool)
    ensures Tokenize(s, isIdent).Err? ==>
      var e := Tokenize(s, isIdent).error;
      if e.kind == EmptyExpression then e.exprStr.None? && e.errorPos.None?
      else
        && e.exprStr == Some(s) && e.errorPos.Some? && e.errorPos.value < |s|
        && !IsSpace(s[e.errorPos.value]) && IsLoopErrorKind(e.kind)
        && ((e.kind == BadParenPosition || e.kind == UnbalancedParen) <==>
            (s[e.errorPos.value] == '(' || s[e.errorPos.value] == ')'))
  {
    assert s[..0] == [];
    RunErrors(s, isIdent, Start);
    var r := Run(s, isIdent, Start);
    if r.Ok? && r.value.open > 0 {
      assert s[..|s|] == s;
      var ps := LeftParenPositions(s);
      var p := ps[r.value.open - 1];
      assert p < |s| && s[p] == '(';
      assert !IsSpace(s[p]);
    }
  }

  /** The blank suffix from the cursor on is skipped without reading a token. */
  lemma {:induction false} RunOverSpaces(s: string, isIdent: string -> bool, st: State)
    requires ParensCounted(s, st)
    requires forall i :: st.idx <= i < |s| ==> IsSpace(s[i])
    ensures Run(s, isIdent, st) == Ok(st.(idx := |s|))
    decreases |s| - st.idx
  {
    if st.idx < |s| {
      StepCountsParens(s, isIdent, st);
      RunOverSpaces(s, isIdent, st.(idx := st.idx + 1));
    }
  }

  /** `EmptyExpressionError` is raised exactly for an empty or all-whitespace input. */
  lemma TokenizeEmpty(s: string, isIdent: string -> bool)
    ensures (Tokenize(s, isIdent).Err? && Tokenize(s, isIdent).error.kind == EmptyExpression) <==>
            forall i :: 0 <= i < |s| ==> IsSpace(s[i])
  {
    StartIsGood(s);
    RunIsGood(s, isIdent, Start);
    RunErrors(s, isIdent, Start);
    if forall i :: 0 <= i < |s| ==> IsSpace(s[i]) {
      RunOverSpaces(s, isIdent, Start);
    }
  }

  // ---------------------------------------------------------------------------
  // The loop body, branch by branch

  lemma TextsSnoc(ts: seq<Token>, t: Token)
    ensures Texts(ts + [t]) == Texts(ts) + [Text(t)]
  {
    assert (ts + [t])[..|ts|] == ts;
  }

  lemma StepBlank(s: string, isIdent: string -> bool, st: State)
    requires st.idx < |s| && IsSpace(s[st.idx])
    ensures Step(s, isIdent, st) == Ok(st.(idx := st.idx + 1))
  {
  }

  /** The `else` branch on a trailing operator. */
  lemma StepTrailing(s: string, isIdent: string -> bool, st: State, m: string)
    requires st.idx < |s| && !IsSpace(s[st.idx]) && s[st.idx] != '(' && s[st.idx] != ')'
    requires WordAt(s, st.idx) == Trailing(m)
    ensures Step(s, isIdent, st) == Err(At(ExpressionOrder, Quoted("Unexpected operator ", m), s, st.idx))
  {
    StepOnWord(s, isIdent, st);
  }

  /** The `else` branch on an operator. */
  lemma StepOperator(s: string, isIdent: string -> bool, st: State, m: string)
    requires st.idx < |s| && !IsSpace(s[st.idx]) && s[st.idx] != '(' && s[st.idx] != ')'
    requires WordAt(s, st.idx) == Word(OperatorToken(m))
    requires m in OperatorMapping && m != "" && st.idx + |m| < |s|
    ensures Step(s, isIdent, st) == OperatorStep(s, st, m, IsNotKey(m))
  {
    StepOnWord(s, isIdent, st);
  }

  /** The word step on an operator word. */
  lemma WordStepOnOperator(s: string, isIdent: string -> bool, st: State, m: string)
    requires ValidWord(s, st.idx, Word(OperatorToken(m)))
    ensures m in OperatorMapping
    ensures WordStep(s, isIdent, st, Word(OperatorToken(m))) == OperatorStep(s, st, m, IsNotKey(m))
  {
  }

  /** What `WordAt` decides, given the first operator string matched at `idx` (if any). */
  function WordOf(s: string, idx: nat, matching: Option<string>): Word
    requires idx < |s| && (matching.Some? ==> matching.value != "" && idx + |matching.value| <= |s|)
  {
    match matching
    case None => Word(OperandToken(OperandAt(s, idx)))
    case Some(m) =>
      if idx + |m| >= |s| then Trailing(m)
      else if IsDelimiter(s[idx + |m|]) || IsSymbolic(m) then Word(OperatorToken(m))
      else Word(OperandToken(OperandAt(s, idx)))
  }

  /** The `else` branch on an operand: the text up to the next delimiter. */
  lemma StepOperand(s: string, isIdent: string -> bool, st: State)
    requires st.idx < |s| && !IsSpace(s[st.idx]) && s[st.idx] != '(' && s[st.idx] != ')'
    requires WordAt(s, st.idx) == Word(OperandToken(OperandAt(s, st.idx)))
    ensures Step(s, isIdent, st) == OperandStep(s, isIdent, st, OperandAt(s, st.idx))
  {
    StepOnWord(s, isIdent, st);
  }
}
