/**
 * Building composed transformations: repetition counts, chains of
 * (function, times) stages, the modifiers that multiply a stage's count,
 * `tt_compose`, and calling a chain on an expression.
 */
module Transformations {
  import opened Wrappers
  import opened PyValues

  // ---------------------------------------------------------------------------
  // Repetition counts

  /** A repetition count: an int, or `float('inf')` (`forever`). */
  datatype Times = Finite(n: int) | Forever

  /** `not (times < 1)`. */
  predicate AtLeastOne(t: Times) {
    t.Forever? || t.n >= 1
  }

  /** `a < b` on counts. */
  predicate Less(a: Times, b: Times) {
    match a
    case Forever => false
    case Finite(x) => b.Forever? || x < b.n
  }

  /** `<` is a strict total order on counts, which `functools.total_ordering` extends to `<=`, `>` and `>=`. */
  lemma LessIsStrictTotalOrder(a: Times, b: Times, c: Times)
    ensures !Less(a, a)
    ensures Less(a, b) && Less(b, c) ==> Less(a, c)
    ensures Less(a, b) || a == b || Less(b, a)
  {
  }

  /** `a * b` on counts: infinite as soon as either is. */
  function Mul(a: Times, b: Times): (r: Times)
    ensures r.Forever? <==> a.Forever? || b.Forever?
    ensures r.Finite? ==> r.n == a.n * b.n
    ensures AtLeastOne(a) && AtLeastOne(b) ==> AtLeastOne(r)
  {
    if a.Forever? || b.Forever? then Forever else Finite(a.n * b.n)
  }

  /** `forever` absorbs any count, on either side. */
  lemma ForeverAbsorbs(t: Times)
    ensures Mul(t, Forever) == Forever && Mul(Forever, t) == Forever
  {
  }

  /** Counts multiply associatively, so consecutive modifiers may be grouped either way. */
  lemma MulAssociative(a: Times, b: Times, c: Times)
    ensures Mul(Mul(a, b), c) == Mul(a, Mul(b, c))
  {
    if !(a.Forever? || b.Forever? || c.Forever?) {
      assert a.n * b.n * c.n == a.n * (b.n * c.n);
    }
  }

  datatype TransformError =
    | InvalidArgumentValueError(message: string)
    | InvalidArgumentTypeError(message: string)

  const TimesMessage := "`times` must be at least 1"

  /** `RepeatableAction(times)`: an immutable count, compared by the count alone. */
  datatype RepeatableAction = RepeatableAction(times: Times)

  /** `RepeatableAction.__init__(times)`. */
  function NewRepeatableAction(times: Times): (r: Result<RepeatableAction, TransformError>)
    ensures r.Ok? <==> AtLeastOne(times)
    ensures r.Ok? ==> r.value.times == times
    ensures r.Err? ==> r.error == InvalidArgumentValueError(TimesMessage)
  {
    if Less(times, Finite(1)) then Err(InvalidArgumentValueError(TimesMessage)) else Ok(RepeatableAction(times))
  }

  /** `__eq__` and `__lt__` look at nothing but the count. */
  lemma ActionsCompareByTimes(a: RepeatableAction, b: RepeatableAction)
    ensures a == b <==> a.times == b.times
  {
  }

  /** `str(n)` for an int. */
  function IntToString(n: int): string {
    if n < 0 then "-" + NatToString(-n) else NatToString(n)
  }

  /** `'{}'.format(times)`. */
  function TimesText(t: Times): string {
    if t.Forever? then "inf" else IntToString(t.n)
  }

  /** `RepeatableAction.__str__`: `"N time"`, with an `s` unless the count is 1. */
  function RepeatStr(t: Times): (r: string)
    ensures t == Finite(1) ==> r == "1 time"
    ensures t != Finite(1) ==> r == TimesText(t) + " times"
  {
    TimesText(t) + " time" + (if t == Finite(1) then "" else "s")
  }

  /** The count printed by `str` reads back as the count. */
  lemma RepeatStrRoundTrip(n: nat)
    ensures var r := RepeatStr(Finite(n));
            var k := if n == 1 then 5 else 6;
            |r| > k && DecimalValue(r[..|r| - k]) == n
  {
    var r := RepeatStr(Finite(n));
    var k := if n == 1 then 5 else 6;
    assert r[..|r| - k] == NatToString(n);
    NatToStringRoundTrip(n);
  }

  /** `RepeatableAction.__repr__`. */
  function RepeatRepr(t: Times): string {
    "<RepeatableAction [" + RepeatStr(t) + "]>"
  }

  // ---------------------------------------------------------------------------
  // Composed transformations

  /**
   * A transformation function: a primitive one, known by its `__name__`, or a
   * composed transformation used as a function.
   */
  datatype Fn = Prim(name: string) | Nested(composed: Composed)

  /** `ComposedTransformation(fn, next_transformation, times)`. */
  datatype Composed = Composed(fn: Fn, next: Option<Composed>, times: Times)

  /** A value passed as an argument to the constructor, `compose`, `modify` or `tt_compose`. */
  datatype Arg =
    | Callable(name: string)       // a plain transformation function
    | ComposedArg(ct: Composed)    // a `ComposedTransformation` (callable too)
    | Modifier(count: Times)       // a `repeat` modifier
    | NoneArg
    | NotCallable                  // anything else

  /** `callable(a)`. */
  predicate IsCallable(a: Arg) {
    a.Callable? || a.ComposedArg?
  }

  /** The function a callable argument denotes. */
  function FnOf(a: Arg): Fn
    requires IsCallable(a)
  {
    if a.Callable? then Prim(a.name) else Nested(a.ct)
  }

  /** A stored function passed back as an argument. */
  function ArgOf(f: Fn): (a: Arg)
    ensures IsCallable(a) && FnOf(a) == f
  {
    match f
    case Prim(n) => Callable(n)
    case Nested(c) => ComposedArg(c)
  }

  /** `next_transformation` passed back as an argument. */
  function NextArg(next: Option<Composed>): (a: Arg)
    ensures a.ComposedArg? || a.NoneArg?
    ensures a.ComposedArg? <==> next.Some?
    ensures next.Some? ==> a.ct == next.value
  {
    if next.Some? then ComposedArg(next.value) else NoneArg
  }

  /** A composition the constructor can build: every count at least 1, all the way down. */
  predicate Valid(ct: Composed)
    decreases ct
  {
    AtLeastOne(ct.times) &&
    (ct.next.Some? ==> Valid(ct.next.value)) &&
    (ct.fn.Nested? ==> Valid(ct.fn.composed))
  }

  /** An argument as the source's own objects are: modifiers and compositions went through their constructors. */
  predicate ValidArg(a: Arg) {
    (a.ComposedArg? ==> Valid(a.ct)) && (a.Modifier? ==> AtLeastOne(a.count))
  }

  const FnMessage := "`fn` must be callable"
  const NextMessage := "`next_transformation` must be of type `ComposedTransformation` when used"

  /** The constructor's error once `times`, then `fn`, have been checked in that order. */
  function ConstructorError(fn: Arg, times: Times): TransformError {
    if !AtLeastOne(times) then InvalidArgumentValueError(TimesMessage)
    else if !IsCallable(fn) then InvalidArgumentTypeError(FnMessage)
    else InvalidArgumentTypeError(NextMessage)
  }

  /**
   * `ComposedTransformation.__init__(fn, next_transformation, times)`: the
   * count is checked first, then `fn`, then `next_transformation`.
   */
  function NewComposed(fn: Arg, next: Arg, times: Times): (r: Result<Composed, TransformError>)
    ensures r.Ok? <==> AtLeastOne(times) && IsCallable(fn) && (next.ComposedArg? || next.NoneArg?)
    ensures r.Ok? ==> r.value.fn == FnOf(fn) && r.value.times == times &&
                      r.value.next == (if next.ComposedArg? then Some(next.ct) else None)
    ensures r.Err? ==> r.error == ConstructorError(fn, times)
    ensures r.Ok? && ValidArg(fn) && ValidArg(next) ==> Valid(r.value)
  {
    if NewRepeatableAction(times).Err? then Err(NewRepeatableAction(times).error)
    else if !IsCallable(fn) then Err(InvalidArgumentTypeError(FnMessage))
    else if next.ComposedArg? then Ok(Composed(FnOf(fn), Some(next.ct), times))
    else if next.NoneArg? then Ok(Composed(FnOf(fn), None, times))
    else Err(InvalidArgumentTypeError(NextMessage))
  }

  /**
   * `ComposedTransformation.__str__`: the function's name (for a composed
   * function, its own `str`), then `" (N times)"` when the count exceeds 1,
   * then `" -> "` and the next stage's `str`.
   */
  function Str(ct: Composed): string
    decreases ct
  {
    NameOf(ct.fn) + CountText(ct.times) + (if ct.next.Some? then " -> " + Str(ct.next.value) else "")
  }

  /** `getattr(fn, '__name__', str(fn))`: a composed function has no `__name__`. */
  function NameOf(f: Fn): string
    decreases f
  {
    match f
    case Prim(n) => n
    case Nested(c) => Str(c)
  }

  /** `' ({})'.format(RepeatableAction.__str__(self))` when `times > 1`, else nothing. */
  function CountText(t: Times): string {
    if Less(Finite(1), t) then " (" + RepeatStr(t) + ")" else ""
  }

  /** `ComposedTransformation.__repr__`. */
  function Repr(ct: Composed): string {
    "<ComposedTransformation [" + Str(ct) + "]>"
  }

  const ModifyMessage := "modify() expects `other` to be of type `ComposedTransformation`"
  const ComposeMessage :=
    "compose() expects arguments to either be callable or to be of instance AbstractTransformationModifier"

  /** `repeat(count).modify(other)`: the same function and next stage, with the count multiplied. */
  function Modify(count: Times, other: Arg): Result<Composed, TransformError> {
    if other.ComposedArg? then
      NewComposed(ArgOf(other.ct.fn), NextArg(other.ct.next), Mul(other.ct.times, count))
    else Err(InvalidArgumentTypeError(ModifyMessage))
  }

  /** `self.compose(other)`. */
  function Compose(self: Composed, other: Arg): Result<Composed, TransformError> {
    match other
    case ComposedArg(_) => NewComposed(ArgOf(self.fn), other, self.times)
    case Callable(_) =>
      var second := NewComposed(other, NoneArg, Finite(1));
      if second.Err? then Err(second.error)
      else NewComposed(ArgOf(self.fn), ComposedArg(second.value), Finite(1))
    case Modifier(count) => Modify(count, ComposedArg(self))
    case _ => Err(InvalidArgumentTypeError(ComposeMessage))
  }

  /** `self >> other`. */
  function RShift(self: Composed, other: Arg): Result<Composed, TransformError> {
    Compose(self, other)
  }

  /** `self << other`, which asks `other` to compose with `self`. */
  function LShift(self: Composed, other: Composed): Result<Composed, TransformError> {
    Compose(other, ComposedArg(self))
  }

  /** `a >> b` is `b << a`. */
  lemma ShiftsAgree(a: Composed, b: Composed)
    ensures RShift(a, ComposedArg(b)) == LShift(b, a)
  {
  }

  /**
   * What `compose` builds from a valid composition: with a composition it
   * keeps its own function and count and links the argument as next stage;
   * with a plain function it links a new one-count stage and resets its own
   * count to 1; with a modifier it multiplies its count; anything else is a
   * type error. The result is again valid.
   */
  lemma ComposeCases(self: Composed, other: Arg)
    requires Valid(self) && ValidArg(other)
    ensures other.ComposedArg? ==> Compose(self, other) == Ok(Composed(self.fn, Some(other.ct), self.times))
    ensures other.Callable? ==>
      Compose(self, other) == Ok(Composed(self.fn, Some(Composed(Prim(other.name), None, Finite(1))), Finite(1)))
    ensures other.Modifier? ==>
      Compose(self, other) == Ok(Composed(self.fn, self.next, Mul(self.times, other.count)))
    ensures !IsCallable(other) && !other.Modifier? ==>
      Compose(self, other) == Err(InvalidArgumentTypeError(ComposeMessage))
    ensures Compose(self, other).Ok? ==> Valid(Compose(self, other).value)
  {
    assert ValidArg(ArgOf(self.fn));
    if other.Modifier? {
      assert ValidArg(NextArg(self.next));
    }
  }

  /** Consecutive modifiers multiply their counts into the stage and leave the rest alone. */
  lemma ModifiersMultiply(ct: Composed, a: Times, b: Times)
    requires Valid(ct) && AtLeastOne(a) && AtLeastOne(b)
    ensures var once := Modify(a, ComposedArg(ct));
            once.Ok? && Modify(b, ComposedArg(once.value)) ==
              Ok(Composed(ct.fn, ct.next, Mul(Mul(ct.times, a), b)))
  {
    var once := Modify(a, ComposedArg(ct));
    assert once == Ok(Composed(ct.fn, ct.next, Mul(ct.times, a)));
  }

  /** `repeat(times)`: a modifier, after the count check. */
  function Repeat(times: Times): (r: Result<Arg, TransformError>)
    ensures r.Ok? <==> AtLeastOne(times)
    ensures r.Ok? ==> r.value == Modifier(times) && ValidArg(r.value)
  {
    var action := NewRepeatableAction(times);
    if action.Err? then Err(action.error) else Ok(Modifier(action.value.times))
  }

  /** `twice` and `forever`. */
  const Twice: Arg := Modifier(Finite(2))
  const ForeverModifier: Arg := Modifier(Forever)

  // ---------------------------------------------------------------------------
  // tt_compose

  const TooFewMessage := "`tt_compose()` expects at least two arguments"
  const ModifierFirstMessage := "`tt_compose()` sequence cannot begin with a composition modifier"
  const NotCallableFirstMessage :=
    "`tt_compose()` sequence must begin with a callable transformation function or composition"
  const BadArgMessage :=
    "`tt_compose()` sequence must consist solely of callable transformation functions and transformation modifiers"

  /** The error `tt_compose(*fns)` raises, if any. */
  function ComposeArgsError(fns: seq<Arg>): (e: Option<TransformError>)
    ensures e.None? ==> |fns| >= 2 && IsCallable(fns[0])
  {
    if |fns| < 2 then Some(InvalidArgumentValueError(TooFewMessage))
    else if fns[0].Modifier? then Some(InvalidArgumentTypeError(ModifierFirstMessage))
    else if !IsCallable(fns[0]) then Some(InvalidArgumentTypeError(NotCallableFirstMessage))
    else if exists i :: 1 <= i < |fns| && !IsCallable(fns[i]) && !fns[i].Modifier? then
      Some(InvalidArgumentTypeError(BadArgMessage))
    else None
  }

  /** One stage of a chain: a function and its count. */
  datatype Stage = Stage(fn: Fn, times: Times)

  /**
   * The stages `tt_compose` collects from a sequence starting with a
   * callable: each callable opens a stage with count 1, and each modifier
   * multiplies the count of the stage before it.
   */
  function StagesOf(fns: seq<Arg>): (s: seq<Stage>)
    requires fns != [] && IsCallable(fns[0])
    ensures s != []
  {
    if |fns| == 1 then [Stage(FnOf(fns[0]), Finite(1))]
    else
      var s := StagesOf(fns[..|fns| - 1]);
      var a := fns[|fns| - 1];
      var last := s[|s| - 1];
      if a.Modifier? then s[..|s| - 1] + [Stage(last.fn, Mul(last.times, a.count))]
      else if IsCallable(a) then s + [Stage(FnOf(a), Finite(1))]
      else s
  }

  /** The stages linked front to back by `next_transformation`. */
  function Chain(stages: seq<Stage>): Composed
    requires stages != []
  {
    if |stages| == 1 then Composed(stages[0].fn, None, stages[0].times)
    else Composed(stages[0].fn, Some(Chain(stages[1..])), stages[0].times)
  }

  /** What `tt_compose(*fns)` returns or raises. */
  function TtComposeResult(fns: seq<Arg>): Result<Composed, TransformError> {
    var e := ComposeArgsError(fns);
    if e.Some? then Err(e.value) else Ok(Chain(StagesOf(fns)))
  }

  /** A stage as the composition the loop of `tt_compose` holds for it. */
  function Single(s: Stage): Composed {
    Composed(s.fn, None, s.times)
  }

  /** All counts of the stages are at least 1, and composed functions are valid. */
  predicate ValidStages(stages: seq<Stage>) {
    forall i :: 0 <= i < |stages| ==> Valid(Single(stages[i]))
  }

  lemma {:induction false} StagesValid(fns: seq<Arg>)
    requires fns != [] && IsCallable(fns[0])
    requires forall i :: 0 <= i < |fns| ==> ValidArg(fns[i])
    ensures ValidStages(StagesOf(fns))
  {
    if |fns| > 1 {
      StagesValid(fns[..|fns| - 1]);
    }
  }

  lemma {:induction false} ChainValid(stages: seq<Stage>)
    requires stages != [] && ValidStages(stages)
    ensures Valid(Chain(stages))
  {
    if |stages| > 1 {
      assert Valid(Single(stages[0]));
      ChainValid(stages[1..]);
    }
  }

  /** A callable argument starts a one-count stage. */
  lemma NewStage(a: Arg)
    requires IsCallable(a)
    ensures NewComposed(a, NoneArg, Finite(1)) == Ok(Single(Stage(FnOf(a), Finite(1))))
  {
  }

  /** A modifier applied to a lone stage multiplies its count. */
  lemma ModifyStage(s: Stage, count: Times)
    requires Valid(Single(s)) && AtLeastOne(count)
    ensures Modify(count, ComposedArg(Single(s))) == Ok(Single(Stage(s.fn, Mul(s.times, count))))
  {
  }

  /** Composing a valid lone stage with a chain puts the stage in front. */
  lemma ComposeStage(s: Stage, rest: Composed)
    requires Valid(Single(s))
    ensures Compose(Single(s), ComposedArg(rest)) == Ok(Composed(s.fn, Some(rest), s.times))
  {
  }

  /** Processing one more argument of `tt_compose`. */
  lemma StagesStep(fns: seq<Arg>, i: nat)
    requires 1 <= i < |fns| && IsCallable(fns[0])
    ensures var s := StagesOf(fns[..i]);
            var a := fns[i];
            StagesOf(fns[..i + 1]) ==
              if a.Modifier? then s[..|s| - 1] + [Stage(s[|s| - 1].fn, Mul(s[|s| - 1].times, a.count))]
              else if IsCallable(a) then s + [Stage(FnOf(a), Finite(1))]
              else s
  {
    assert fns[..i + 1][..i] == fns[..i];
  }

  /** A chain of two or more stages is its first stage linked to the chain of the rest. */
  lemma ChainCons(stages: seq<Stage>, k: nat)
    requires k + 1 < |stages|
    ensures Chain(stages[k..]) == Composed(stages[k].fn, Some(Chain(stages[k + 1..])), stages[k].times)
  {
    assert stages[k..][1..] == stages[k + 1..];
  }

  /** No argument after the first is other than a callable or a modifier. */
  predicate RestCallableOrModifier(fns: seq<Arg>, n: nat)
    requires n <= |fns|
  {
    forall j :: 1 <= j < n ==> IsCallable(fns[j]) || fns[j].Modifier?
  }

  /** `modified` holds the lone-stage composition of each stage, in order. */
  predicate SinglesOf(modified: seq<Composed>, stages: seq<Stage>) {
    |modified| == |stages| && forall j :: 0 <= j < |modified| ==> modified[j] == Single(stages[j])
  }

  lemma SinglesReplaceLast(modified: seq<Composed>, curr: Composed, s: seq<Stage>, last: Stage)
    requires SinglesOf(modified + [curr], s)
    ensures SinglesOf(modified + [Single(last)], s[..|s| - 1] + [last])
  {
    assert forall j :: 0 <= j < |modified| ==> (modified + [curr])[j] == modified[j];
  }

  lemma SinglesPush(modified: seq<Composed>, s: seq<Stage>, last: Stage)
    requires SinglesOf(modified, s)
    ensures SinglesOf(modified + [Single(last)], s + [last])
  {
  }

  /**
   * `tt_compose(*fns)`: the arguments are checked, each modifier modifies
   * the current composition, each callable pushes it onto a deque and starts
   * a new one, and the deque is folded from the back with `compose`.
   */
  method TtCompose(fns: seq<Arg>) returns (r: Result<Composed, TransformError>)
    requires forall i :: 0 <= i < |fns| ==> ValidArg(fns[i])
    ensures r == TtComposeResult(fns)
    ensures r.Ok? ==> Valid(r.value)
  {
    if |fns| < 2 {
      return Err(InvalidArgumentValueError(TooFewMessage));
    }
    var first := fns[0];
    if first.Modifier? {
      return Err(InvalidArgumentTypeError(ModifierFirstMessage));
    } else if !IsCallable(first) {
      return Err(InvalidArgumentTypeError(NotCallableFirstMessage));
    }
    var collected := CollectStages(fns);
    if collected.Err? {
      return Err(collected.error);
    }
    StagesValid(fns);
    var composition := FoldStages(collected.value, StagesOf(fns));
    ChainValid(StagesOf(fns));
    return Ok(composition);
  }

  /**
   * The first loop of `tt_compose`: the compositions of the stages, in
   * order, or the type error at the first argument that is neither a
   * callable nor a modifier.
   */
  method CollectStages(fns: seq<Arg>) returns (r: Result<seq<Composed>, TransformError>)
    requires |fns| >= 2 && IsCallable(fns[0])
    requires forall i :: 0 <= i < |fns| ==> ValidArg(fns[i])
    ensures r.Ok? <==> RestCallableOrModifier(fns, |fns|)
    ensures r.Err? ==> r.error == InvalidArgumentTypeError(BadArgMessage)
    ensures r.Ok? ==> SinglesOf(r.value, StagesOf(fns))
  {
    var modified: seq<Composed> := [];
    NewStage(fns[0]);
    var curr := NewComposed(fns[0], NoneArg, Finite(1)).value;
    assert fns[..1] == [fns[0]];
    var i := 1;
    while i < |fns|
      invariant 1 <= i <= |fns|
      invariant RestCallableOrModifier(fns, i)
      invariant SinglesOf(modified + [curr], StagesOf(fns[..i]))
    {
      var fn := fns[i];
      if fn.Modifier? {
        ModifierStep(fns, i, modified, curr);
        curr := Modify(fn.count, ComposedArg(curr)).value;
      } else if IsCallable(fn) {
        CallableStep(fns, i, modified, curr);
        modified := modified + [curr];
        curr := NewComposed(fn, NoneArg, Finite(1)).value;
      } else {
        return Err(InvalidArgumentTypeError(BadArgMessage));
      }
      i := i + 1;
    }
    assert fns[..i] == fns;
    return Ok(modified + [curr]);
  }

  /** A modifier in the first loop multiplies the count of the current stage. */
  lemma ModifierStep(fns: seq<Arg>, i: nat, modified: seq<Composed>, curr: Composed)
    requires 1 <= i < |fns| && IsCallable(fns[0]) && fns[i].Modifier?
    requires forall j :: 0 <= j < |fns| ==> ValidArg(fns[j])
    requires SinglesOf(modified + [curr], StagesOf(fns[..i]))
    ensures Modify(fns[i].count, ComposedArg(curr)).Ok?
    ensures SinglesOf(modified + [Modify(fns[i].count, ComposedArg(curr)).value], StagesOf(fns[..i + 1]))
  {
    var stages := StagesOf(fns[..i]);
    StagesStep(fns, i);
    StagesValid(fns[..i]);
    var last := Stage(stages[|stages| - 1].fn, Mul(stages[|stages| - 1].times, fns[i].count));
    ModifyStage(stages[|stages| - 1], fns[i].count);
    SinglesReplaceLast(modified, curr, stages, last);
  }

  /** A callable in the first loop pushes the current stage and opens a new one. */
  lemma CallableStep(fns: seq<Arg>, i: nat, modified: seq<Composed>, curr: Composed)
    requires 1 <= i < |fns| && IsCallable(fns[0]) && IsCallable(fns[i])
    requires SinglesOf(modified + [curr], StagesOf(fns[..i]))
    ensures NewComposed(fns[i], NoneArg, Finite(1)).Ok?
    ensures SinglesOf(modified + [curr] + [NewComposed(fns[i], NoneArg, Finite(1)).value], StagesOf(fns[..i + 1]))
  {
    StagesStep(fns, i);
    NewStage(fns[i]);
    SinglesPush(modified + [curr], StagesOf(fns[..i]), Stage(FnOf(fns[i]), Finite(1)));
  }

  /** The second loop of `tt_compose`: the stages folded from the back with `compose`. */
  method FoldStages(modified: seq<Composed>, ghost stages: seq<Stage>) returns (composition: Composed)
    requires stages != [] && ValidStages(stages) && SinglesOf(modified, stages)
    ensures composition == Chain(stages)
  {
    var n := |modified| - 1;
    composition := modified[n];
    while n > 0
      invariant 0 <= n < |stages|
      invariant composition == Chain(stages[n..])
    {
      n := n - 1;
      ComposeStage(stages[n], composition);
      ChainCons(stages, n);
      composition := Compose(modified[n], ComposedArg(composition)).value;
    }
  }

  /** The callables among the arguments, as functions, in argument order. */
  function CallablesOf(fns: seq<Arg>): seq<Fn> {
    if fns == [] then []
    else CallablesOf(fns[..|fns| - 1]) + (if IsCallable(fns[|fns| - 1]) then [FnOf(fns[|fns| - 1])] else [])
  }

  /** `tt_compose` chains the callables in argument order, one stage each. */
  lemma {:induction false} StagesFollowCallables(fns: seq<Arg>)
    requires fns != [] && IsCallable(fns[0])
    ensures var s := StagesOf(fns);
            |s| == |CallablesOf(fns)| && forall i :: 0 <= i < |s| ==> s[i].fn == CallablesOf(fns)[i]
  {
    if |fns| == 1 {
      assert fns[..0] == [];
    } else {
      StagesFollowCallables(fns[..|fns| - 1]);
    }
  }

  /** A stage's part of `str`. */
  function StageStr(s: Stage): string {
    NameOf(s.fn) + CountText(s.times)
  }

  function StageStrs(stages: seq<Stage>): (r: seq<string>)
    ensures |r| == |stages|
  {
    if stages == [] then [] else [StageStr(stages[0])] + StageStrs(stages[1..])
  }

  /** The `str` of a chain joins the stages' own texts with `" -> "`. */
  lemma {:induction false} ChainStr(stages: seq<Stage>)
    requires stages != []
    ensures Str(Chain(stages)) == Join(" -> ", StageStrs(stages))
  {
    var head := StageStr(stages[0]);
    if |stages| == 1 {
      assert Str(Chain(stages)) == head + "";
      assert head + "" == head;
    } else {
      var rest := Chain(stages[1..]);
      ChainStr(stages[1..]);
      assert StageStrs(stages) == [head] + StageStrs(stages[1..]);
      assert Str(Chain(stages)) == head + (" -> " + Str(rest));
    }
  }

  /** `tt_compose(f, twice, twice, repeat(3))` is one stage of `f` with count 12. */
  lemma ModifiersAfterOneStage(name: string)
    ensures TtComposeResult([Callable(name), Twice, Twice, Modifier(Finite(3))]) ==
      Ok(Composed(Prim(name), None, Finite(12)))
  {
    var fns := [Callable(name), Twice, Twice, Modifier(Finite(3))];
    assert fns[..1] == [Callable(name)];
    StagesStep(fns, 1);
    assert StagesOf(fns[..2]) == [Stage(Prim(name), Finite(2))];
    StagesStep(fns, 2);
    assert StagesOf(fns[..3]) == [Stage(Prim(name), Finite(4))];
    StagesStep(fns, 3);
    assert fns[..4] == fns;
    assert ComposeArgsError(fns) == None;
  }

  // ---------------------------------------------------------------------------
  // Calling a composition

  /**
   * One application of a function: a primitive transformation is `prim`
   * with its name, a composed one is called in turn. `None` means a
   * `forever` stage inside did not reach a fixpoint within `fuel` steps.
   */
  function Apply<E(==)>(f: Fn, x: E, prim: (string, E) -> E, fuel: nat): Option<E>
    decreases f, 0
  {
    match f
    case Prim(n) => Some(prim(n, x))
    case Nested(c) => Run(c, x, prim, fuel)
  }

  /**
   * The loop of `__call__` with `k` applications left: apply, stop when the
   * result equals its input, otherwise go on. A `forever` stage that uses
   * up its fuel gives `None`.
   */
  function Loop<E(==)>(f: Fn, x: E, k: nat, forever: bool, prim: (string, E) -> E, fuel: nat): Option<E>
    decreases f, 1, k
  {
    if k == 0 then (if forever then None else Some(x))
    else
      match Apply(f, x, prim, fuel)
      case None => None
      case Some(y) => if y == x then Some(y) else Loop(f, y, k - 1, forever, prim, fuel)
  }

  /** How many applications the loop of a stage may make. */
  function Budget(t: Times, fuel: nat): nat {
    if t.Forever? then fuel else if t.n < 0 then 0 else t.n
  }

  /** `ct(x)`: the stage's loop, then the next stage on its result. */
  function Run<E(==)>(ct: Composed, x: E, prim: (string, E) -> E, fuel: nat): Option<E>
    decreases ct, 2
  {
    match Loop(ct.fn, x, Budget(ct.times, fuel), ct.times.Forever?, prim, fuel)
    case None => None
    case Some(y) => if ct.next.Some? then Run(ct.next.value, y, prim, fuel) else Some(y)
  }

  /**
   * `ComposedTransformation.__call__(expr)`: a `while t < times` loop that
   * applies `fn` and breaks as soon as an application changes nothing, then
   * hands the result to the next stage.
   */
  method Call<E(==)>(ct: Composed, x: E, prim: (string, E) -> E, fuel: nat) returns (r: Option<E>)
    ensures r == Run(ct, x, prim, fuel)
    decreases ct
  {
    var times := Budget(ct.times, fuel);
    var forever := ct.times.Forever?;
    var t := 0;
    var next := x;
    while t < times
      invariant 0 <= t <= times
      invariant Loop(ct.fn, x, times, forever, prim, fuel) == Loop(ct.fn, next, times - t, forever, prim, fuel)
    {
      t := t + 1;
      var prev := next;
      match ct.fn {
        case Prim(n) =>
          next := prim(n, next);
        case Nested(c) =>
          var applied := Call(c, next, prim, fuel);
          if applied.None? {
            return None;
          }
          next := applied.value;
      }
      if next == prev {
        break;
      }
    }
    var y := Loop(ct.fn, x, times, forever, prim, fuel);
    if y.None? {
      return None;
    }
    assert y.value == next;
    if ct.next.Some? {
      r := Call(ct.next.value, next, prim, fuel);
    } else {
      r := Some(next);
    }
  }

  /** `i` applications of `f` in a row. */
  function Iterate<E(==)>(f: Fn, x: E, i: nat, prim: (string, E) -> E, fuel: nat): Option<E> {
    if i == 0 then Some(x)
    else
      match Iterate(f, x, i - 1, prim, fuel)
      case None => None
      case Some(y) => Apply(f, y, prim, fuel)
  }

  /** Iterating from `x` one step further is iterating from its first image. */
  lemma {:induction false} IterateShift<E>(f: Fn, x: E, y: E, i: nat, prim: (string, E) -> E, fuel: nat)
    requires Apply(f, x, prim, fuel) == Some(y)
    ensures Iterate(f, x, i + 1, prim, fuel) == Iterate(f, y, i, prim, fuel)
  {
    if i > 0 {
      IterateShift(f, x, y, i - 1, prim, fuel);
    }
  }

  /**
   * The loop stops after `c` applications: between one and `k`, with no
   * earlier application that left its input unchanged, and the last either
   * leaving its input unchanged or using up a finite count.
   */
  predicate StopsAfter<E(==)>(f: Fn, x: E, k: nat, forever: bool, prim: (string, E) -> E, fuel: nat, c: nat, y: E) {
    1 <= c <= k &&
    Iterate(f, x, c, prim, fuel) == Some(y) &&
    (forall i: nat :: i < c - 1 ==> Iterate(f, x, i + 1, prim, fuel) != Iterate(f, x, i, prim, fuel)) &&
    (Iterate(f, x, c - 1, prim, fuel) == Some(y) || (c == k && !forever))
  }

  /** A stage applies its function at least once and at most `times` times, stopping at the first fixpoint. */
  lemma {:induction false} LoopStops<E>(f: Fn, x: E, k: nat, forever: bool, prim: (string, E) -> E, fuel: nat)
    requires k >= 1 && Loop(f, x, k, forever, prim, fuel).Some?
    ensures exists c: nat :: StopsAfter(f, x, k, forever, prim, fuel, c, Loop(f, x, k, forever, prim, fuel).value)
  {
    var y1 := Apply(f, x, prim, fuel).value;
    var y := Loop(f, x, k, forever, prim, fuel).value;
    assert Iterate(f, x, 1, prim, fuel) == Some(y1) by {
      assert Iterate(f, x, 0, prim, fuel) == Some(x);
    }
    if y1 == x {
      assert StopsAfter(f, x, k, forever, prim, fuel, 1, y);
    } else if k == 1 {
      assert StopsAfter(f, x, k, forever, prim, fuel, 1, y);
    } else {
      LoopStops(f, y1, k - 1, forever, prim, fuel);
      var c': nat :| StopsAfter(f, y1, k - 1, forever, prim, fuel, c', y);
      IterateShift(f, x, y1, c', prim, fuel);
      IterateShift(f, x, y1, c' - 1, prim, fuel);
      forall i: nat | i < c' ensures Iterate(f, x, i + 1, prim, fuel) != Iterate(f, x, i, prim, fuel) {
        IterateShift(f, x, y1, i, prim, fuel);
        if i > 0 {
          IterateShift(f, x, y1, i - 1, prim, fuel);
          assert i - 1 < c' - 1;
        }
      }
      assert StopsAfter(f, x, k, forever, prim, fuel, c' + 1, y);
    }
  }

  /** No stage counts `forever`, all the way down. */
  predicate AllFinite(ct: Composed)
    decreases ct
  {
    ct.times.Finite? &&
    (ct.next.Some? ==> AllFinite(ct.next.value)) &&
    (ct.fn.Nested? ==> AllFinite(ct.fn.composed))
  }

  /** Without `forever`, calling a composition always returns, whatever the fuel. */
  lemma {:induction false} RunFinite<E>(ct: Composed, x: E, prim: (string, E) -> E, fuel: nat, fuel': nat)
    requires AllFinite(ct)
    ensures Run(ct, x, prim, fuel).Some? && Run(ct, x, prim, fuel) == Run(ct, x, prim, fuel')
    decreases ct, 2
  {
    var k := Budget(ct.times, fuel);
    assert Budget(ct.times, fuel') == k;
    LoopFinite(ct.fn, x, k, prim, fuel, fuel');
    var y := Loop(ct.fn, x, k, false, prim, fuel).value;
    if ct.next.Some? {
      RunFinite(ct.next.value, y, prim, fuel, fuel');
    }
  }

  lemma {:induction false} LoopFinite<E>(f: Fn, x: E, k: nat, prim: (string, E) -> E, fuel: nat, fuel': nat)
    requires f.Nested? ==> AllFinite(f.composed)
    ensures Loop(f, x, k, false, prim, fuel).Some? && Loop(f, x, k, false, prim, fuel) == Loop(f, x, k, false, prim, fuel')
    decreases f, 1, k
  {
    if k > 0 {
      ApplyFinite(f, x, prim, fuel, fuel');
      var y := Apply(f, x, prim, fuel).value;
      if y != x {
        LoopFinite(f, y, k - 1, prim, fuel, fuel');
      }
    }
  }

  lemma {:induction false} ApplyFinite<E>(f: Fn, x: E, prim: (string, E) -> E, fuel: nat, fuel': nat)
    requires f.Nested? ==> AllFinite(f.composed)
    ensures Apply(f, x, prim, fuel).Some? && Apply(f, x, prim, fuel) == Apply(f, x, prim, fuel')
    decreases f, 0
  {
    if f.Nested? {
      RunFinite(f.composed, x, prim, fuel, fuel');
    }
  }
}
