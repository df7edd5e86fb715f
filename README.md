# tt — a verified model of the Boolean-expression toolkit's core

`tt` parses Boolean expressions written with symbolic (`&&`, `->`, `~`) or
plain-English (`and`, `impl`, `not`) operators. It validates the symbols and
values a caller supplies, composes expression transformations, feeds clause
lists to the PicoSAT solver through a C extension, and ships a few older
string and bit helpers. This project models those pieces in Dafny and proves
what they promise.

- **Expression front end** (modules `Grammar`, `Operators`, `Tokenizer`,
  `Postfix`, `BExpr`).
  - `Operators` is the operator table. `Grammar` holds the delimiters, the
    constants and the grammar errors.
  - `Tokenizer` is the `_tokenize` scan as a function over a scan state. Its
    lemmas cover longest-match operator recognition, the
    operand/operator alternation, parenthesis balance, and every error with
    its position.
  - `Postfix` is the `_to_postfix` shunting-yard pass as a function.
  - `BExpr` is the `BooleanExpression` object. Its fields are filled by
    `while`/`for` loops that are proved equal to those functions. It also
    states what a parsed expression guarantees (symbols in first-appearance
    order, postfix holding exactly the non-parenthesis tokens).
- **Validators** (`SymbolAssertions`): the duplicate, missing, extra and
  invalid-value checks and their order. `tt/_assertions/collections.py` and
  its older copy `tt/utils/assertions.py` have the same code. They are
  modelled once, and the rows below cite the first.
- **Transformation algebra** (`Transformations`):
  - repeat counts (`Finite(n) | Forever`) and `RepeatableAction`;
  - `ComposedTransformation` with `compose`, `>>`/`<<` and `str`;
  - the modifiers, and `tt_compose` as a method with its two loops;
  - `__call__` as a method.
- **PicoSAT glue** (`SatEncoding`, `PicoSat`):
  - the solver handle is a class whose `stream` field is the sequence of
    literals and `0` terminators handed to `picosat_add`;
  - the engine itself is an oracle parameter (`Oracle`);
  - clause and assumption validation, setup, solution lists, blocking
    clauses, the solution iterator and `sat_one` are methods proved against
    functions of `SatEncoding`.
- **Legacy helpers** (`SchemaProvider`, `LegacyOperators`, `EqTools`,
  `Utils`, `BitTools`, `ResultAnalysis`, `TtFmt`), with the shared modules
  `Wrappers`, `PyValues` and `Seqs`. `PyValues` holds the Python values that
  cross the interfaces, with `str(n)`, `format(n, 'b')` and `c * k`.

Python `int`s are unbounded and modelled as `int`/`nat`. The C side models
`PyLong_AsLong` and the store into a 32-bit `int` explicitly
(`SatEncoding.AsLong`, `SatEncoding.ToCInt`).

## Model

| member | source | states |
|---|---|---|
| Operators.PrecedenceOrder | tt/definitions/operators.py:94-172 | NOT binds tighter than IMPL = XOR = XNOR, which bind tighter than AND = NAND, which bind tighter than OR = NOR |
| Operators.EvalFunctions | tt/definitions/operators.py:102-167 | the eight lambdas are not a, ¬a ∨ b, a ≠ b, a = b, a ∧ b, ¬(a ∧ b), a ∨ b, ¬(a ∨ b) |
| Operators.OperatorSets | tt/definitions/operators.py:174-189 | `BINARY_OPERATORS` is every operator but NOT; `NON_PRIMITIVE_OPERATORS` is {IMPL, NAND, NOR, XNOR, XOR} |
| Operators.OperatorStrings | tt/definitions/operators.py:15-19 | `str(op)` is the plain-English name, `repr` is `<BooleanOperator "name">`, and the default symbol is None exactly for xor, xnor, nand and nor |
| Operators.OperatorStrsNonEmpty | tt/definitions/operators.py:199-253 | no operator string is empty or a parenthesis |
| Operators.OperatorStrClasses | tt/definitions/operators.py:199-253 | plain-English keys consist of letters; every symbolic key starts with a non-letter |
| Operators.OperatorStrsDistinct | tt/definitions/operators.py:199-253 | no key is listed twice across the two mappings |
| Operators.OperatorMappingIsOneDict | tt/definitions/operators.py:263-275 | the two `update` calls give the same dict as one display of all thirty entries |
| Operators.OperatorMappingKeys | tt/definitions/operators.py:263-275 | `OPERATOR_MAPPING` has exactly the thirty listed keys |
| Operators.OperatorMappingValues | tt/definitions/operators.py:199-275 | each key denotes the operator listed beside it |
| Operators.MappingIsDisjointUnion | tt/definitions/operators.py:263-275 | the mapping is the union of the symbolic and plain-English maps, whose key sets are disjoint, and agrees with each on its keys |
| Operators.NotEntries | tt/definitions/operators.py:199-253 | exactly `not`, `NOT`, `~` and `!` map to NOT |
| Operators.XnorEntries | tt/definitions/operators.py:199-253 | exactly `iff`, `IFF`, `xnor`, `XNOR`, `nxor`, `NXOR` and `<->` map to XNOR |
| Operators.MaxLength | tt/definitions/operators.py:277 | the maximum is at least every length and is reached by some key |
| Operators.MaxOperatorStrLenIsFour | tt/definitions/operators.py:277 | `MAX_OPERATOR_STR_LEN` is 4 |
| Operators.TokenDelimitersValue | tt/expressions/bexpr.py:209-210 | the tokenizer's delimiters are space, the parentheses and the first characters of the symbolic keys |
| Operators.DelimitersAreNotLetters | tt/expressions/bexpr.py:209-210 | no delimiter is a letter |
| Operators.NonOperatorStrs | tt/definitions/grammar.py:4-11 | neither parenthesis nor either constant is an operator key |
| Operators.OperatorStrFacts | tt/definitions/operators.py:199-253 | a listed operator string is a key, is not a parenthesis or constant, and is all letters if it starts with one |
| Operators.OperatorKeys | tt/definitions/operators.py:263-275 | every key of `OPERATOR_MAPPING` is a listed operator string |
| Tokenizer.Texts | tt/expressions/bexpr.py:231 | the token texts appended to `self._tokens`, one per token, in order |
| Tokenizer.OperandNames | tt/expressions/bexpr.py:300 | a name is among the operand names exactly when it was read as an operand token |
| Tokenizer.FirstAppearances | tt/expressions/bexpr.py:301-303 | the names kept are exactly those read and not excluded (the constants), each once |
| Tokenizer.FirstAppearancesInOrder | tt/expressions/bexpr.py:301-303 | the kept names come in the order of their first occurrence |
| Tokenizer.SearchListIsStableSort | tt/expressions/bexpr.py:208 | `operator_search_list` is the key list stably sorted by decreasing length (Python's `sorted` is stable) |
| Tokenizer.SearchListElements | tt/expressions/bexpr.py:206-208 | the search list holds exactly the operator keys, longest first |
| Tokenizer.FirstMatchSpec | tt/expressions/bexpr.py:248-254 | `matching_operators[0]` is the first listed string occurring at the cursor, and there is none only if no listed string occurs there |
| Tokenizer.LongestMatch | tt/expressions/bexpr.py:248-254 | the chosen operator is a longest key occurring at the cursor; none is chosen only when no key occurs there |
| Tokenizer.SameLengthMatchesAreEqual | tt/expressions/bexpr.py:248-254 | two matches at one place of the same length are the same string, so the longest match is unique |
| Tokenizer.LeftParenPositions | tt/expressions/bexpr.py:309-310 | the positions of every `(` of the input, strictly increasing |
| Tokenizer.LeftParenPositionsGrow | tt/expressions/bexpr.py:309-310 | a longer prefix has at least as many `(` positions |
| Tokenizer.DelimitersValue | tt/expressions/bexpr.py:209-210 | the character test the scan uses is membership in `delimiters` |
| Tokenizer.OperandEnd | tt/expressions/bexpr.py:288-291 | the operand scan stops at the first delimiter after the start, or at the end of the input |
| Tokenizer.OperandStep | tt/expressions/bexpr.py:283-306 | the operand branch moves the cursor forward and leaves the open count alone |
| Tokenizer.OperatorStep | tt/expressions/bexpr.py:266-281 | the operator branch moves the cursor forward and leaves the open count alone |
| Tokenizer.ParenStep | tt/expressions/bexpr.py:225-243 | a parenthesis advances the cursor by one and leaves the grammar state as it was |
| Tokenizer.Step | tt/expressions/bexpr.py:219-306 | one loop iteration moves the cursor forward, within the input |
| Tokenizer.WordStep | tt/expressions/bexpr.py:244-306 | the `else` branch moves the cursor forward and leaves the open count alone |
| Tokenizer.StepCountsParens | tt/expressions/bexpr.py:225-243 | after each iteration the open count is the number of `(` minus `)` already read |
| Tokenizer.Run | tt/expressions/bexpr.py:219-306 | the loop either fails or consumes the whole input, with the open count matching the parentheses read |
| Tokenizer.WordOperator | tt/expressions/bexpr.py:253-281 | an operator word is a key occurring at the cursor with a character after it |
| Tokenizer.RecognizeOperator | tt/expressions/bexpr.py:245-281 | with the longest key at the cursor: at the end of input it is a trailing operator; a symbolic one is an operator; a plain-English one is an operator only if a delimiter follows, otherwise the text is an operand |
| Tokenizer.WordAtTrailing | tt/expressions/bexpr.py:257-264 | a match reaching the end of the input is read as a trailing operator |
| Tokenizer.WordAtSymbolic | tt/expressions/bexpr.py:266 | a symbolic match with text after it is an operator |
| Tokenizer.WordAtPlainOperator | tt/expressions/bexpr.py:266 | a plain-English match followed by a delimiter is an operator |
| Tokenizer.WordAtPlainOperand | tt/expressions/bexpr.py:283-293 | a plain-English match followed by a non-delimiter is read as part of an operand |
| Tokenizer.OperandOutrunsMatch | tt/expressions/bexpr.py:283-293 | an operand read over a plain-English match runs past the match |
| Tokenizer.RecognizeOperand | tt/expressions/bexpr.py:283-293 | where no key occurs, the text up to the next delimiter is an operand |
| Tokenizer.OperandIsNotOperator | tt/expressions/bexpr.py:283-293 | an operand read by the scan is never an operator key, a parenthesis or empty |
| Tokenizer.ParenStepFollowsGrammar | tt/expressions/bexpr.py:225-243 | `(` succeeds exactly when an operand is expected, `)` exactly when an operator is expected and a `(` is open; otherwise the grammar's error at the cursor |
| Tokenizer.OperatorStepFollowsGrammar | tt/expressions/bexpr.py:266-281 | an operator succeeds exactly when the grammar allows it in the current state; the error is the grammar's, at the cursor |
| Tokenizer.UnaryStepFollowsGrammar | tt/expressions/bexpr.py:267-271 | NOT needs an expected operand and leaves the state unchanged; otherwise ExpressionOrderError at the cursor |
| Tokenizer.BinaryStepFollowsGrammar | tt/expressions/bexpr.py:272-277 | a binary operator needs an expected operator and flips back to expecting an operand; otherwise ExpressionOrderError at the cursor |
| Tokenizer.OperandStepFollowsGrammar | tt/expressions/bexpr.py:283-306 | an operand succeeds exactly when an operand is expected and it is a constant or a valid identifier, and flips to expecting an operator |
| Tokenizer.WordStepFollowsGrammar | tt/expressions/bexpr.py:244-306 | the `else` branch follows the grammar for the word it reads |
| Tokenizer.StepOnWord | tt/expressions/bexpr.py:244 | a non-space, non-parenthesis character runs the `else` branch on the word there |
| Tokenizer.StepFollowsGrammar | tt/expressions/bexpr.py:219-306 | every iteration on a token succeeds exactly when the grammar and the operand check allow it, and its error is the grammar's, at the cursor |
| Tokenizer.TrailingOperator | tt/expressions/bexpr.py:257-264 | an operator occupying the last characters is rejected with ExpressionOrderError at its start, whatever the state |
| Tokenizer.StartIsGood | tt/expressions/bexpr.py:211-216 | the loop starts in its invariant |
| Tokenizer.ReadIsClassified | tt/expressions/bexpr.py:244-306 | every token the scan reads is a parenthesis, an operator key or an operand that is not one |
| Tokenizer.StepIsGood | tt/expressions/bexpr.py:219-306 | one iteration keeps the invariant: tokens follow the grammar and the symbols are their first appearances |
| Tokenizer.RunIsGood | tt/expressions/bexpr.py:219-306 | the invariant holds when the loop ends |
| Tokenizer.TokenizeIsGood | tt/expressions/bexpr.py:197-316 | a successful `_tokenize` read the whole input, closed every parenthesis and produced at least one token |
| Tokenizer.TokenizeSymbols | tt/expressions/bexpr.py:300-303 | `symbols` lists every non-constant operand name exactly once, in order of first appearance |
| Tokenizer.StepErrors | tt/expressions/bexpr.py:219-306 | an iteration fails only with a loop error at the cursor |
| Tokenizer.RunErrors | tt/expressions/bexpr.py:219-306 | the loop fails only with a loop error at or after where it started |
| Tokenizer.TokenizeErrors | tt/expressions/bexpr.py:197-316 | an empty expression carries neither position nor expression; every other error carries both, at a non-space character, and is a parenthesis error exactly when that character is a parenthesis |
| Tokenizer.RunOverSpaces | tt/expressions/bexpr.py:222-224 | a blank suffix is skipped without reading a token |
| Tokenizer.TokenizeEmpty | tt/expressions/bexpr.py:315-316 | EmptyExpressionError is raised exactly for an empty or all-whitespace input |
| Tokenizer.StepBlank | tt/expressions/bexpr.py:222-224 | whitespace only moves the cursor |
| Tokenizer.StepTrailing | tt/expressions/bexpr.py:260-264 | the `else` branch on a trailing operator raises ExpressionOrderError at the cursor |
| Tokenizer.StepOperand | tt/expressions/bexpr.py:283-306 | the `else` branch on an operand runs the operand step on the text up to the next delimiter |
| Postfix.PopHigher | tt/expressions/bexpr.py:332-335 | the operator branch's inner loop moves popped entries to the output, top first, and leaves only table keys and `(` on the stack |
| Postfix.PopHigherStops | tt/expressions/bexpr.py:332-335 | it pops exactly the longest run at the top of operators binding strictly tighter than the incoming one |
| Postfix.PopToParen | tt/expressions/bexpr.py:338-339 | the `)` loop pops every entry above the nearest `(` and stops at it or at the bottom |
| Postfix.StepToken | tt/expressions/bexpr.py:323-340 | one token step keeps the stack made of `(` and operator keys |
| Postfix.Run | tt/expressions/bexpr.py:323-340 | the token loop keeps the stack made of `(` and operator keys |
| Postfix.PoppedKeeps | tt/expressions/bexpr.py:332-339 | popping moves operators only: the output's operands and the multiset of non-parenthesis entries stay as they were |
| Postfix.StepKeeps | tt/expressions/bexpr.py:323-340 | one step keeps every operand and operator, adding operands to the output in order |
| Postfix.RunKeeps | tt/expressions/bexpr.py:323-340 | the token loop keeps every operand and operator and drops exactly the parentheses that pair up |
| Postfix.NestedSnoc | tt/expressions/bexpr.py:337-340 | appending a token changes the depth by its count and keeps the nesting while the depth stays non-negative |
| Postfix.StepNested | tt/expressions/bexpr.py:337-340 | a step that does not close more than is open succeeds, changing the `(` count on the stack by the token's depth change |
| Postfix.RunNested | tt/expressions/bexpr.py:337-340 | on properly nested tokens the `stack.pop()` never meets an empty stack, and the `(` entries left are the ones still open |
| Postfix.ConvertKeeps | tt/expressions/bexpr.py:318-343 | on nested tokens `_to_postfix` succeeds, its output is a permutation of the non-parenthesis tokens, and the operands keep their order |
| Postfix.RunFailsFor | tt/expressions/bexpr.py:323-340 | once a prefix fails, the whole pass fails with the same error |
| Postfix.RunSnoc | tt/expressions/bexpr.py:323-340 | the loop over one more token is one more step |
| Postfix.PushOperator | tt/expressions/bexpr.py:329-336 | an operator that nothing on the stack top outranks is pushed without popping anything |
| Postfix.PopsTighter | tt/expressions/bexpr.py:331-336 | a tighter-binding operator on top goes to the output before the incoming operator is pushed |
| Postfix.ChainGroupsRight | tt/expressions/bexpr.py:318-343 | for any table, `A op B op C` converts to `A B C op op`: equal precedence groups to the right |
| Postfix.TighterFirst | tt/expressions/bexpr.py:318-343 | `A hi B lo C`, with `hi` binding tighter, converts to `A B hi C lo` |
| Postfix.LooserFirst | tt/expressions/bexpr.py:318-343 | `A lo B hi C`, with `hi` binding tighter, converts to `A B C hi lo` |
| Postfix.ParensGroupFirst | tt/expressions/bexpr.py:318-343 | `( A op B ) op C` converts to `A B op C op`, with the parentheses dropped |
| Postfix.AndOrOrder | tt/expressions/bexpr.py:318-343 | with the package's table, `A and B or C` gives `A B and C or` and `A or B or C` gives `A B C or or` |
| BExpr.AfterNests | tt/expressions/bexpr.py:225-243 | tokens the grammar accepts nest their parentheses, and the depth at the end is the open count |
| BExpr.ParensAreNeither | tt/expressions/bexpr.py:320-328 | parentheses are neither operands nor operator keys |
| BExpr.SortedTokens | tt/expressions/bexpr.py:320-337 | every token is a parenthesis, an operand or an operator key |
| BExpr.TokensFit | tt/expressions/bexpr.py:197-343 | what `_tokenize` produces is what `_to_postfix` expects: classified, nested and balanced |
| BExpr.TokensConvert | tt/expressions/bexpr.py:318-343 | the postfix pass never fails on what the tokenizer produced |
| BExpr.KeptIsBare | tt/expressions/bexpr.py:318-343 | on classified tokens the pass keeps exactly the non-parenthesis tokens |
| BExpr.RejectsNonString | tt/expressions/bexpr.py:24-25 | InvalidArgumentTypeError is raised exactly for a non-string, before tokenizing |
| BExpr.BuildFailsOnlyInTokenize | tt/expressions/bexpr.py:23-36 | a string fails to build exactly when `_tokenize` fails, with the same error |
| BExpr.BuildGuarantees | tt/expressions/bexpr.py:59-108 | `symbols` lists each non-constant operand once, `_symbol_set` is its set, `postfix_tokens` is a permutation of the non-parenthesis `tokens`, with the operands in the same order |
| BExpr.TokenizeFinishes | tt/expressions/bexpr.py:308-316 | after the loop, k open parentheses raise UnbalancedParenError at the k-th `(` of the input; otherwise no token raises EmptyExpressionError |
| BExpr.RunStopsAtStep | tt/expressions/bexpr.py:219-306 | a failing iteration ends the loop with its error |
| BExpr.BooleanExpression.Init | tt/expressions/bexpr.py:27-33 | the fields before tokenizing: the raw string and empty lists and set |
| BExpr.BooleanExpression.New | tt/expressions/bexpr.py:23-36 | the object holds exactly what the type check, `_tokenize` and `_to_postfix` compute, or the error they raise |
| BExpr.BooleanExpression.MatchingOperator | tt/expressions/bexpr.py:248-254 | the first match of the search list at the cursor decides the word read there |
| BExpr.BooleanExpression.ReadWord | tt/expressions/bexpr.py:244-306 | the `else` branch appends the token the loop function reads, or raises its error |
| BExpr.BooleanExpression.ReadOperator | tt/expressions/bexpr.py:266-281 | the operator branch appends the operator and sets the state as the step function does, or raises its error |
| BExpr.BooleanExpression.ReadOperand | tt/expressions/bexpr.py:283-306 | the operand branch appends the operand, updates `symbols` and `_symbol_set`, or raises the step function's error |
| BExpr.BooleanExpression.ScanParen | tt/expressions/bexpr.py:225-243 | the parenthesis branches update count and tokens as the step function does |
| BExpr.BooleanExpression.ScanChar | tt/expressions/bexpr.py:219-306 | one loop body is one step of the loop function |
| BExpr.BooleanExpression.Tokenize | tt/expressions/bexpr.py:197-316 | the loop fills `tokens`, `symbols` and `_symbol_set` with what `Tokenizer.Tokenize` computes, or raises its error |
| BExpr.BooleanExpression.PopTighter | tt/expressions/bexpr.py:332-335 | the inner `while` pops as `Postfix.PopHigher` does |
| BExpr.BooleanExpression.PopToOpen | tt/expressions/bexpr.py:338-339 | the `)` `while` pops as `Postfix.PopToParen` does |
| BExpr.BooleanExpression.PushToken | tt/expressions/bexpr.py:324-340 | one `for` iteration is one `Postfix.StepToken` |
| BExpr.BooleanExpression.EmitStack | tt/expressions/bexpr.py:342-343 | what is left on the stack is appended top first |
| BExpr.BooleanExpression.ToPostfix | tt/expressions/bexpr.py:318-343 | `postfix_tokens` is what `Postfix.ToPostfix` computes |
| SymbolAssertions.CardMeansDistinct | tt/_assertions/collections.py:35-38 | the length test `len(list) != len(set)` detects exactly a repeated symbol |
| SymbolAssertions.ContainsAllSymbols | tt/_assertions/collections.py:35-51 | passes iff no duplicates and the passed set equals the reference; DuplicateSymbolError iff a repeat; MissingSymbolError carries reference minus passed; ExtraSymbolError only when nothing is missing and carries passed minus reference |
| SymbolAssertions.FirstInvalid | tt/_assertions/collections.py:78-86 | the position of the first offending entry; all before it are valid |
| SymbolAssertions.ValidKeys | tt/_assertions/collections.py:78-86 | passes iff every entry is valid; otherwise the error of the first offending entry: ExtraSymbolError for a key outside the symbols, else InvalidBooleanValueError |
| SymbolAssertions.ExtraKeyFirst | tt/_assertions/collections.py:79-81 | a key outside the symbols is reported even when its value is also bad |
| SymbolAssertions.SubsetPasses | tt/_assertions/collections.py:54-86 | any subset of the symbols with values in {0, 1, True, False} passes: missing symbols are never reported |
| Transformations.LessIsStrictTotalOrder | tt/transformations/utils.py:125-129 | `<` on counts is irreflexive, transitive and total |
| Transformations.Mul | tt/transformations/utils.py:414-419 | a product of counts is infinite iff either is, otherwise the product of the numbers, and at least 1 when both are |
| Transformations.ForeverAbsorbs | tt/transformations/utils.py:434 | `forever` absorbs any count, on either side |
| Transformations.MulAssociative | tt/transformations/utils.py:414-419 | consecutive modifiers may be grouped either way |
| Transformations.NewRepeatableAction | tt/transformations/utils.py:91-95 | succeeds iff the count is at least 1, keeping it; otherwise InvalidArgumentValueError |
| Transformations.ActionsCompareByTimes | tt/transformations/utils.py:119-123 | two actions are equal iff their counts are |
| Transformations.RepeatStr | tt/transformations/utils.py:131-133 | "1 time" for a count of 1, "N times" otherwise |
| Transformations.RepeatStrRoundTrip | tt/transformations/utils.py:131-133 | the number printed by `str` reads back as the count |
| Transformations.NewComposed | tt/transformations/utils.py:220-238 | succeeds iff the count is at least 1, `fn` is callable and the next is None or a composition; keeps the three fields |
| Transformations.ShiftsAgree | tt/transformations/utils.py:273-277 | `a >> b` equals `b << a` |
| Transformations.ComposeCases | tt/transformations/utils.py:308-337 | with a composition, keeps `fn` and `times` and links it; with a plain callable, links a one-count stage and resets `times` to 1; with a modifier, multiplies; anything else raises InvalidArgumentTypeError |
| Transformations.ModifiersMultiply | tt/transformations/utils.py:414-419 | two modifiers in turn keep `fn` and `next` and multiply the count by both |
| Transformations.Repeat | tt/transformations/utils.py:410-412 | `repeat(n)` is a modifier iff n is at least 1 |
| Transformations.ComposeArgsError | tt/transformations/utils.py:492-503 | no error only with at least two arguments, the first callable |
| Transformations.StagesOf | tt/transformations/utils.py:505-519 | the stages collected are never empty |
| Transformations.StagesValid | tt/transformations/utils.py:505-519 | every collected stage is a valid composition |
| Transformations.StagesStep | tt/transformations/utils.py:508-519 | a modifier multiplies the current stage's count, a callable opens a new one-count stage |
| Transformations.ChainCons | tt/transformations/utils.py:521-526 | the fold links each stage to the chain of those after it |
| Transformations.TtCompose | tt/transformations/utils.py:442-526 | `tt_compose` computes the chain of its stages or the first argument error, and the chain is valid |
| Transformations.CollectStages | tt/transformations/utils.py:505-519 | the first loop succeeds iff every later argument is callable or a modifier, and yields one composition per stage |
| Transformations.FoldStages | tt/transformations/utils.py:521-526 | the second loop folds the stages from the back into their chain |
| Transformations.StagesFollowCallables | tt/transformations/utils.py:505-526 | the chain has one stage per callable argument, in argument order |
| Transformations.ChainStr | tt/transformations/utils.py:279-289 | `str` of a chain joins the stages' texts with " -> " |
| Transformations.ModifiersAfterOneStage | tt/transformations/utils.py:505-526 | `tt_compose(f, twice, twice, repeat(3))` is one stage of `f` with count 12 |
| Transformations.Call | tt/transformations/utils.py:240-271 | the `while t < times` loops compute the model's `Run` |
| Transformations.LoopStops | tt/transformations/utils.py:245-271 | a stage applies its function at least once and at most `times` times, stopping at the first application that returns its input |
| Transformations.RunFinite | tt/transformations/utils.py:240-271 | without `forever`, calling a composition always returns, whatever the fuel |
| PicoSat.Solver.constructor | tt/_clibs/picosatmodule.c:285 | a new instance has an empty stream and no assumptions |
| PicoSat.Solver.Add | tt/_clibs/picosatmodule.c:104 | `picosat_add` appends one literal to the stream |
| PicoSat.Solver.Assume | tt/_clibs/picosatmodule.c:255 | `picosat_assume` appends one assumption |
| PicoSat.Solver.Sat | tt/_clibs/picosatmodule.c:396 | `picosat_sat` records the oracle's answer on the stream and assumptions, then drops the assumptions |
| PicoSat.Solver.Reset | tt/_clibs/picosatmodule.c:290 | `picosat_reset` ends the instance |
| SatEncoding.AsLong | tt/_clibs/picosatmodule.c:94 | `PyLong_AsLong` gives a C `long`, and -1 on overflow |
| SatEncoding.ToCInt | tt/_clibs/picosatmodule.c:66-94 | storing into `int l` keeps the low 32 bits as two's complement, and keeps every 32-bit value |
| SatEncoding.ToCIntPeriodic | tt/_clibs/picosatmodule.c:66-94 | values 2^32 apart are stored alike |
| SatEncoding.LiteralWraps | tt/_clibs/picosatmodule.c:94-102 | 32-bit ints are kept, 2^32 becomes 0 (and is rejected as zero), 2^32 + 1 becomes literal 1, and an overflowing value becomes -1 |
| SatEncoding.Lits | tt/_clibs/picosatmodule.c:84-106 | the converted literals of the items, in order |
| SatEncoding.ScanSucceeds | tt/_clibs/picosatmodule.c:84-111 | the literal loop succeeds exactly when no overflow occurred and every item is a non-zero int |
| SatEncoding.ScanAdds | tt/_clibs/picosatmodule.c:84-111 | on success it adds the literals in order and then a 0 |
| SatEncoding.ScanStopsShort | tt/_clibs/picosatmodule.c:84-111 | on failure it has added the literals of a prefix, none 0, so no terminator |
| SatEncoding.ClauseLits | tt/_clibs/picosatmodule.c:84-106 | an accepted clause's literals, none zero |
| SatEncoding.ClauseAccepted | tt/_clibs/picosatmodule.c:61-113 | a clause is accepted iff it is a non-empty list of non-zero ints; it then feeds its literals and a 0, and a rejected one feeds no 0 |
| SatEncoding.ClauseList | tt/_clibs/picosatmodule.c:121-160 | the literal lists of the accepted clauses, in order |
| SatEncoding.ClausesAppend | tt/_clibs/picosatmodule.c:104-111 | adding a terminated clause to a complete stream adds exactly that clause |
| SatEncoding.ClausesAccepted | tt/_clibs/picosatmodule.c:121-160 | a clause list is accepted iff it is a non-empty list of accepted clauses; the stream then holds exactly those clauses, in order |
| SatEncoding.ClausesFromSucceeds | tt/_clibs/picosatmodule.c:139-153 | the clause loop succeeds iff every clause is accepted |
| SatEncoding.ClausesFromStream | tt/_clibs/picosatmodule.c:139-153 | after accepted clauses the stream is complete and holds their literal lists in order |
| SatEncoding.AssumptionLits | tt/_clibs/picosatmodule.c:233-264 | the assumptions handed to `picosat_assume`, none zero |
| SatEncoding.AssumptionsAccepted | tt/_clibs/picosatmodule.c:167-224 | None or a non-empty list of non-zero ints passes the validation, and nothing else |
| SatEncoding.SetupChecksAssumptionsFirst | tt/_clibs/picosatmodule.c:272-314 | bad assumptions are reported before the clauses are looked at; setup succeeds iff both are accepted |
| SatEncoding.SolutionList | tt/_clibs/picosatmodule.c:319-348 | one entry per variable |
| SatEncoding.SolutionListSigns | tt/_clibs/picosatmodule.c:326-345 | entry i-1 is +i for a true and -i for a false variable i, true under the assignment |
| SatEncoding.BlockingLits | tt/_clibs/picosatmodule.c:355-378 | one non-zero literal per variable |
| SatEncoding.BlockingOfSolutionList | tt/_clibs/picosatmodule.c:371-375 | the blocking clause is the negation of the solution list |
| SatEncoding.BlockingFalsifiedExactly | tt/_clibs/picosatmodule.c:371-375 | between full assignments, the blocking clause is false exactly under the assignment it came from |
| SatEncoding.BlockedListDiffers | tt/_clibs/picosatmodule.c:371-375 | values that satisfy a solution's blocking clause give a different solution list |
| SatEncoding.DispatchesAgree | tt/_clibs/picosatmodule.c:387-528 | `sat_one` and the iterator agree: SAT yields the solution, UNSAT gives None or stops, UNKNOWN stops the iterator but makes `sat_one` raise "PicoSAT unable to solve", anything else raises RuntimeError in both |
| SatEncoding.SatOneSound | tt/_clibs/picosatmodule.c:491-528 | with a sound engine, a solution `sat_one` returns satisfies every clause and every assumption |
| PicoSat.AddClause | tt/_clibs/picosatmodule.c:61-113 | feeds exactly the clause's feed to the solver and returns its error |
| PicoSat.AddClauses | tt/_clibs/picosatmodule.c:121-160 | feeds each clause in turn, stopping at the first failure |
| PicoSat.AssertAssumptions | tt/_clibs/picosatmodule.c:167-224 | returns the validation's error, feeding nothing |
| PicoSat.AddAssumptions | tt/_clibs/picosatmodule.c:233-264 | appends the assumption literals in order |
| PicoSat.Setup | tt/_clibs/picosatmodule.c:272-314 | a fresh instance holding the clause stream and the assumptions, or the setup error with the instance reset |
| PicoSat.SolToPyList | tt/_clibs/picosatmodule.c:319-348 | returns the solution list of the last answer |
| PicoSat.BlockSol | tt/_clibs/picosatmodule.c:355-378 | appends the blocking clause and its 0 to the stream |
| PicoSat.SolIter.constructor | tt/_clibs/picosatmodule.c:535-552 | the iterator holds the solver and assumptions and has yielded nothing |
| PicoSat.SolIter.Next | tt/_clibs/picosatmodule.c:387-419 | SAT: yields the solution, blocks it, re-issues the assumptions; UNSAT/UNKNOWN: stops; other: resets and raises; with a sound engine no solution is yielded twice |
| PicoSat.BlockOfSolution | tt/_clibs/picosatmodule.c:371-375 | blocking a solution adds its solution list's negation as one more clause |
| PicoSat.NoRepeat | tt/_clibs/picosatmodule.c:399-404 | a sound answer avoids every solution whose blocking clause is in the stream |
| PicoSat.SatAll | tt/_clibs/picosatmodule.c:535-552 | the setup, then an iterator over the set-up solver; no iterator on an error |
| PicoSat.SatOne | tt/_clibs/picosatmodule.c:491-528 | returns what `SatOneResult` computes: the solution, None, or the error |
| SchemaProvider.Bit | tt/schema_provider.py:33-54 | `int(b)` is 1 iff b |
| SchemaProvider.TtAnd | tt/schema_provider.py:33-34 | `int(a and b)` is one of the operands and truthy iff both are |
| SchemaProvider.TtOr | tt/schema_provider.py:41-42 | `int(a or b)` is one of the operands and truthy iff either is |
| SchemaProvider.FunctionsOnBits | tt/schema_provider.py:33-54 | on 0/1 each function is the 0/1 value of the function it is named after |
| SchemaProvider.NegatedPairs | tt/schema_provider.py:37-54 | NAND, NOR and XNOR are the negations of AND, OR and XOR on any ints |
| SchemaProvider.BooleanOperator.Result | tt/schema_provider.py:28-29 | `result` fails exactly for NOT's function, and otherwise gives a bit or one of the operands |
| SchemaProvider.SchemaEntries | tt/schema_provider.py:80-102 | `schema` has the seven symbols as keys, each denoting the listed operator |
| SchemaProvider.Precedences | tt/schema_provider.py:65-102 | NOT HIGH, XOR/XNOR MEDIUM, AND/NAND LOW, OR/NOR ZERO |
| SchemaProvider.SchemaResults | tt/schema_provider.py:57-102 | `schema[sym].result` on bits is the named function, and RuntimeError for NOT |
| SchemaProvider.AliasesDisjoint | tt/schema_provider.py:80-102 | no alias string appears under two schema symbols |
| SchemaProvider.SearchListIsPermutation | tt/schema_provider.py:104-110 | the search list holds each schema symbol exactly once |
| SchemaProvider.SearchOrderPutsLongerFirst | tt/schema_provider.py:104-110 | XNOR comes before XOR, NAND before AND, NOR before OR |
| SchemaProvider.LongerAliasesContainShorter | tt/schema_provider.py:84-101 | in each of those pairs an alias of the first contains an alias of the second |
| LegacyOperators.EvalUnary | tt/operators/definitions.py:29 | NOT's lambda negates |
| LegacyOperators.XorLambdasSwapped | tt/operators/definitions.py:30-31 | as written, XOR of true and false is false and XNOR of them is true; the two lambdas are always opposite |
| LegacyOperators.Current | tt/operators/definitions.py:29-35 | each legacy operator corresponds to a current operator other than IMPL |
| LegacyOperators.EvalMatchesCurrentTable | tt/operators/definitions.py:21-35 | the corrected lambdas and the precedences agree with the current table; the lambdas as written disagree exactly for XOR and XNOR |
| LegacyOperators.MappingEntries | tt/operators/definitions.py:38-69 | 24 keys, each denoting the operator listed beside it |
| LegacyOperators.MappingHasNoImplication | tt/operators/definitions.py:38-69 | no implication string is a key |
| LegacyOperators.Precedences | tt/operators/definitions.py:21-35 | NOT 3, XOR/XNOR 2, AND/NAND 1, OR/NOR 0 |
| LegacyOperators.SameDelimitersAndConstants | tt/operators/definitions.py:72-75 | `DELIMITERS` and `CONSTANT_VALUES` are {' ', '(', ')'} and {'0', '1'}, as in the current grammar |
| EqTools.ReplaceAbsent | tt/eqtools.py:27-28 | `replace` of an absent pattern changes nothing, so the `in` guard is redundant |
| EqTools.ReplaceBySelf | tt/eqtools.py:8-10 | replacing a string by itself changes nothing (the NOT, AND and OR symbols are among their own aliases) |
| EqTools.ReplaceHit | tt/eqtools.py:28 | `replace` rewrites an occurrence at the front and goes on after it |
| EqTools.ReplacePrefix | tt/eqtools.py:28 | a prefix without the pattern's first character is copied unchanged |
| EqTools.RewriteAliasesAppend | tt/eqtools.py:26-28 | the aliases of a group are applied one after another, in listed order |
| EqTools.RewriteOneAlias | tt/eqtools.py:26-28 | when only one alias occurs, the group's rewrite is that alias's replace-all |
| EqTools.RewriteTable | tt/eqtools.py:7-11 | the NOT group, then the AND group, then the OR group |
| EqTools.NoNotAliases | tt/eqtools.py:8 | text without n, N, ~ and ! is untouched by the NOT group |
| EqTools.NoAndAliases | tt/eqtools.py:9 | text without n, N, & and / is untouched by the AND group |
| EqTools.NoOrAliases | tt/eqtools.py:10 | text without o, O, the bar and a backslash is untouched by the OR group |
| EqTools.AndAndRewritten | tt/eqtools.py:9 | `a && b` becomes `a & b` around plain text |
| EqTools.SlashRewritten | tt/eqtools.py:9 | `a /\ b` becomes `a & b` around plain text |
| EqTools.BangRewritten | tt/eqtools.py:8 | `a ! b` becomes `a ~ b` around plain text |
| EqTools.OrRewritten | tt/eqtools.py:10 | `a OR b` becomes a, the bar, b around plain text, also inside a name such as `CORD` |
| EqTools.WithoutSpacesAround | tt/eqtools.py:29 | removing whitespace around a one-character schema symbol keeps the symbol between the two stripped sides |
| EqTools.TestForms | tt/eqtools.py:13-29 | for plain `a`, `b`: `&&` and `/\` give `&`, `!` gives `~`, `OR` gives the bar, with all whitespace removed (the test strings are instances) |
| EqTools.TransformEqToGenericSchema | tt/eqtools.py:13-29 | the nested loops compute the three groups' replace-alls with whitespace removed, and the result has no whitespace |
| EqTools.ExtractEqSymbols | tt/eqtools.py:34-41 | the same characters as `get_vars`: one upper-case alphanumeric character each |
| Utils.RunEnd | tt/utils.py:12-13 | a run of non-whitespace ends at whitespace or the end |
| Utils.Split | tt/utils.py:12-13 | `split()` gives non-empty words without whitespace |
| Utils.WithoutSpaces | tt/utils.py:12-13 | `without_spaces` keeps every non-whitespace character in order |
| Utils.WithoutSpacesIsNonSpace | tt/utils.py:12-13 | `''.join(s.split())` is the non-whitespace characters of s in order |
| Utils.NonSpaceConcat | tt/utils.py:12-13 | whitespace removal goes piecewise |
| Utils.NonSpaceOfSpaceless | tt/utils.py:12-13 | a string without whitespace is unchanged |
| Utils.NonSpaceHasNoSpace | tt/utils.py:12-13 | no whitespace is left |
| Utils.WithoutSpacesIdempotent | tt/utils.py:12-13 | `without_spaces` is idempotent |
| Utils.MatchingIndices | tt/utils.py:16-17 | every index holding the value, and only those, strictly increasing |
| Utils.MatchingIndicesCount | tt/utils.py:16-17 | as many indices as occurrences |
| BitTools.ClearLowestBit | tt/bittools.py:42 | `x & (x - 1)` is smaller than a positive x and has one 1 bit fewer |
| BitTools.GetParity | tt/bittools.py:32-43 | the loop returns the number of 1 bits of x (despite the name), clearing one per iteration |
| BitTools.GrayCodeOfZero | tt/bittools.py:46-56 | the Gray code of 0 is 0 |
| BitTools.GrayCodesDifferInOneBit | tt/bittools.py:46-56 | consecutive Gray codes differ in exactly one bit |
| BitTools.GrayOfDouble | tt/bittools.py:56 | the code of 2m + b is the code of m with one low bit, set iff b differs from m's lowest bit |
| BitTools.ZeroFillFacts | tt/bittools.py:71-72 | zero-filling keeps a binary string binary with the same value and grows it to the width if shorter |
| BitTools.BitStringOfNatural | tt/bittools.py:59-72 | for n ≥ 0 the string is binary, reads back as n, and has length max(digits, num_chars) |
| BitTools.BitStringOfNegative | tt/bittools.py:59-72 | for n < 0 the string is `-` followed by binary digits reading back as -n, the sign counting toward num_chars |
| BitTools.BitStringUnpadded | tt/bittools.py:71-72 | without `num_chars` the plain digits, so `get_bit_string(0)` is "0" |
| ResultAnalysis.DigitsAsBools | tt/result_analysis.py:48 | one boolean per character, true iff it is '1' |
| ResultAnalysis.BoolsValueOfDigits | tt/result_analysis.py:48 | the positional value of the booleans is the value of the digits |
| ResultAnalysis.DecToBoolListOfNatural | tt/result_analysis.py:41-49 | for num ≥ 0 the list reads back as num, has length max(digits, tot_chars), leading fill all False and a True first digit when num > 0 |
| ResultAnalysis.FilledDigits | tt/result_analysis.py:44-48 | left-filling with k zeros adds k False entries and keeps the value |
| ResultAnalysis.DecToBoolListOfZero | tt/result_analysis.py:42 | `dec_to_bool_list(0)` is [False] |
| TtFmt.GetVarsAreVariables | tt/fmttools/ttfmt.py:22-28 | each variable is one upper-case alphanumeric character, at most one per character |
| TtFmt.GetVarsConcat | tt/fmttools/ttfmt.py:28 | extraction goes piecewise, keeping the equation's order and repeats |
| TtFmt.GetVarsOfChar | tt/fmttools/ttfmt.py:28 | a character is kept iff it is upper-case alphanumeric |
| TtFmt.OutputVariableFirst | tt/fmttools/ttfmt.py:23-28 | the output variable comes first when the equation starts with it |
| TtFmt.NoVars | tt/fmttools/ttfmt.py:28 | lower-case letters, digits, spaces and operator characters give nothing |
| TtFmt.TransformToGenericSchema | tt/fmttools/ttfmt.py:15-20 | returns its argument unchanged |
| PyValues.NatToStringRoundTrip | tt/transformations/utils.py:131-133 | `str(n)` reads back as n |
| PyValues.BinaryDigits | tt/result_analysis.py:42 | `bin(n)[2:]` is "0" only for 0, otherwise starts with '1', and has only 0/1 digits |
| PyValues.BinaryDigitsRoundTrip | tt/result_analysis.py:42 | the binary digits of n read back as n |
| PyValues.LeadingZeros | tt/result_analysis.py:45-46 | leading zeros do not change the value |
| PyValues.Repeat | tt/result_analysis.py:45 | `'0' * k` is empty for k ≤ 0 and k zeros otherwise |

## Left out

- The PicoSAT engine (`picosat_sat`, `picosat_deref`, `picosat_variables`) is an oracle parameter. Soundness (`Sound`) is an assumption of the lemmas that need it, not a fact proved about the engine. No specific solution is asserted.
- CPython plumbing is not modelled: reference counting, `PyList_New` failure, `Py_INCREF`, the GIL release, the GC type object, the allocator hooks, and module init. The `_temp_mem` field declared `signed char` but used as a buffer, and the leaks on error paths, are memory handling.
- Argument parsing of `sat_one`/`sat_all` (`PyArg_ParseTupleAndKeywords`) is left out: the model takes the two arguments directly.
- The `OverflowError` message that CPython sets is not modelled; only the fact that an error is pending is kept.
- PicoSat.SolIter.Next: calling `next` again after the iterator stopped, or after an error reset the solver, is excluded by `requires solver.live`. The C code would use a reset instance there.
- PicoSat.SatOne: the reset on every path is done in the body and is not stated in the contract. The solver is local to the call.
- Floating point is not modelled: `forever` is the `Forever` count, not `float('inf')`.
- Transformations.Call: a `forever` stage may not terminate, so calls take a `fuel` bound that only limits nested `forever` loops. `RunFinite` shows that without `forever` the result does not depend on the fuel.
- Transformation functions are known by their name (`Prim(name)`) and applied through a parameter `prim`. The tree methods of real transformations are not part of this model, and neither is `ensure_bexpr`.
- Expression equality in `__call__`'s fixpoint test is Dafny equality on the parameter type `E`.
- `__hash__` of `RepeatableAction` and `ComposedTransformation` is not modelled. Equality of compositions is Dafny equality on (fn, next, times).
- Transformations: `<<` with an argument that is not a composition is not modelled, because `LShift` takes a composition.
- `is_valid_identifier` does not appear in the operand definitions. It is a parameter `isIdent`, so every tokenizer result holds for any identifier test.
- The upper-case test `isalnum() and isupper()` on one character is ASCII `A`–`Z`. Non-ASCII letters and digits are not modelled.
- Whitespace is the set of characters `str.isspace()` accepts. `strip()` on one character is modelled as that test.
- The order of the names in the "missing" and "extra" messages comes from Python's set iteration and is not modelled: the errors carry the sets instead.
- SatEncoding.AsLong and SatEncoding.ToCInt rest on two platform assumptions. A C `long` is taken to be 64 bits (LP64); on LLP64 Windows `PyLong_AsLong` already overflows at 2^31. Storing an out-of-range `long` into an `int` is taken to wrap modulo 2^32, which section 6.3.1.3 of C11 leaves implementation-defined.
- SymbolAssertions.ValidKeys: an unhashable value raises `TypeError` on `v not in BOOLEAN_VALUES` in Python. It is modelled as its own error kind.
- Expression evaluation, expression trees, truth tables and CNF/DNF transformations are not part of this model.
- BitTools.GetParity: defined on naturals only. Python's loop on a negative int does not terminate.
- BitTools.GrayCode: defined on naturals only. Python's `n ^ (n >> 1)` on a negative int is not modelled. (`GetBitString` takes any int and formats a negative one with a sign; `BitStringOfNatural` covers n ≥ 0 and `BitStringOfNegative` covers n < 0.)
- BitTools.BitStringOfNatural: `num_chars` is a natural. A negative width is rejected by Python's format parser and is not modelled.
- SchemaProvider.BooleanOperator.Result: the `log.critical` call that `tt_uncallable` makes before raising `RuntimeError` is a logging effect and is not modelled. Only the error is.
- SchemaProvider: the functions take ints. Python also accepts other truthy values.
- SchemaProvider.SearchOrderPutsLongerFirst: states the three longer-before-shorter pairs only, not every pair of aliases.
- EqTools.TestForms: the test strings (`"F = A && B"` and so on) are instances of the lemma with plain text around the operator. They are not stated as separate lemmas on literals.
- A test expects a trailing operator followed by whitespace to be rejected, but `_tokenize` has no end-of-input grammar check. The model follows the code (`Tokenizer.Finish` checks only the parentheses and emptiness).
- `print_err`, the CLI, the build scripts and the broken helpers (`get_int_concatenation`, `get_title_row`, the `pass` stubs) are not part of this model.

## Findings

| source | as written | input that shows it | evidently intended | confidence | as-written member | corrected member |
|---|---|---|---|---|---|---|
| tt/operators/definitions.py:30-31 | `TT_XOR_OP` evaluates `a == b` and `TT_XNOR_OP` evaluates `a != b` | XOR of `True` and `False` gives `False` | XOR is `a != b` and XNOR is `a == b`, as in the current table | not executed | LegacyOperators.XorLambdasSwapped | LegacyOperators.EvalMatchesCurrentTable |
