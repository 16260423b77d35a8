# Static analysis core of the mk_compiler playground

The playground's back end (`app.py`) does two static analyses of a submitted Python
program. This project models both and proves properties about them.

- **Trace synthesis** is `generate_trace` and its `SimpleTracer` visitor. It walks the
  syntax tree once and simulates the program approximately. Its state is a flat variable
  environment, a cursor over the user's input strings, and an append-only log of
  `{type, content}` step records. A partial evaluator (`evaluate`) folds constants and
  arithmetic. Where an expression cannot be resolved, it returns a placeholder string
  such as `<unresolved x>`, `<index_error>`, `<complex_subscript>` or
  `<complex_expression>`; it never fails.
- **Complexity estimation** is `estimate_time_complexity`. It finds the deepest nesting
  of `for`/`while` loops along any root-to-node path and reports it as `O(1)`, `O(n)`,
  `O(n^2)`, `O(n^3)`, `O(n^k)`, or `O(?)` when the program does not parse.

The syntax tree is an input: `ParseResult` is either a parsed module or the parser's
error message.

Modules:

- `Values`: the value domain.
  - Python's truthiness, and `int` combined with `bool`.
  - Rendering by `str` and `repr`.
  - The decimal core of `int()`.
- `Syntax`: the statement and expression trees, and their size measures.
- `Evaluator`: `evaluate`, `operator_symbol` and the folding of binary operators.
  - Python's floor `//` and `%`, sequence repetition, and `**`.
  - Dictionary displays, with Python key equality (`1 == True`). The first key object
    is kept and the last value wins.
- `TraceSpec`: the meaning of every visitor, as functions from tracer state to outcome.
  An outcome is normal, an escaping exception (with its message), or "cap reached".
- `Tracer`: the class `SimpleTracer`.
  - Its fields `steps`, `variables`, `inputs` and `inputCounter` are updated in place
    by visitor methods.
  - Each method is proved to move the object's state exactly as the matching
    `TraceSpec` function says.
  - `GenerateTrace` is proved equal to `TraceSpec.Trace`.
- `TraceProperties`: lemmas about the trace semantics.
- `Complexity`: the imperative `analyze` walk with its nonlocal maximum, proved against
  the recursive depth functions, plus lemmas about depth and labels.

Where the code and a plain reading of what it is meant to do differ, the model follows
the code, with one exception. For `**` with a negative integer on the left, the code's
folding is evidently wrong. The model defines both foldings, but `evaluate` uses the
corrected one (see "## Findings" and the `Evaluator.Evaluate` line under "## Left out").
The places where the model follows the code:

- An unrecognised statement (a `def`, `with`, `try`, ...) goes to
  `ast.NodeVisitor.generic_visit`. That method descends into the statements nested in
  it, so their assignments and prints do produce steps (`OtherStmt`). They are not
  skipped.
- Two placeholder strings under `+` concatenate, because `eval("'<unresolved a>' +
  '<unresolved b>'")` succeeds. A string or list times an integer repeats, provided
  the count fits `sys.maxsize`; a larger count raises `OverflowError`, and the text form
  is logged. Neither falls back to the text form otherwise.
- The evaluator's error rendering is `<error message>`, with no colon.
- `x = int(f.g())` and `for a, b in ...` read `.id` from a node that has none. The
  `AttributeError` escapes the visitor, and the whole trace becomes one `error` step.
- `while` is replayed for real. The model bounds the replay with an iteration cap
  `cap`. A run that reaches it yields `CapExceeded`, where the source would still be
  replaying after `cap` iterations. It may finish later or loop forever.
  `CapMonotone` shows that a finished trace is the same under every larger cap.

## Model

| member | source | states |
|---|---|---|
| Values.Truthy | app.py:159 | Python's truth test: `None`, `False`, `0`, the empty string, list or dictionary are false, everything else true |
| Values.Repr | app.py:182 | the `repr` rendering used for strings inside rendered lists and dictionaries, and for non-strings in `str` |
| Values.Str | app.py:113 | `str` of a value, as the f-strings of the step records render it: strings as they are, everything else as `repr` |
| Values.ParseInt | app.py:109 | `int()` of an input string: trim whitespace, then an optionally signed digit string |
| Values.ParseIntAccepts | app.py:108-111 | `int()` accepts whitespace, then `+`, `-` or no sign, then one or more digits, then whitespace, and yields the signed value of the digits |
| Values.ParseIntGrammar | app.py:108-111 | conversely, every string `int()` accepts splits into exactly that form, and its value is the signed value of its digits |
| Values.ParseIntRoundTrip | app.py:107-113 | every rendered integer converts back to itself |
| Evaluator.OperatorSymbol | app.py:210-225 | the symbol is one of `+ - * / // % **` or `?`, and it is `?` exactly for an unrecognised operator |
| Evaluator.OperatorSymbolInjective | app.py:210-225 | distinct recognised operators have distinct symbols |
| Evaluator.FloorDivInt | app.py:182 | Python's `//` on integers: the quotient rounds toward negative infinity, for either sign of divisor |
| Evaluator.ModInt | app.py:182 | Python's `%`: `a == b*(a//b) + r`, and the remainder has the divisor's sign and is smaller in magnitude |
| Evaluator.Evaluate | app.py:171-208 | the partial evaluator; a call or an unsupported expression always yields a non-empty placeholder string |
| Evaluator.Fold | app.py:181-183 | the corrected `eval` of `l op r`: `/` and unknown operators never fold, and every fold except `+` and `*` is an integer; `SequenceRepetition` gives the repetition bound |
| Evaluator.FoldAsWritten | app.py:182 | the `eval` of `l op r` as the code performs it, with `-a ** n` read as `-(a ** n)` |
| Evaluator.AsWrittenDiffersOnlyOnEvenPowers | app.py:182 | the as-written and the corrected folding differ exactly for an even power of a negative integer |
| Evaluator.TextForm | app.py:184 | the text `(l op r)` used when folding fails |
| Evaluator.FoldOrText | app.py:181-184 | the folded value, or the text form when folding fails |
| Evaluator.SubscriptValue | app.py:189-198 | `base[index]` is always an element of the list, `<index_error>` or `<complex_subscript>` |
| Evaluator.MakeDict | app.py:188 | a dictionary display has distinct keys and no more entries than keys or values; otherwise it is an error string, and some paired key is unhashable |
| Evaluator.MakeDictUnhashable | app.py:188 | an unhashable key among the paired keys gives the `unhashable type: 'list'` or `'dict'` error string |
| Evaluator.Insert | app.py:188 | a dictionary store: the key now maps to the new value, every other key is unaffected, and keys stay distinct |
| Evaluator.InsertFresh | app.py:188 | storing a key equal to no present key appends the pair |
| Evaluator.BuildEntries | app.py:188 | the dictionary built from a comprehension has pairwise distinct keys and at most one entry per pair |
| Evaluator.EvaluateAll | app.py:186 | element-wise evaluation keeps length and order |
| Evaluator.EvaluateNamesAndLists | app.py:175-186 | a Name gives its binding or `<unresolved id>`; a List gives its elements' values, same length and order |
| Evaluator.DictLastWriteWins | app.py:188 | a key never given is absent; a given key maps to the value of its last equal occurrence |
| Evaluator.DictDistinctKeysPositional | app.py:188 | with distinct keys, the dictionary pairs keys with values position by position |
| Evaluator.DictUsesCommonPrefix | app.py:188 | only the common prefix of keys and values is used, as `zip` does |
| Evaluator.DictKeysMustBeHashable | app.py:188 | a list or dictionary key turns the display into the rendered `unhashable type` error placeholder |
| Evaluator.SubscriptIndexing | app.py:189-198 | an integer index in range (negative ones counting from the end) gives the element; out of range gives `<index_error>`; any other base or index gives `<complex_subscript>` |
| Evaluator.IntegerArithmetic | app.py:177-182 | integer operands of `+ - *` fold to the integer result |
| Evaluator.IntegerDivision | app.py:177-182 | integer operands of `//` and `%` with a non-zero divisor fold to Python's floor quotient and remainder |
| Evaluator.SequenceRepetition | app.py:181-184 | a string or list times an integer count is that many copies when the count fits `sys.maxsize`, and the text form otherwise, after the caught `OverflowError` |
| Evaluator.FloorDivByZeroIsText | app.py:181-184 | `a // 0` yields the text `(a // 0)` instead of a fault |
| Evaluator.ModByZeroIsText | app.py:181-184 | `a % 0` yields the text `(a % 0)` instead of a fault |
| Evaluator.UnknownOperatorIsText | app.py:180-184 | an operator without a symbol always yields the text `(l ? r)` |
| Evaluator.UnresolvedOperand | app.py:176-184 | `z + 1` with `z` unbound yields `(<unresolved z> + 1)` |
| Evaluator.PlaceholdersConcatenate | app.py:176-184 | `a + b` with both unbound concatenates the two placeholders |
| Evaluator.AsWrittenNegativeBasePower | app.py:182 | as written, an even power of a negative integer folds to a negative number |
| Evaluator.AsWrittenSquareOfMinusTwo | app.py:182 | as written, the value -2 (from `0 - 2`, say) raised to 2 folds to -4; the corrected folding gives 4 |
| Evaluator.PowerOfNegatedBase | app.py:182 | the corrected power of a negated base changes sign exactly for odd exponents |
| Evaluator.EvenPowerNonNegative | app.py:182 | even powers are never negative |
| Evaluator.FoldPowIsPower | app.py:182 | corrected folding of `a ** n` is the true power, non-negative for even `n` |
| TraceSpec.NextInput | app.py:164-169 | reading an input changes only the cursor, by at most one, and keeps it within the inputs |
| TraceSpec.IntConversion | app.py:107-111 | `int(value)` on an input, or the string `error` where `int()` fails |
| TraceSpec.ExecAssign | app.py:90-119 | an assignment keeps the inputs, moves the cursor only forward, only appends visitor steps, and binds no name but its target |
| TraceSpec.ExecExpr | app.py:121-129 | an expression statement changes no variable and only appends visitor steps |
| TraceSpec.ExecStmt | app.py:90-162 | visiting any statement keeps the inputs, keeps the cursor monotone and in bounds, only appends visitor steps, and binds only names the statement can bind |
| TraceSpec.ExecBlock | app.py:135-136 | the same for a statement list visited in order |
| TraceSpec.ExecForStmt | app.py:138-153 | the same for a `for` statement, whose target and body names are the only ones bound |
| TraceSpec.ExecFor | app.py:145-153 | the same for the iterations of a `for` over a list |
| TraceSpec.ExecWhileStmt | app.py:155-158 | the same for a `while` statement |
| TraceSpec.ExecWhile | app.py:159-162 | the same for the replay of a `while` body; `WhileExitsOnFalsyTest` gives its exit condition and `WhileCapMonotone` its independence of the cap |
| TraceSpec.Trace | app.py:227-233 | `generate_trace`: the module's steps, or one error step for a parse failure or an escaping exception; its shape is stated by `TraceShape` |
| TraceSpec.ReportedTrace | app.py:72 | the reported trace is never empty: an empty trace becomes one `info` step, any other is kept |
| Tracer.SimpleTracer.constructor | app.py:84-88 | a new tracer has no steps, no variables and its cursor at the first input |
| Tracer.SimpleTracer.GetNextInput | app.py:164-169 | the value returned and the new state are those of `NextInput`; the cursor stays put exactly when every input has been read |
| Tracer.SimpleTracer.VisitAssign | app.py:90-119 | the in-place update of steps, variables and cursor is exactly `ExecAssign` |
| Tracer.SimpleTracer.VisitExpr | app.py:121-129 | the loop collecting `print`'s rendered arguments produces exactly `ExecExpr` |
| Tracer.SimpleTracer.VisitIf | app.py:131-136 | the update is exactly `ExecStmt` on the `if` |
| Tracer.SimpleTracer.VisitFor | app.py:138-145 | the update is exactly `ExecStmt` on the `for` |
| Tracer.SimpleTracer.IterateFor | app.py:145-153 | the loop over the list's elements is exactly `ExecFor` |
| Tracer.SimpleTracer.VisitWhile | app.py:155-158 | the update is exactly `ExecStmt` on the `while` |
| Tracer.SimpleTracer.ReplayWhile | app.py:159-162 | the replay loop is exactly `ExecWhile` with the full cap |
| Tracer.SimpleTracer.Visit | app.py:83 | visitor dispatch is exactly `ExecStmt`, nested statements of other statements included |
| Tracer.SimpleTracer.VisitBlock | app.py:135-136 | visiting a list in order, stopping at an escaping exception, is exactly `ExecBlock` |
| Tracer.GenerateTrace | app.py:227-233 | the result is `Trace`: the module's steps, or one error step for a parse failure or an escaping exception |
| TraceProperties.ReadManyInOrder | app.py:164-169 | `k` reads return the unread inputs in order, then only `input_missing`, and advance the cursor by exactly the number of real inputs read |
| TraceProperties.AssignFromInput | app.py:95-101 | `x = input()` consumes exactly one input if any is left, binds it unconverted and logs `x = '<v>'` |
| TraceProperties.AssignIntInputRoundTrip | app.py:102-114 | `x = int(input())` on a rendered integer binds that integer, consumes one input and logs it unquoted |
| TraceProperties.AssignIntFromInput | app.py:102-114 | `x = int(input())` consumes one input if any is left, binds its conversion (an integer, or `error`) and logs it unquoted |
| TraceProperties.IntConversionAccepts | app.py:107-111 | inputs such as ` 7`, `+7`, `007` and `-7` followed by a newline convert to their integers |
| TraceProperties.IntConversionRejects | app.py:107-111 | inputs such as `abc` and `7 7` convert to `error` |
| TraceProperties.AssignEvaluates | app.py:116-119 | any other `x = e` binds the value of `e`, logs `x = <value>` and reads no input |
| TraceProperties.MissingInputIsNotInt | app.py:108-111 | the `input_missing` sentinel does not convert to an integer |
| TraceProperties.AssignIntOfMissingInput | app.py:102-114 | `x = int(input())` with no input left binds `error`, logs `x = error` and leaves the cursor |
| TraceProperties.ExecBlockAppend | app.py:135-136 | visiting two statement lists one after the other is visiting their concatenation |
| TraceProperties.RaisedCollapses | app.py:227-233 | an exception escaping any statement discards all steps logged before it: the trace is the one error step |
| TraceProperties.IntOfUnnamedCallCollapses | app.py:104-105 | `int(f.g())` anywhere after statements that end normally collapses the whole trace to the one `AttributeError` step |
| TraceProperties.ForWithoutNameCollapses | app.py:140 | a `for` with a tuple target, anywhere after statements that end normally, collapses the trace to the one `AttributeError` step |
| TraceProperties.IfVisitsBodyOnly | app.py:131-136 | an `if` logs its test and visits its body whatever the test's value; the `else` branch makes no difference |
| TraceProperties.ForOverNonList | app.py:138-145 | a `for` over a non-list logs its header only and leaves the environment unchanged |
| TraceProperties.ForOverList | app.py:138-146 | a `for` over a list logs its header with the rendered list, then iterates over the list's elements |
| TraceProperties.PrintBodyStep | app.py:121-129 | the body `print(t)` logs the rendering of the value bound to `t` |
| TraceProperties.ForSimpleBodyIsSimpleLoop | app.py:145-153 | iterating with an empty body or the body `print(t)` is the reference loop `SimpleLoop` |
| TraceProperties.SimpleLoopState | app.py:145-153 | the reference loop logs per element, in order, `t = v`, the printed `v` for a `print(t)` body, and `Print i: v` for target `i`, and leaves the last element bound |
| TraceProperties.ForSimpleBodySteps | app.py:145-153 | with such a body a `for` over a list emits exactly those steps and ends with the target bound to the last element |
| TraceProperties.SingleStatementTrace | app.py:227-233 | a one-statement program that ends normally reports that statement's steps |
| TraceProperties.ForPrintTrace | app.py:138-153 | a program `for t in [e1, ..., en]: print(t)` reports its header and then, per element, its assignment, its print and the `Print i:` step for `i` |
| TraceProperties.ForPrintScenario | app.py:138-153 | `for i in [1, 2, 3]: print(i)` yields `for i in [1, 2, 3]:`, then `i = k`, `k`, `Print i: k` for k = 1, 2, 3 |
| TraceProperties.ForLeavesLastElement | app.py:146-150 | after a `for` loop that ends normally, the target holds the last element unless the body rebinds it |
| TraceProperties.WhileFalsyTest | app.py:155-159 | a `while` whose test is falsy logs its header and nothing else |
| TraceProperties.AlwaysTruthyValue | app.py:201-206 | a call or an unsupported expression evaluates to a non-empty string, which is truthy |
| TraceProperties.AlwaysTruthyReplay | app.py:159-162 | a replay with such a test never ends normally: its body raises or the cap is reached |
| TraceProperties.WhileAlwaysTruthyNeverFinishes | app.py:155-162 | `while f(x):` or `while <unsupported>:` never ends normally (the source loops forever or the body raises) |
| TraceProperties.WhileExitsOnFalsyTest | app.py:159-162 | a replay that ends normally leaves its test falsy in the final environment |
| TraceProperties.WhileEndsWithFalsyTest | app.py:155-162 | a `while` statement that ends normally leaves its test falsy |
| TraceProperties.StmtCapMonotone | app.py:78-162 | a statement run that did not reach the cap is the same run under any larger cap |
| TraceProperties.BlockCapMonotone | app.py:78-162 | the same for a statement list |
| TraceProperties.ForStmtCapMonotone | app.py:138-153 | the same for a `for` statement |
| TraceProperties.ForCapMonotone | app.py:145-153 | the same for the iterations of a `for` over a list |
| TraceProperties.WhileStmtCapMonotone | app.py:155-162 | the same for a `while` statement |
| TraceProperties.WhileCapMonotone | app.py:159-162 | a replay that stopped on its own, by a falsy test or a raise, is the same with more cap and more fuel |
| TraceProperties.CapMonotone | app.py:227-233 | a finished trace is the same under every larger cap, so the cap decides only when to give up |
| TraceProperties.TraceShape | app.py:227-233 | a finished trace is either exactly one `error` step or made only of visitor steps |
| TraceProperties.ParseFailureTrace | app.py:227-233 | an unparsable program yields exactly one `error` step carrying the parser's message |
| TraceProperties.SequentialScenario | app.py:117-129 | `x = 3 + 4` then `print(x)` yields the steps `x = 7` and `7` |
| TraceProperties.InputScenario | app.py:95-101 | `x = input()` with the input `5` yields the step `x = '5'` |
| Complexity.StmtDepth | app.py:244-250 | the greatest number of loops on a path down from a statement; `PathBound` and `DeepestPath` state that it is the maximum over paths |
| Complexity.BlockDepth | app.py:249-250 | the greatest of a list's statement depths |
| Complexity.Label | app.py:254-263 | the label of a depth; `LabelInjective` and `LabelFormat` state its properties |
| Complexity.Analyze | app.py:244-250 | the nonlocal maximum after the walk of a statement is raised to the nesting it was entered at plus the statement's depth, if it contains a loop |
| Complexity.AnalyzeChildren | app.py:249-250 | the same for the loop over a node's children |
| Complexity.EstimateTimeComplexity | app.py:240-265 | the result is `O(?)` for a parse failure and otherwise the label of the module's depth |
| Complexity.BlockDepthBound | app.py:249-250 | every statement of a list is at most as deep as the list |
| Complexity.PathBound | app.py:244-252 | no root-to-node path has more loops than the depth |
| Complexity.DeepestIndex | app.py:249-250 | a non-empty list has a statement as deep as the list |
| Complexity.DeepestPath | app.py:244-252 | some path has exactly as many loops as the depth, so the depth is the maximum over paths |
| Complexity.BlockDepthAppend | app.py:249-250 | sibling statement lists combine by maximum, not by sum |
| Complexity.DepthZeroIffLoopFree | app.py:254-255 | the depth is zero exactly when no loop occurs anywhere in the statement |
| Complexity.BlockDepthZeroIffLoopFree | app.py:254-255 | the same for statement lists |
| Complexity.LabelFormat | app.py:254-263 | the labels for depths 2 and 3 agree with the general `O(n^k)` form |
| Complexity.LabelInjective | app.py:254-265 | different depths get different labels, and no depth gets `O(?)` |
| Complexity.SiblingLoopsAreLinear | app.py:244-257 | two sibling loops have depth 1 and the label `O(n)` |
| Complexity.NestedLoopsAreQuadratic | app.py:244-259 | a loop inside a loop gets the label `O(n^2)` |

## Left out

- The Flask routes `index` and `run_code` (app.py:10-75) are left out. They cover the
  temporary file, `subprocess.run` with its timeout, wall-clock timing and the JSON
  response; all of this is I/O. Only the "empty trace becomes one info step" default
  is modelled, as `ReportedTrace`.
- `static/script.js` is left out. It is editor, chart and DOM code.
- `ast.parse` is not part of this model. The tree, or the parser's error message, is
  an input.
- Most expression kinds are left out. Only the expression and statement kinds the
  tracer recognises are modelled. Others are `OtherExpr`, i.e. `<complex_expression>`.
  The non-statement fields of unrecognised statements are dropped, because they
  contain no statements.
- Only one assignment target is modelled. Later targets of `a = b = e` are ignored, as
  `node.targets[0]` ignores them.
- `ast.Index` (app.py:199-200) is left out. Current Python versions do not produce it.
- Floats are left out. `/` and `**` with a negative exponent make no folding in the
  model: the text form is produced where Python would produce a float.
- `Literal` holds only `None`, booleans, integers and strings. A float, bytes, complex or
  `...` constant is modelled as `OtherExpr` and evaluates to `<complex_expression>`,
  where the source returns the constant's value. So `x = 1.5` logs `x = 1.5` in the
  source and `x = <complex_expression>` in the model.
- `%` string formatting is left out. `'%d' % n` gives the text form here, while Python
  formats the string.
- `repr` of strings is simplified to single quotes, with no escaping and no change of
  quote character. This affects how strings inside rendered lists and dictionaries
  look, not what folds.
- The 4300-digit limit on integer to string conversion is left out, in both
  directions. Rendering an integer of more than 4300 digits raises `ValueError` in the
  source, and so does `int()` of an input with more than 4300 digits (app.py:109). There
  the source binds `error`, while `IntConversion` binds the integer.
- Evaluator.Fold: assumes a 64-bit build, where `sys.maxsize` is 2^63 - 1. It repeats a
  string or list by any index-sized count. The source may instead raise `MemoryError`
  when the result cannot be allocated, which is caught and logged as the text form.
- `int()` is modelled on ASCII whitespace, an optional sign and ASCII digits. The
  whitespace is space, the characters 9 to 13 and the separators 28 to 31. Non-ASCII
  whitespace, underscores and non-ASCII digits are left out.
- Evaluator.Evaluate: folds with the corrected `Fold`, not with `FoldAsWritten`, so a
  trace differs from the source's for an even power of a negative integer. For
  `x = 0 - 2` then `y = x ** 2`, the model logs `y = 4` where the source logs `y = -4`;
  `(0 - 3) ** 0` gives 1 where the source gives -1. `AsWrittenDiffersOnlyOnEvenPowers`
  states exactly which operands are affected.
- `TraceSpec.Trace` and `TraceSpec.ExecWhile` do not model the endless replay of a
  `while` whose test stays truthy. They bound it by the iteration cap `cap`, given as
  a parameter, and report `CapExceeded` where the source would still be replaying after
  `cap` iterations.
- `Tracer.GenerateTrace` takes `inputs` as a sequence. The source's `inputs or []`
  turns a missing input list into the empty one.
- `TraceProperties.ForSimpleBodySteps` states the exact step sequence only for an empty
  body or the body `print(t)`. For other bodies, `ExecFor` itself is the statement, with
  `ForLeavesLastElement` for the final binding.
- Python object identity of list values (aliasing between names) is left out. No
  modelled operation mutates a list, so it cannot be observed.

## Findings

| source | as written | input that shows it | evidently intended | confidence | as-written member | corrected member |
|---|---|---|---|---|---|---|
| app.py:182 | `eval(f"{repr(left)} ** {repr(right)}")` renders a negative left operand as `-2 ** 2`, which Python parses as `-(2 ** 2)` | `x = 0 - 2` then `y = x ** 2` logs `y = -4` | fold to the true power, `y = 4` | not executed | Evaluator.AsWrittenSquareOfMinusTwo | Evaluator.FoldPowIsPower |
