# Day 10 joltage solver — a Dafny model

The program reads a puzzle file line by line. Each line, such as
`A (0) (1) [3,5]`, names a machine (`A`), lists its buttons (each
parenthesised group gives the counters one press of that button raises by 1)
and ends with the joltage every counter must reach. `process_line` turns the
line into a linear system with one variable per button and one equation per
counter; the coefficient of button `b` in the equation of counter `t` is 1
when `b` lists `t` and 0 otherwise. An external optimiser (Z3's `Optimize`)
picks non-negative integer press counts that meet every equation exactly and
have the least total. The line's total is the sum of those counts. The final
result is the sum of the line totals.

The model has three modules:

- `Text` (`text.dfy`): the Python string built-ins the parser relies on.
  `str.strip()` is `Strip`, built from `TrimStart` and `TrimEnd` over Python's
  whitespace set. `str.split(sep)` is `Split`, with `Join` as its inverse.
  `int()` on a decimal token is `ParseNat`, and `str(n)` is `ShowNat`.
- `Day10` (`day10.dfy`): the parser.
  - `parse_btn` is `ParseBtn`.
  - `equation_for_btn` is the method `EquationForBtn`. It fills a zero-filled
    array in a loop. It is proved equal to the function `RowFor`, which the
    functional pipeline uses.
  - `zip(*rows)` is `Transpose`.
  - The parsing half of `process_line` is `ParseLine`. It returns an
    `Instance`, which holds the arguments of `solve_system`.
  - `RenderLine` writes a line in the input format. It is the inverse used to
    state what the parser reads back.
- `Solving` (`solving.dfy`): what `solve_system` asks of the optimiser and how
  totals are summed.
  - `IsSolution` states the constraints. `IsOptimal` adds the objective.
  - The optimiser is a parameter `solve: Instance -> Option<seq<int>>`.
    `SolverSound` says what the program trusts about it.
  - `SolveSystem` is `solve_system`: it fails when there are no variables,
    and otherwise returns the optimiser's answer.
  - `LineTotal`, `ProcessLine` and `Run` model `sum(solution)`,
    `process_line` and the final `sum` over all lines.

Errors are values of `Result`:

- `InvalidLiteral` stands for the `ValueError` raised by `int()`.
- `IndexOutOfRange` stands for the `IndexError` raised in `equation_for_btn`.
- `EmptyObjective` stands for the `AttributeError` raised in `solve_system`
  when a line has no buttons (see below).
- `NoSolution` stands for the `TypeError` raised by `sum(None)` when the
  optimiser finds no solution.

As in the program, the first failing line ends the whole run.

Behaviour of the code that the model keeps:

- `parse_btn` does not check brackets. It drops the first and the last
  character whatever they are. So `[3,5]` parses like `(3,5)`, and a token
  shorter than two characters reads as the empty string, which `int()`
  rejects.
- `split(" ")` makes an empty token for every extra space. An empty token in a
  button position fails in `int('')`.
- A blank line is not skipped. Its joltage token is empty, so it fails
  (`BlankLineFails`).
- With no buttons, `zip(*[])` yields no equations, and the empty assignment
  is the only solution of that system. The line still fails:
  - `vars` is empty, so z3's `Sum(vars)` returns the plain Python integer 0
    rather than a Z3 expression.
  - `opt.minimize` then raises before `check()` runs.

  `SolveSystem` models this as `EmptyObjective`, and `NoButtonsLineFails`
  proves it for every such line. This behaviour comes from the z3 Python
  library, which is not part of this model.
- For buttons `(0,1) (1)` and joltages `[5,3]`, the code builds
  `[[1,0],[1,1]]` (`TransposedRowsExample`).
- `A (0) (0,1) [3,5]` parses to `[[1,1],[0,1]]` and has no non-negative
  solution (`ParseLineOverlapExample`, `InfeasibleExample`).

## Model

| member | source | states |
|---|---|---|
| Text.TrimStart | src/day10.py:59 | the leading half of `line.strip()`: the result is a suffix of the input, every removed character is whitespace, and the result does not start with whitespace |
| Text.TrimEnd | src/day10.py:59 | the trailing half of `line.strip()`: the result is a prefix of the input, every removed character is whitespace, and the result does not end with whitespace |
| Text.IsSpace | src/day10.py:59 | `str.isspace()` for one character: the whitespace set that `strip()` removes, given code point by code point; `Strip`, `StripSurroundingSpace` and `BlankLineFails` state what it decides |
| Text.Strip | src/day10.py:59 | `line.strip()` is a slice of the line such that everything before and after it is whitespace, and it neither starts nor ends with whitespace: exactly the leading and trailing whitespace is removed |
| Text.StripSurroundingSpace | src/day10.py:59 | stripping a string that starts and ends with non-whitespace, with whitespace on either side, gives the string back |
| Text.StripTrailingSpace | src/day10.py:59 | stripping a line that starts and ends with non-whitespace, followed by whitespace (the newline `readlines` keeps), gives back the line |
| Text.Split | src/day10.py:48 | `s.split(sep)` always yields at least one piece; `SplitSpec` and `SplitJoin` pin it down completely |
| Text.SplitSpec | src/day10.py:48 | `s.split(sep)` has one more piece than `s` has separators, no piece holds the separator, and joining the pieces with the separator gives `s` back |
| Text.SplitJoin | src/day10.py:60 | splitting the join of separator-free pieces gives back exactly those pieces |
| Text.ParseNat | src/day10.py:48 | `int(tok)` succeeds exactly on a non-empty token of decimal digits |
| Text.ParseShowNat | src/day10.py:48 | `int(str(n)) == n` for every natural number, within the model's `int()`, which has no limit on the number of digits (see "Left out") |
| Text.LeadingZeroIgnored | src/day10.py:48 | `int()` ignores leading zeros: `int("0" + s) == int(s)` |
| Day10.Inner | src/day10.py:48-62 | Python's slice `s[1:-1]`: everything but the first and last element, and empty when there are fewer than two; `ParseBtnGroup`, `ParseRenderedLine` and `BlankLineFails` state its effect on tokens and on the token list |
| Day10.ParseInts | src/day10.py:48 | `[int(x) for x in tokens]` succeeds exactly when every token is a numeral; then it has one value per token, in order, each being what `int()` reads; otherwise the error is a ValueError |
| Day10.ParseBtn | src/day10.py:47-48 | `parse_btn` fails only with a ValueError; on success it returns one more integer than there are commas between the brackets |
| Day10.ParseBtnGroup | src/day10.py:46-48 | `parse_btn` on any bracket, a comma-joined list of decimal numerals and any bracket returns exactly that list, in order |
| Day10.ParseBtnExample | src/day10.py:46 | the documented example: `'(2,3,5)' -> [2,3,5]` |
| Day10.RowFor | src/day10.py:51-55 | the value `equation_for_btn` returns, written as a function; what it means is stated by the contract of `EquationForBtn`, which is proved equal to it, and by `RowIgnoresOrderAndRepeats` |
| Day10.EquationForBtn | src/day10.py:51-55 | `equation_for_btn` succeeds exactly when every index is below `size`; then it returns a row of length `size` whose entry `j` is 1 exactly when `j` is listed and 0 exactly when it is not; an index at or past `size` is an IndexError; the result equals the specification `RowFor` |
| Day10.RowIgnoresOrderAndRepeats | src/day10.py:51-55 | two buttons that list the same set of indices, in any order and with any repeats, give the same row (or the same error) |
| Day10.Rows | src/day10.py:67 | the list of per-button rows succeeds exactly when every button is in range; then it has one row per button, each the button's 0/1 indicator; otherwise the error is an IndexError |
| Day10.MinLen | src/day10.py:67 | the length where `zip` stops: no row is shorter, and some row has exactly that length |
| Day10.Transpose | src/day10.py:67 | `zip(*rows)`: what it yields is stated by `MinLen`, `TransposeShape` and `TransposeTwice` |
| Day10.TransposeShape | src/day10.py:67 | `zip(*rows)` of `m` rows of length `n` (with `m > 0`) has `n` rows of length `m`, and entry `[t][b]` is entry `[b][t]` of the input |
| Day10.TransposeTwice | src/day10.py:67 | for a non-empty rectangular matrix with at least one column, transposing twice gives the matrix back |
| Day10.BuildInstance | src/day10.py:64-67 | the system succeeds exactly when every button index is below the number of joltages. It has one variable per button and the joltages as targets. With at least one button it has one equation per joltage and one column per button, and entry `[t][b]` is 1 exactly when button `b` lists `t` (0 otherwise). With no button it has no equations. |
| Day10.Tokens | src/day10.py:59-60 | `line.strip().split(" ")` always has at least one token, so the last token always exists |
| Day10.ParseBtns | src/day10.py:61 | `[parse_btn(btn) for btn in toks]` succeeds exactly when every token parses; then it holds each token's list, in order; otherwise the error is a ValueError |
| Day10.ParseLine | src/day10.py:58-67 | a parsed line is well-formed (the matrix shape and 0/1 entries above). It has one variable per token strictly between the first and the last token. Its targets are what `parse_btn` reads from the last token. |
| Day10.TokensOfRenderedLine | src/day10.py:59-60 | the tokens of a line written as tag, button groups and joltage group, with trailing whitespace, are exactly those pieces |
| Day10.ParseButtonGroups | src/day10.py:61 | the button groups of a written line parse back to the buttons' index lists, in order |
| Day10.ParseRenderedLine | src/day10.py:58-67 | parsing a written line gives exactly the system built from its buttons and joltages, whatever whitespace follows it |
| Day10.ParseLineExample | src/day10.py:58-67 | `A (0) (1) [3,5]` parses to 2 variables, equations `[[1,0],[0,1]]` and targets `[3,5]` |
| Day10.ParseLineOverlapExample | src/day10.py:58-67 | `A (0) (0,1) [3,5]` parses to 2 variables, equations `[[1,1],[0,1]]` and targets `[3,5]` |
| Day10.TransposedRowsExample | src/day10.py:64-67 | buttons `(0,1) (1)` with joltages `[5,3]` give equations `[[1,0],[1,1]]` |
| Day10.BlankLineFails | src/day10.py:59-62 | a line of only whitespace fails with a ValueError: its joltage token is empty |
| Solving.Dot | src/day10.py:22 | `Sum([c * v for c, v in zip(coeffs, vars)])`; its bound is `DotAtMostSum` and its value on two variables is used by the examples |
| Solving.Sum | src/day10.py:69 | Python's `sum` over integers; it splits over concatenation (`SumAppend`) and is non-negative on non-negative values (`SumNonNegative`) |
| Solving.IsSolution | src/day10.py:20-27 | the constraints `solve_system` adds: one value per variable, every value at least 0, and each equation paired by `zip` with its target met exactly; the examples show what it accepts (`FeasibleExample`, `InfeasibleExample`, `NoButtonsLineFails`) |
| Solving.IsOptimal | src/day10.py:29-30 | a solution no other solution undercuts in total, which is what `opt.minimize(Sum(vars))` asks for; `LineTotalBounds` draws on it |
| Solving.SolverSound | src/day10.py:32-38 | what the program trusts of Z3 on a system with at least one variable: a `sat` model is an optimal solution, and anything else means no solution exists; every lemma about line results assumes it |
| Solving.SolveSystem | src/day10.py:15-38 | `solve_system` fails exactly when there are no variables, with the empty-objective error, and otherwise returns the optimiser's answer unchanged |
| Solving.DotAtMostSum | src/day10.py:21-23 | an equation with 0/1 coefficients, applied to non-negative press counts, never exceeds their total |
| Solving.LineTotal | src/day10.py:69 | `sum(solution)` succeeds exactly when the optimiser returned an assignment, and then is the sum of that assignment; on `None` it fails with the no-solution error |
| Solving.ProcessLine | src/day10.py:58-71 | `process_line`: parse, solve, sum. `LineFailsIffInfeasible` states when it fails. `LineTotalBounds` states that a successful total is the sum of an optimal solution. The examples pin concrete values. |
| Solving.LineFailsIffInfeasible | src/day10.py:15-38 | with a sound optimiser, a parsed line fails exactly when it has no button or its system has no non-negative solution; without a button the error is the empty-objective error |
| Solving.LineTotalBounds | src/day10.py:15-36 | with a sound optimiser, a line that succeeds has a button. Its total is the sum of an optimal solution of the line's system, so it is the least sum of any solution. It is non-negative and at least every joltage of the line. |
| Solving.OptimalBounds | src/day10.py:21-30 | the sum of an optimal solution of a well-formed system with a variable is non-negative and reaches every target |
| Solving.NoButtonsLineFails | src/day10.py:15-30 | a line with a tag, no buttons and a joltage group parses to a system with no variables and no equations, whose only solution is the empty assignment; processing it fails with the empty-objective error, whatever the optimiser |
| Solving.FeasibleExample | src/day10.py:58-69 | `A (0) (1) [3,5]` has the single solution `[3,5]`, so with a sound optimiser the line's total is 8 |
| Solving.InfeasibleExample | src/day10.py:58-69 | `A (0) (0,1) [3,5]` has no non-negative solution, so with a sound optimiser the line fails with the no-solution error |
| Solving.SumAppend | src/day10.py:81 | `sum(a + b) == sum(a) + sum(b)` |
| Solving.SumNonNegative | src/day10.py:69 | the sum of non-negative press counts is non-negative |
| Solving.Run | src/day10.py:79-81 | `sum([process_line(line) for line in lines])`; stated by `RunIsSumOfLineTotals`, `RunAppend` and `RunNonNegative` |
| Solving.SumAll | src/day10.py:81 | `sum` over the list of line results; stated by `SumAllSpec` and `SumAllAppend` |
| Solving.Outcomes | src/day10.py:81 | the list comprehension `[process_line(line) for line in lines]`: one result per line, in input order; `SumOutcomes` and `RunIsSumOfLineTotals` state what is made of it |
| Solving.Collect | src/day10.py:81 | evaluating the list of per-line results succeeds exactly when every line does, and then holds every line's total in order |
| Solving.CollectFirstError | src/day10.py:81 | a failed list of results reports the error of its first failing line, and every earlier line succeeded |
| Solving.CollectAppend | src/day10.py:81 | collecting two runs of lines gives the concatenated totals, or the first run's failure, or else the second run's failure |
| Solving.SumAllAppend | src/day10.py:81 | summing the results of two runs of lines gives the sum of both, or the first failure in input order |
| Solving.SumAllSpec | src/day10.py:81 | a sum of results succeeds exactly when every result does, reports the first failure otherwise, and on success is the first total plus the sum of the rest |
| Solving.SumOutcomes | src/day10.py:81 | for any per-line processing, the sum of the line results succeeds exactly when every line does, otherwise reports the first failing line's error, and on success is the first line's value plus the sum over the rest |
| Solving.RunAppend | src/day10.py:81 | the final result over the lines `a + b` is the result over `a` plus the result over `b`; a failure in `a` takes precedence over one in `b` |
| Solving.RunIsSumOfLineTotals | src/day10.py:79-81 | the final result succeeds exactly when every line does. Otherwise it is the error of the first failing line. On success it is the first line's total plus the result over the remaining lines, which is the sum of the line totals in input order. |
| Solving.RunNonNegative | src/day10.py:81 | with a sound optimiser, the final result is non-negative |

## Left out

- SolveSystem: the empty-objective failure for a line without buttons comes from the z3 Python library, which is not part of this model. There `Sum([])` returns the plain integer 0, and `Optimize.minimize` needs a Z3 expression. The model states this behaviour; it does not derive it.
- The optimiser is not modelled (src/day10.py:15-38). This covers building the Z3 `Optimize` model, `check()`, the search and reading the model back. The optimiser is a parameter `solve`. `SolverSound` states the contract the program relies on: a returned assignment is a non-negative, exact and least-total solution, and `None` means no solution exists. The model does not prove that any optimiser meets this contract.
- Command-line checking, reading the file and the `print` calls are not modelled (src/day10.py:70, 74-82). These are I/O. `Run` takes the lines that `readlines` would return.
- ParseNat: Python 3.11 and later (and security releases of earlier versions) raise ValueError for a decimal string of more than 4300 digits, and `str(n)` has the same limit. The model accepts numerals of any length, so `ParseShowNat` holds here for every natural number. That is not true of Python for numbers that long.
- `int()` is modelled on tokens of ASCII decimal digits only. Python also accepts a sign, surrounding whitespace, underscores between digits and non-ASCII digits. The model rejects these tokens as a ValueError. As a result it never sees a negative button index, which Python would silently wrap to count from the end.
- Error values carry the kind of exception but no message.
- `Strip` uses Python's whitespace set as `str.isspace()` defines it for the code points listed in `IsSpace`. Unicode database changes after that set are not tracked.
- Re-running a line gives the same result because every model member is a function of its inputs. No separate lemma states this.
- `EquationForBtn` is the imperative model of `equation_for_btn`. `ParseLine` cannot call a method, so it uses `RowFor`, the function that `EquationForBtn` is proved to equal.
