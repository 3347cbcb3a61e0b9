/** The Day 10 solver: each input line such as `tag (0,1) (1,2) [3,5]` lists
    buttons, each wired to some counters, and the joltage each counter must
    reach. The line becomes a 0/1 linear system (one equation per counter, one
    variable per button); an external optimiser picks the non-negative press
    counts of least total, and the per-line totals are summed. */
module Day10 {
  import opened Text

  /** What can go wrong on a line: `int()` rejects a token (ValueError), a
      button names a counter past the end (IndexError), a line without buttons
      hands `opt.minimize` the plain integer that z3's `Sum([])` returns
      (AttributeError), or the optimiser finds no solution and `sum(None)`
      fails (TypeError). */
  datatype Error = InvalidLiteral | IndexOutOfRange | EmptyObjective | NoSolution

  datatype Result<+T> = Ok(value: T) | Err(error: Error) {
    predicate IsFailure() { Err? }
    function PropagateFailure<U>(): Result<U>
      requires Err?
    {
      Err(error)
    }
    function Extract(): T
      requires Ok?
    {
      value
    }
  }

  /** The arguments `process_line` hands to `solve_system`. */
  datatype Instance = Instance(numVars: nat, equations: seq<seq<int>>, targets: seq<int>)

  // ---------------------------------------------------------------------
  // Parsing one group: parse_btn
  // ---------------------------------------------------------------------

  /** Python's slice `s[1:-1]`: drops the first and the last element, and is
      empty when there are fewer than two. */
  function Inner<T>(s: seq<T>): seq<T>
  {
    if |s| < 2 then [] else s[1..|s| - 1]
  }

  /** `[int(x) for x in tokens]`: the first token `int()` rejects aborts. */
  function ParseInts(tokens: seq<string>): (r: Result<seq<nat>>)
    ensures r.Ok? <==> forall i :: 0 <= i < |tokens| ==> IsNumeral(tokens[i])
    ensures r.Err? ==> r.error == InvalidLiteral
    ensures r.Ok? ==> |r.value| == |tokens|
    ensures r.Ok? ==> forall i :: 0 <= i < |tokens| ==> ParseNat(tokens[i]) == Some(r.value[i])
  {
    if tokens == [] then Ok([])
    else
      match ParseNat(tokens[0])
      case None => Err(InvalidLiteral)
      case Some(n) =>
        var rest :- ParseInts(tokens[1..]);
        Ok([n] + rest)
  }

  /** `parse_btn`: drop the enclosing brackets (whatever they are) and read
      the comma-separated integers in between. */
  function ParseBtn(btn: string): (r: Result<seq<nat>>)
    ensures r.Err? ==> r.error == InvalidLiteral
    ensures r.Ok? ==> |r.value| == multiset(Inner(btn))[','] + 1
  {
    SplitSpec(Inner(btn), ',');
    ParseInts(Split(Inner(btn), ','))
  }

  /** The decimal numerals of `xs`, in order. */
  function Numerals(xs: seq<nat>): seq<string>
  {
    seq(|xs|, i requires 0 <= i < |xs| => ShowNat(xs[i]))
  }

  /** How the input writes a list of numbers: `open` + comma-joined numerals + `close`,
      e.g. `(2,3,5)` for a button and `[3,5]` for the joltages. */
  function Group(open: char, xs: seq<nat>, close: char): string
  {
    [open] + Join(Numerals(xs), ',') + [close]
  }

  lemma NumeralHasNoSeparator(s: string, c: char)
    requires IsNumeral(s) && !IsDigit(c)
    ensures c !in s
  {
  }

  /** `parse_btn` reads back exactly the list a group spells, in order,
      whichever brackets enclose it. */
  lemma {:induction false} ParseBtnGroup(open: char, xs: seq<nat>, close: char)
    requires |xs| >= 1
    ensures ParseBtn(Group(open, xs, close)) == Ok(xs)
  {
    var ns := Numerals(xs);
    var g := Group(open, xs, close);
    assert Inner(g) == Join(ns, ',');
    forall i | 0 <= i < |ns|
      ensures ',' !in ns[i]
    {
      NumeralHasNoSeparator(ns[i], ',');
    }
    SplitJoin(ns, ',');
    assert ParseBtn(g) == ParseInts(ns);
    forall i | 0 <= i < |ns|
      ensures ParseNat(ns[i]) == Some(xs[i])
    {
      ParseShowNat(xs[i]);
    }
    var r := ParseInts(ns);
    assert r.Ok?;
    assert r.value == xs;
  }

  /** The example next to `parse_btn`: `'(2,3,5)' -> [2,3,5]`. */
  lemma ParseBtnExample()
    ensures ParseBtn("(2,3,5)") == Ok([2, 3, 5])
  {
    assert Numerals([2, 3, 5]) == ["2", "3", "5"];
    assert Group('(', [2, 3, 5], ')') == "(2,3,5)";
    ParseBtnGroup('(', [2, 3, 5], ')');
  }

  // ---------------------------------------------------------------------
  // One row per button: equation_for_btn
  // ---------------------------------------------------------------------

  /** The 0/1 row of a button over `size` counters. */
  function Indicator(btn: seq<nat>, size: nat): seq<int>
  {
    seq(size, j => if j in btn then 1 else 0)
  }

  /** Every index of the button is a counter of the line. */
  predicate IndicesBelow(btn: seq<nat>, size: nat)
  {
    forall i :: 0 <= i < |btn| ==> btn[i] < size
  }

  /** What `equation_for_btn(btn, size)` yields: the button's row, or the
      IndexError raised on an index past the end. */
  function RowFor(btn: seq<nat>, size: nat): Result<seq<int>>
  {
    if IndicesBelow(btn, size) then Ok(Indicator(btn, size)) else Err(IndexOutOfRange)
  }

  /** `equation_for_btn`: a zero-filled array of `size` slots, set to 1 at every
      index the button lists. An index at or past `size` raises IndexError.
      (Indices here are never negative: the model reads digits only.) */
  method EquationForBtn(btn: seq<nat>, size: nat) returns (r: Result<seq<int>>)
    ensures r == RowFor(btn, size)
    ensures r.Ok? <==> IndicesBelow(btn, size)
    ensures r.Err? ==> r.error == IndexOutOfRange
    ensures r.Ok? ==> |r.value| == size
    ensures r.Ok? ==> forall j :: 0 <= j < size ==>
      (r.value[j] == 1 <==> j in btn) && (r.value[j] == 0 <==> j !in btn)
  {
    var arr := new int[size](_ => 0);
    var i := 0;
    while i < |btn|
      invariant 0 <= i <= |btn|
      invariant forall k :: 0 <= k < i ==> btn[k] < size
      invariant forall j :: 0 <= j < size ==> arr[j] == if j in btn[..i] then 1 else 0
    {
      if btn[i] >= size {
        return Err(IndexOutOfRange);
      }
      arr[btn[i]] := 1;
      i := i + 1;
    }
    assert btn[..i] == btn;
    assert arr[..] == Indicator(btn, size);
    r := Ok(arr[..]);
  }

  /** Neither the order of a button's indices nor repeated indices change its row. */
  lemma RowIgnoresOrderAndRepeats(btn1: seq<nat>, btn2: seq<nat>, size: nat)
    requires forall j :: j in btn1 <==> j in btn2
    ensures RowFor(btn1, size) == RowFor(btn2, size)
  {
    if IndicesBelow(btn1, size) {
      forall i | 0 <= i < |btn2|
        ensures btn2[i] < size
      {
        assert btn2[i] in btn1;
      }
    }
    if IndicesBelow(btn2, size) {
      forall i | 0 <= i < |btn1|
        ensures btn1[i] < size
      {
        assert btn1[i] in btn2;
      }
    }
    if IndicesBelow(btn1, size) && IndicesBelow(btn2, size) {
      assert Indicator(btn1, size) == Indicator(btn2, size);
    }
  }

  // ---------------------------------------------------------------------
  // process_line: tokens, buttons, joltages and the transposed matrix
  // ---------------------------------------------------------------------

  /** `[equation_for_btn(btn, size) for btn in btns]`. */
  function Rows(btns: seq<seq<nat>>, size: nat): (r: Result<seq<seq<int>>>)
    ensures r.Ok? <==> forall b :: 0 <= b < |btns| ==> IndicesBelow(btns[b], size)
    ensures r.Err? ==> r.error == IndexOutOfRange
    ensures r.Ok? ==> |r.value| == |btns|
    ensures r.Ok? ==> forall b :: 0 <= b < |btns| ==> r.value[b] == Indicator(btns[b], size)
  {
    if btns == [] then Ok([])
    else
      var row :- RowFor(btns[0], size);
      var rest :- Rows(btns[1..], size);
      Ok([row] + rest)
  }

  /** The length of the shortest row: where `zip` stops. */
  function MinLen(rows: seq<seq<int>>): (m: nat)
    requires |rows| > 0
    ensures forall b :: 0 <= b < |rows| ==> m <= |rows[b]|
    ensures exists b :: 0 <= b < |rows| && m == |rows[b]|
  {
    if |rows| == 1 then |rows[0]|
    else
      var m := MinLen(rows[1..]);
      if |rows[0]| <= m then |rows[0]|
      else
        ghost var b :| 0 <= b < |rows| - 1 && m == |rows[1..][b]|;
        assert m == |rows[b + 1]|;
        m
  }

  /** `zip(*rows)`: the t-th tuple collects the t-th entry of every row; it stops
      at the shortest row, and there are no tuples at all when there are no rows. */
  function Transpose(rows: seq<seq<int>>): seq<seq<int>>
  {
    if rows == [] then []
    else seq(MinLen(rows), t requires 0 <= t < MinLen(rows) =>
           seq(|rows|, b requires 0 <= b < |rows| => rows[b][t]))
  }

  /** All rows have length `n`. */
  predicate Rectangular(rows: seq<seq<int>>, n: nat)
  {
    forall b :: 0 <= b < |rows| ==> |rows[b]| == n
  }

  /** Transposing an `m` by `n` matrix gives an `n` by `m` one with entry
      `[t][b]` taken from `[b][t]`. */
  lemma TransposeShape(rows: seq<seq<int>>, n: nat)
    requires |rows| > 0 && Rectangular(rows, n)
    ensures |Transpose(rows)| == n && Rectangular(Transpose(rows), |rows|)
    ensures forall t, b :: 0 <= t < n && 0 <= b < |rows| ==> Transpose(rows)[t][b] == rows[b][t]
  {
  }

  /** With at least one row and one column, `zip(*zip(*rows))` gives the rows back. */
  lemma TransposeTwice(rows: seq<seq<int>>, n: nat)
    requires |rows| > 0 && n > 0 && Rectangular(rows, n)
    ensures Transpose(Transpose(rows)) == rows
  {
    TransposeShape(rows, n);
    var cols := Transpose(rows);
    TransposeShape(cols, |rows|);
    var back := Transpose(cols);
    forall b | 0 <= b < |rows|
      ensures back[b] == rows[b]
    {
      assert |back[b]| == n;
      forall t | 0 <= t < n
        ensures back[b][t] == rows[b][t]
      {
        assert back[b][t] == cols[t][b];
      }
    }
  }

  /** Every button lists only counters of the line. */
  predicate ButtonsInRange(btns: seq<seq<nat>>, size: nat)
  {
    forall b :: 0 <= b < |btns| ==> IndicesBelow(btns[b], size)
  }

  /** The shape of every system a line yields: with at least one button, one
      equation per target, each with one 0/1 coefficient per variable; with no
      button, no equation at all. */
  predicate WellFormed(inst: Instance)
  {
    && (inst.numVars == 0 ==> inst.equations == [])
    && (inst.numVars > 0 ==>
          && |inst.equations| == |inst.targets|
          && Rectangular(inst.equations, inst.numVars)
          && forall t, b :: 0 <= t < |inst.equations| && 0 <= b < inst.numVars ==>
               inst.equations[t][b] == 0 || inst.equations[t][b] == 1)
  }

  /** The system `process_line` builds from parsed buttons and joltages: one
      variable per button; with at least one button, one equation per counter
      whose coefficient for button `b` is 1 exactly when `b` lists that counter;
      with no button, no equation at all. */
  function BuildInstance(btns: seq<seq<nat>>, targets: seq<nat>): (r: Result<Instance>)
    ensures r.Ok? <==> ButtonsInRange(btns, |targets|)
    ensures r.Err? ==> r.error == IndexOutOfRange
    ensures r.Ok? ==> r.value.numVars == |btns| && r.value.targets == targets
    ensures r.Ok? ==> WellFormed(r.value)
    ensures r.Ok? && |btns| == 0 ==> r.value.equations == []
    ensures r.Ok? && |btns| > 0 ==>
      |r.value.equations| == |targets| && Rectangular(r.value.equations, |btns|)
    ensures r.Ok? && |btns| > 0 ==>
      forall t, b :: 0 <= t < |targets| && 0 <= b < |btns| ==>
        (r.value.equations[t][b] == 1 <==> t in btns[b]) &&
        (r.value.equations[t][b] == 0 <==> t !in btns[b])
  {
    var rows :- Rows(btns, |targets|);
    if |btns| > 0 then
      TransposeShape(rows, |targets|);
      Ok(Instance(|btns|, Transpose(rows), targets))
    else
      Ok(Instance(|btns|, Transpose(rows), targets))
  }

  /** `line.strip().split(" ")`. */
  function Tokens(line: string): (parts: seq<string>)
    ensures |parts| >= 1
  {
    Split(Strip(line), ' ')
  }

  /** `[parse_btn(btn) for btn in toks]`. */
  function ParseBtns(toks: seq<string>): (r: Result<seq<seq<nat>>>)
    ensures r.Ok? <==> forall i :: 0 <= i < |toks| ==> ParseBtn(toks[i]).Ok?
    ensures r.Err? ==> r.error == InvalidLiteral
    ensures r.Ok? ==> |r.value| == |toks|
    ensures r.Ok? ==> forall i :: 0 <= i < |toks| ==> r.value[i] == ParseBtn(toks[i]).value
  {
    if toks == [] then Ok([])
    else
      var btn :- ParseBtn(toks[0]);
      var rest :- ParseBtns(toks[1..]);
      Ok([btn] + rest)
  }

  /** The parsing half of `process_line`: the first token is a tag and is
      ignored, the last holds the joltages, every token in between is a button;
      then the buttons' rows are built and transposed. */
  function ParseLine(line: string): (r: Result<Instance>)
    ensures var parts := Tokens(line);
      r.Ok? ==> && WellFormed(r.value)
                && r.value.numVars == (if |parts| < 2 then 0 else |parts| - 2)
                && ParseBtn(parts[|parts| - 1]).Ok?
                && r.value.targets == ParseBtn(parts[|parts| - 1]).value
  {
    var parts := Tokens(line);
    var btns :- ParseBtns(Inner(parts));
    var targets :- ParseBtn(parts[|parts| - 1]);
    BuildInstance(btns, targets)
  }

  /** The groups of the buttons, in order. */
  function ButtonGroups(btns: seq<seq<nat>>): seq<string>
  {
    seq(|btns|, b requires 0 <= b < |btns| => Group('(', btns[b], ')'))
  }

  /** A line as the input writes it: tag, button groups and joltage group,
      separated by single spaces. */
  function RenderLine(tag: string, btns: seq<seq<nat>>, targets: seq<nat>): string
  {
    Join([tag] + ButtonGroups(btns) + [Group('[', targets, ']')], ' ')
  }

  lemma {:induction false} JoinAvoids(parts: seq<string>, sep: char, c: char)
    requires c != sep
    requires forall i :: 0 <= i < |parts| ==> c !in parts[i]
    ensures c !in Join(parts, sep)
  {
    if |parts| > 1 {
      JoinAvoids(parts[1..], sep, c);
    }
  }

  lemma JoinFirst(parts: seq<string>, sep: char)
    requires |parts| >= 1 && parts[0] != []
    ensures Join(parts, sep) != [] && Join(parts, sep)[0] == parts[0][0]
  {
  }

  lemma {:induction false} JoinLast(parts: seq<string>, sep: char)
    requires |parts| >= 1 && parts[|parts| - 1] != []
    ensures Join(parts, sep) != []
    ensures Join(parts, sep)[|Join(parts, sep)| - 1] == parts[|parts| - 1][|parts[|parts| - 1]| - 1]
  {
    if |parts| > 1 {
      JoinLast(parts[1..], sep);
    }
  }

  lemma GroupHasNoSpace(open: char, xs: seq<nat>, close: char)
    requires open != ' ' && close != ' '
    ensures ' ' !in Group(open, xs, close)
  {
    var ns := Numerals(xs);
    forall i | 0 <= i < |ns|
      ensures ' ' !in ns[i]
    {
      NumeralHasNoSeparator(ns[i], ' ');
    }
    JoinAvoids(ns, ',', ' ');
  }

  /** The tokens of a well-formed line are its tag, its groups and its joltage group. */
  lemma TokensOfRenderedLine(tag: string, btns: seq<seq<nat>>, targets: seq<nat>, tail: string)
    requires tag != [] && !IsSpace(tag[0]) && ' ' !in tag
    requires forall k :: 0 <= k < |tail| ==> IsSpace(tail[k])
    ensures Tokens(RenderLine(tag, btns, targets) + tail)
              == [tag] + ButtonGroups(btns) + [Group('[', targets, ']')]
  {
    var groups := ButtonGroups(btns);
    var last := Group('[', targets, ']');
    var parts := [tag] + groups + [last];
    var s := Join(parts, ' ');
    JoinFirst(parts, ' ');
    JoinLast(parts, ' ');
    StripTrailingSpace(s, tail);
    forall i | 0 <= i < |parts|
      ensures ' ' !in parts[i]
    {
      if 0 < i < |parts| - 1 {
        GroupHasNoSpace('(', btns[i - 1], ')');
      } else if i == |parts| - 1 {
        GroupHasNoSpace('[', targets, ']');
      }
    }
    SplitJoin(parts, ' ');
  }

  /** Every button group parses back to its indices. */
  lemma ParseButtonGroups(btns: seq<seq<nat>>)
    requires forall b :: 0 <= b < |btns| ==> |btns[b]| >= 1
    ensures ParseBtns(ButtonGroups(btns)) == Ok(btns)
  {
    var groups := ButtonGroups(btns);
    forall b | 0 <= b < |btns|
      ensures ParseBtn(groups[b]) == Ok(btns[b])
    {
      ParseBtnGroup('(', btns[b], ')');
    }
    var r := ParseBtns(groups);
    assert r.Ok?;
    assert r.value == btns;
  }

  /** `process_line` parses back what a well-formed line spells: as many
      variables as buttons, the joltages as targets, and the transposed button
      rows as equations, whatever whitespace trails the line. */
  lemma ParseRenderedLine(tag: string, btns: seq<seq<nat>>, targets: seq<nat>, tail: string)
    requires tag != [] && !IsSpace(tag[0]) && ' ' !in tag
    requires forall b :: 0 <= b < |btns| ==> |btns[b]| >= 1
    requires |targets| >= 1
    requires forall k :: 0 <= k < |tail| ==> IsSpace(tail[k])
    ensures ParseLine(RenderLine(tag, btns, targets) + tail) == BuildInstance(btns, targets)
  {
    var parts := [tag] + ButtonGroups(btns) + [Group('[', targets, ']')];
    TokensOfRenderedLine(tag, btns, targets, tail);
    assert Inner(parts) == ButtonGroups(btns);
    ParseButtonGroups(btns);
    ParseBtnGroup('[', targets, ']');
  }

  /** An example: `A (0) (1) [3,5]` has two variables, the identity
      matrix and targets 3 and 5. */
  lemma ParseLineExample()
    ensures ParseLine("A (0) (1) [3,5]") == Ok(Instance(2, [[1, 0], [0, 1]], [3, 5]))
  {
    RenderExample();
    ParseRenderedLine("A", [[0], [1]], [3, 5], "");
    assert "A (0) (1) [3,5]" + "" == "A (0) (1) [3,5]";
    BuildExample();
  }

  lemma RenderExample()
    ensures RenderLine("A", [[0], [1]], [3, 5]) == "A (0) (1) [3,5]"
  {
    assert Numerals([0]) == ["0"] && Numerals([1]) == ["1"] && Numerals([3, 5]) == ["3", "5"];
    assert Group('(', [0], ')') == "(0)" && Group('(', [1], ')') == "(1)";
    assert Group('[', [3, 5], ']') == "[3,5]";
    assert ButtonGroups([[0], [1]]) == ["(0)", "(1)"];
    assert Join(["(1)", "[3,5]"], ' ') == "(1) [3,5]";
    assert Join(["(0)", "(1)", "[3,5]"], ' ') == "(0) (1) [3,5]";
    assert Join(["A", "(0)", "(1)", "[3,5]"], ' ') == "A (0) (1) [3,5]";
    assert ["A"] + ButtonGroups([[0], [1]]) + ["[3,5]"] == ["A", "(0)", "(1)", "[3,5]"];
  }

  lemma BuildExample()
    ensures BuildInstance([[0], [1]], [3, 5]) == Ok(Instance(2, [[1, 0], [0, 1]], [3, 5]))
  {
    var r := BuildInstance([[0], [1]], [3, 5]);
    assert r.Ok?;
    var eq := r.value.equations;
    assert 0 in [0] && 1 !in [0] && 0 !in [1] && 1 in [1];
    assert |eq| == 2 && |eq[0]| == 2 && |eq[1]| == 2;
    assert eq[0][0] == 1 && eq[0][1] == 0 && eq[1][0] == 0 && eq[1][1] == 1;
    assert eq[0] == [1, 0] && eq[1] == [0, 1];
    assert eq == [[1, 0], [0, 1]];
    assert r.value.numVars == 2 && r.value.targets == [3, 5];
    assert r.value == Instance(2, [[1, 0], [0, 1]], [3, 5]);
  }

  /** A blank line (nothing but whitespace, as a trailing empty line of the
      input) is not skipped: its joltage token is empty and `int('')` fails. */
  lemma BlankLineFails(line: string)
    requires forall k :: 0 <= k < |line| ==> IsSpace(line[k])
    ensures ParseLine(line) == Err(InvalidLiteral)
  {
  }

  /** `A (0) (0,1) [3,5]`: button 1 feeds both counters, so the first equation
      has two 1s and the second has a 1 for button 1 only. */
  lemma ParseLineOverlapExample()
    ensures ParseLine("A (0) (0,1) [3,5]") == Ok(Instance(2, [[1, 1], [0, 1]], [3, 5]))
  {
    RenderOverlapExample();
    ParseRenderedLine("A", [[0], [0, 1]], [3, 5], "");
    assert "A (0) (0,1) [3,5]" + "" == "A (0) (0,1) [3,5]";
    BuildOverlapExample();
  }

  lemma RenderOverlapExample()
    ensures RenderLine("A", [[0], [0, 1]], [3, 5]) == "A (0) (0,1) [3,5]"
  {
    OverlapGroups();
    assert Join(["(0,1)", "[3,5]"], ' ') == "(0,1) [3,5]";
    assert Join(["(0)", "(0,1)", "[3,5]"], ' ') == "(0) (0,1) [3,5]";
    assert Join(["A", "(0)", "(0,1)", "[3,5]"], ' ') == "A (0) (0,1) [3,5]";
    assert ["A"] + ButtonGroups([[0], [0, 1]]) + ["[3,5]"] == ["A", "(0)", "(0,1)", "[3,5]"];
  }

  lemma OverlapGroups()
    ensures ButtonGroups([[0], [0, 1]]) == ["(0)", "(0,1)"]
    ensures Group('[', [3, 5], ']') == "[3,5]"
  {
    assert Numerals([0]) == ["0"] && Numerals([0, 1]) == ["0", "1"] && Numerals([3, 5]) == ["3", "5"];
    assert Join(["0", "1"], ',') == "0,1";
    assert Group('(', [0], ')') == "(0)" && Group('(', [0, 1], ')') == "(0,1)";
  }

  lemma BuildOverlapExample()
    ensures BuildInstance([[0], [0, 1]], [3, 5]) == Ok(Instance(2, [[1, 1], [0, 1]], [3, 5]))
  {
    var r := BuildInstance([[0], [0, 1]], [3, 5]);
    assert r.Ok?;
    var eq := r.value.equations;
    assert 0 in [0] && 1 !in [0] && 0 in [0, 1] && 1 in [0, 1];
    assert |eq| == 2 && |eq[0]| == 2 && |eq[1]| == 2;
    assert eq[0] == [1, 1] && eq[1] == [0, 1];
    assert r.value == Instance(2, [[1, 1], [0, 1]], [3, 5]);
  }

  /** For buttons `(0,1)` and `(1)` with joltages `[5,3]`, counter 0 is fed by
      button 0 alone and counter 1 by both buttons. */
  lemma TransposedRowsExample()
    ensures BuildInstance([[0, 1], [1]], [5, 3]) == Ok(Instance(2, [[1, 0], [1, 1]], [5, 3]))
  {
    var r := BuildInstance([[0, 1], [1]], [5, 3]);
    assert r.Ok?;
    var eq := r.value.equations;
    assert 0 in [0, 1] && 1 in [0, 1] && 0 !in [1] && 1 in [1];
    assert |eq| == 2 && |eq[0]| == 2 && |eq[1]| == 2;
    assert eq[0] == [1, 0] && eq[1] == [1, 1];
    assert r.value == Instance(2, [[1, 0], [1, 1]], [5, 3]);
  }
}
