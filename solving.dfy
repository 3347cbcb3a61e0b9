/** What the program asks of the optimiser, and how the answers are summed.
    The optimiser itself (Z3's `Optimize`) is not modelled: it is a parameter
    `solve`, and `SolverSound` states what its answers promise. */
module Solving {
  import opened Text
  import opened Day10

  /** `Sum([c * v for c, v in zip(coeffs, vars)])`: `zip` stops at the shorter list. */
  function Dot(coeffs: seq<int>, xs: seq<int>): int
  {
    if coeffs == [] || xs == [] then 0 else coeffs[0] * xs[0] + Dot(coeffs[1..], xs[1..])
  }

  /** Python's `sum` over a list of integers. */
  function Sum(xs: seq<int>): int
  {
    if xs == [] then 0 else xs[0] + Sum(xs[1..])
  }

  /** The constraints `solve_system` hands to the optimiser: one value per
      variable, every value at least 0, and every equation paired (by `zip`,
      so up to the shorter of equations and targets) with its target met exactly. */
  predicate IsSolution(inst: Instance, xs: seq<int>)
  {
    && |xs| == inst.numVars
    && (forall i :: 0 <= i < |xs| ==> xs[i] >= 0)
    && forall k :: 0 <= k < |inst.equations| && k < |inst.targets| ==>
         Dot(inst.equations[k], xs) == inst.targets[k]
  }

  /** A solution whose sum no other solution undercuts: what `minimize(Sum(vars))` asks for. */
  ghost predicate IsOptimal(inst: Instance, xs: seq<int>)
  {
    IsSolution(inst, xs) && forall ys :: IsSolution(inst, ys) ==> Sum(xs) <= Sum(ys)
  }

  /** What the program trusts of the optimiser on every system it reaches it
      with (at least one variable): a returned assignment is an optimal
      solution, and "no answer" (`None`) means there is no solution. */
  ghost predicate SolverSound(solve: Instance -> Option<seq<int>>)
  {
    forall inst: Instance :: inst.numVars > 0 ==>
      match solve(inst)
      case Some(xs) => IsOptimal(inst, xs)
      case None => forall ys :: !IsSolution(inst, ys)
  }

  /** `solve_system`: with no variables, z3's `Sum(vars)` is the plain integer
      0 and `opt.minimize` raises before the optimiser runs; otherwise the
      optimiser's answer. */
  function SolveSystem(inst: Instance, solve: Instance -> Option<seq<int>>): (r: Result<Option<seq<int>>>)
    ensures r.Err? <==> inst.numVars == 0
    ensures r.Err? ==> r.error == EmptyObjective
    ensures r.Ok? ==> r.value == solve(inst)
  {
    if inst.numVars == 0 then Err(EmptyObjective) else Ok(solve(inst))
  }

  /** `sum(solution)`: `None` makes `sum` raise. */
  function LineTotal(answer: Option<seq<int>>): (r: Result<int>)
    ensures r.Ok? <==> answer.Some?
    ensures r.Err? ==> r.error == NoSolution
    ensures answer.Some? ==> r == Ok(Sum(answer.value))
  {
    match answer
    case None => Err(NoSolution)
    case Some(xs) => Ok(Sum(xs))
  }

  /** `process_line`: parse the line, hand the system to the optimiser, sum its answer. */
  function ProcessLine(line: string, solve: Instance -> Option<seq<int>>): Result<int>
  {
    var inst :- ParseLine(line);
    var answer :- SolveSystem(inst, solve);
    LineTotal(answer)
  }

  /** `process_line` with the optimiser fixed. */
  function LineProcessor(solve: Instance -> Option<seq<int>>): string -> Result<int>
  {
    line => ProcessLine(line, solve)
  }

  /** The per-line outcomes, in input order. */
  function Outcomes(lines: seq<string>, process: string -> Result<int>): seq<Result<int>>
  {
    seq(|lines|, i requires 0 <= i < |lines| => process(lines[i]))
  }

  /** Evaluating `[... for line in lines]` in order: the first failure aborts
      the whole list; otherwise every value, in order. */
  function Collect(rs: seq<Result<int>>): (r: Result<seq<int>>)
    ensures r.Ok? <==> forall i :: 0 <= i < |rs| ==> rs[i].Ok?
    ensures r.Ok? ==> |r.value| == |rs| && forall i :: 0 <= i < |rs| ==> r.value[i] == rs[i].value
  {
    if rs == [] then Ok([])
    else if rs[0].Err? then Err(rs[0].error)
    else
      match Collect(rs[1..])
      case Err(e) => Err(e)
      case Ok(rest) => Ok([rs[0].value] + rest)
  }

  /** The program's final result: `sum([process_line(line) for line in lines])`. */
  function Run(lines: seq<string>, solve: Instance -> Option<seq<int>>): Result<int>
  {
    SumAll(Outcomes(lines, LineProcessor(solve)))
  }

  /** `sum([...])` over collected outcomes. */
  function SumAll(rs: seq<Result<int>>): Result<int>
  {
    var totals :- Collect(rs);
    Ok(Sum(totals))
  }

  // ---------------------------------------------------------------------
  // Properties of the sums
  // ---------------------------------------------------------------------

  lemma {:induction false} SumAppend(a: seq<int>, b: seq<int>)
    ensures Sum(a + b) == Sum(a) + Sum(b)
  {
    if a == [] {
      assert a + b == b;
    } else {
      assert (a + b)[0] == a[0] && (a + b)[1..] == a[1..] + b;
      SumAppend(a[1..], b);
    }
  }

  lemma {:induction false} SumNonNegative(xs: seq<int>)
    requires forall i :: 0 <= i < |xs| ==> xs[i] >= 0
    ensures Sum(xs) >= 0
  {
    if xs != [] {
      SumNonNegative(xs[1..]);
    }
  }

  /** An equation with 0/1 coefficients over non-negative values never exceeds
      the sum of all the values: a counter gets at most one increment per press. */
  lemma {:induction false} DotAtMostSum(coeffs: seq<int>, xs: seq<int>)
    requires forall i :: 0 <= i < |coeffs| ==> coeffs[i] == 0 || coeffs[i] == 1
    requires forall i :: 0 <= i < |xs| ==> xs[i] >= 0
    ensures Dot(coeffs, xs) <= Sum(xs)
  {
    if coeffs == [] {
      SumNonNegative(xs);
    } else if xs != [] {
      DotAtMostSum(coeffs[1..], xs[1..]);
    }
  }

  /** A failed collection reports the error of the first failing outcome. */
  lemma {:induction false} CollectFirstError(rs: seq<Result<int>>) returns (i: nat)
    requires Collect(rs).Err?
    ensures i < |rs| && rs[i] == Err(Collect(rs).error)
    ensures forall j :: 0 <= j < i ==> rs[j].Ok?
  {
    if rs[0].Err? {
      i := 0;
    } else {
      var k := CollectFirstError(rs[1..]);
      i := k + 1;
    }
  }

  /** Collecting two runs of outcomes: the values of both, or the first failure. */
  lemma {:induction false} CollectAppend(a: seq<Result<int>>, b: seq<Result<int>>)
    ensures Collect(a + b) ==
      if Collect(a).Err? then Collect(a)
      else if Collect(b).Err? then Collect(b)
      else Ok(Collect(a).value + Collect(b).value)
  {
    if a == [] {
      assert a + b == b;
      if Collect(b).Ok? {
        assert [] + Collect(b).value == Collect(b).value;
      }
    } else {
      var ab := a + b;
      assert ab[0] == a[0] && ab[1..] == a[1..] + b;
      if a[0].Ok? {
        CollectAppend(a[1..], b);
        if Collect(a[1..]).Ok? && Collect(b).Ok? {
          var x, ra, rb := a[0].value, Collect(a[1..]).value, Collect(b).value;
          assert [x] + (ra + rb) == ([x] + ra) + rb;
        }
      }
    }
  }

  lemma SumAllAppend(a: seq<Result<int>>, b: seq<Result<int>>)
    ensures SumAll(a + b) ==
      if SumAll(a).Err? then SumAll(a)
      else if SumAll(b).Err? then SumAll(b)
      else Ok(SumAll(a).value + SumAll(b).value)
  {
    CollectAppend(a, b);
    if Collect(a).Ok? && Collect(b).Ok? {
      SumAppend(Collect(a).value, Collect(b).value);
    }
  }

  lemma OutcomesAppend(a: seq<string>, b: seq<string>, process: string -> Result<int>)
    ensures Outcomes(a + b, process) == Outcomes(a, process) + Outcomes(b, process)
  {
  }

  /** The final result over two parts of the input is the sum of the results
      over each part; a failing line in the first part decides the failure. */
  lemma RunAppend(a: seq<string>, b: seq<string>, solve: Instance -> Option<seq<int>>)
    ensures Run(a + b, solve) ==
      if Run(a, solve).Err? then Run(a, solve)
      else if Run(b, solve).Err? then Run(b, solve)
      else Ok(Run(a, solve).value + Run(b, solve).value)
  {
    var p := LineProcessor(solve);
    OutcomesAppend(a, b, p);
    SumAllAppend(Outcomes(a, p), Outcomes(b, p));
  }

  /** A collection of outcomes succeeds exactly when every outcome does, with
      the sum of the values; otherwise it reports the first failure. */
  lemma {:induction false} SumAllSpec(rs: seq<Result<int>>)
    ensures SumAll(rs).Ok? <==> forall i :: 0 <= i < |rs| ==> rs[i].Ok?
    ensures SumAll(rs).Err? ==>
      exists i :: 0 <= i < |rs| && rs[i] == SumAll(rs) && forall j :: 0 <= j < i ==> rs[j].Ok?
    ensures SumAll(rs).Ok? && rs != [] ==> SumAll(rs).value == rs[0].value + SumAll(rs[1..]).value
  {
    if Collect(rs).Err? {
      var i := CollectFirstError(rs);
      assert rs[i] == SumAll(rs);
    }
    if rs != [] {
      SumAllAppend([rs[0]], rs[1..]);
      assert [rs[0]] + rs[1..] == rs;
      if rs[0].Ok? {
        var one := [rs[0]];
        assert one[0] == rs[0] && one[1..] == [];
        assert Collect(one[1..]) == Ok([]);
        assert [rs[0].value] + [] == [rs[0].value];
        assert Collect(one) == Ok([rs[0].value]);
        assert Sum([rs[0].value]) == rs[0].value;
      }
    }
  }

  /** The final result is the sum of the per-line totals, in input order, and
      fails exactly when some line fails, with the first failing line's error. */
  lemma RunIsSumOfLineTotals(lines: seq<string>, solve: Instance -> Option<seq<int>>)
    ensures Run(lines, solve).Ok? <==> forall i :: 0 <= i < |lines| ==> ProcessLine(lines[i], solve).Ok?
    ensures Run(lines, solve).Err? ==>
      exists i :: 0 <= i < |lines| && ProcessLine(lines[i], solve) == Run(lines, solve) &&
                  forall j :: 0 <= j < i ==> ProcessLine(lines[j], solve).Ok?
    ensures Run(lines, solve).Ok? && lines != [] ==>
      && ProcessLine(lines[0], solve).Ok?
      && Run(lines[1..], solve).Ok?
      && Run(lines, solve).value == ProcessLine(lines[0], solve).value + Run(lines[1..], solve).value
  {
    var p := LineProcessor(solve);
    SumOutcomes(lines, p);
    assert forall i :: 0 <= i < |lines| ==> p(lines[i]) == ProcessLine(lines[i], solve);
  }

  /** `SumAllSpec` for the outcomes of any per-line processing. */
  lemma SumOutcomes(lines: seq<string>, p: string -> Result<int>)
    ensures SumAll(Outcomes(lines, p)).Ok? <==> forall i :: 0 <= i < |lines| ==> p(lines[i]).Ok?
    ensures SumAll(Outcomes(lines, p)).Err? ==>
      exists i :: 0 <= i < |lines| && p(lines[i]) == SumAll(Outcomes(lines, p)) &&
                  forall j :: 0 <= j < i ==> p(lines[j]).Ok?
    ensures SumAll(Outcomes(lines, p)).Ok? && lines != [] ==>
      SumAll(Outcomes(lines, p)).value == p(lines[0]).value + SumAll(Outcomes(lines[1..], p)).value
  {
    var rs := Outcomes(lines, p);
    assert forall i :: 0 <= i < |lines| ==> rs[i] == p(lines[i]);
    SumAllSpec(rs);
    if lines != [] {
      assert rs[1..] == Outcomes(lines[1..], p);
    }
  }

  // ---------------------------------------------------------------------
  // What a sound optimiser's answer means for a line
  // ---------------------------------------------------------------------

  /** With a sound optimiser, a parsed line fails exactly when it has no
      button or its system has no non-negative solution. */
  lemma LineFailsIffInfeasible(line: string, solve: Instance -> Option<seq<int>>)
    requires SolverSound(solve)
    requires ParseLine(line).Ok?
    ensures var inst := ParseLine(line).value;
      ProcessLine(line, solve).Err? <==> inst.numVars == 0 || forall ys :: !IsSolution(inst, ys)
    ensures ParseLine(line).value.numVars == 0 ==> ProcessLine(line, solve) == Err(EmptyObjective)
  {
    var inst := ParseLine(line).value;
    if inst.numVars > 0 {
      match solve(inst)
      case Some(xs) =>
        assert IsOptimal(inst, xs);
      case None =>
    }
  }

  /** With a sound optimiser, a line that succeeds has a button, and its total
      is the sum of an optimal solution: non-negative, at most the sum of any
      solution, and at least every joltage of the line. */
  lemma LineTotalBounds(line: string, solve: Instance -> Option<seq<int>>)
    requires SolverSound(solve)
    requires ProcessLine(line, solve).Ok?
    ensures ParseLine(line).Ok? && ParseLine(line).value.numVars > 0
    ensures var inst := ParseLine(line).value; var total := ProcessLine(line, solve).value;
      && total >= 0
      && (forall ys :: IsSolution(inst, ys) ==> total <= Sum(ys))
      && (forall t :: 0 <= t < |inst.targets| ==> inst.targets[t] <= total)
      && exists xs :: IsOptimal(inst, xs) && total == Sum(xs)
  {
    var inst := ParseLine(line).value;
    var xs := solve(inst).value;
    assert ProcessLine(line, solve) == Ok(Sum(xs));
    OptimalBounds(inst, xs);
  }

  /** The sum of an optimal solution of a well-formed system with a variable is
      non-negative, and it reaches every target. */
  lemma OptimalBounds(inst: Instance, xs: seq<int>)
    requires WellFormed(inst) && inst.numVars > 0 && IsOptimal(inst, xs)
    ensures Sum(xs) >= 0
    ensures forall t :: 0 <= t < |inst.targets| ==> inst.targets[t] <= Sum(xs)
  {
    SumNonNegative(xs);
    forall t | 0 <= t < |inst.targets|
      ensures inst.targets[t] <= Sum(xs)
    {
      DotAtMostSum(inst.equations[t], xs);
    }
  }

  /** With a sound optimiser, the final result is non-negative. */
  lemma {:induction false} RunNonNegative(lines: seq<string>, solve: Instance -> Option<seq<int>>)
    requires SolverSound(solve)
    requires Run(lines, solve).Ok?
    ensures Run(lines, solve).value >= 0
  {
    if lines != [] {
      RunIsSumOfLineTotals(lines, solve);
      LineTotalBounds(lines[0], solve);
      RunNonNegative(lines[1..], solve);
    }
  }

  // ---------------------------------------------------------------------
  // Examples
  // ---------------------------------------------------------------------

  lemma DotOfTwo(a0: int, a1: int, xs: seq<int>)
    requires |xs| == 2
    ensures Dot([a0, a1], xs) == a0 * xs[0] + a1 * xs[1]
  {
    assert [a0, a1][1..] == [a1] && [a1][1..] == [];
    assert Dot([a1], xs[1..]) == a1 * xs[1] + Dot([], xs[2..]);
  }

  /** `A (0) (1) [3,5]`: the only solution presses button 0 three times and
      button 1 five times, so the line contributes 8. */
  lemma FeasibleExample(solve: Instance -> Option<seq<int>>)
    requires SolverSound(solve)
    ensures forall xs :: IsSolution(Instance(2, [[1, 0], [0, 1]], [3, 5]), xs) <==> xs == [3, 5]
    ensures ProcessLine("A (0) (1) [3,5]", solve) == Ok(8)
  {
    var inst := Instance(2, [[1, 0], [0, 1]], [3, 5]);
    forall xs | IsSolution(inst, xs)
      ensures xs == [3, 5]
    {
      DotOfTwo(1, 0, xs);
      DotOfTwo(0, 1, xs);
      assert Dot(inst.equations[0], xs) == inst.targets[0];
      assert Dot(inst.equations[1], xs) == inst.targets[1];
    }
    DotOfTwo(1, 0, [3, 5]);
    DotOfTwo(0, 1, [3, 5]);
    assert IsSolution(inst, [3, 5]);
    ParseLineExample();
    var xs := solve(inst).value;
    assert IsOptimal(inst, xs);
  }

  /** `A (0) (0,1) [3,5]`: the second counter forces button 1 to 5 presses,
      which overshoots the first counter's 3, so there is no solution and the
      line fails. */
  lemma InfeasibleExample(solve: Instance -> Option<seq<int>>)
    requires SolverSound(solve)
    ensures forall xs :: !IsSolution(Instance(2, [[1, 1], [0, 1]], [3, 5]), xs)
    ensures ProcessLine("A (0) (0,1) [3,5]", solve) == Err(NoSolution)
  {
    var inst := Instance(2, [[1, 1], [0, 1]], [3, 5]);
    forall xs
      ensures !IsSolution(inst, xs)
    {
      if |xs| == 2 {
        DotOfTwo(1, 1, xs);
        DotOfTwo(0, 1, xs);
        assert Dot(inst.equations[0], xs) == xs[0] + xs[1];
        assert Dot(inst.equations[1], xs) == xs[1];
      }
    }
    ParseLineOverlapExample();
  }

  /** A line without buttons has no equations (`zip(*[])` is empty), so the
      empty assignment is its only solution; yet the program never reaches
      the optimiser for it: the line fails because the objective is empty. */
  lemma NoButtonsLineFails(tag: string, targets: seq<nat>, solve: Instance -> Option<seq<int>>)
    requires tag != [] && !IsSpace(tag[0]) && ' ' !in tag
    requires |targets| >= 1
    ensures ParseLine(RenderLine(tag, [], targets)) == Ok(Instance(0, [], targets))
    ensures forall xs :: IsSolution(Instance(0, [], targets), xs) <==> xs == []
    ensures ProcessLine(RenderLine(tag, [], targets), solve) == Err(EmptyObjective)
  {
    var line := RenderLine(tag, [], targets);
    ParseRenderedLine(tag, [], targets, "");
    assert line + "" == line;
    assert IsSolution(Instance(0, [], targets), []);
  }
}
