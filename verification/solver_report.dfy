/** What `solve_qbf_model` makes of the solver's attributes, what `log_results` and
    `present_results` derive from a result, and `sum_coeff`. The solver itself is not modelled:
    its attributes and the values it loads into the variables are inputs. */
module SolverReport {
  import opened Common
  import opened QbfInstance
  import opened LinearProgram
  import opened ModelBuilder

  // ---------------------------------------------------------------------------------------------
  // Normalising the solver's answer (`solve_qbf_model`)

  /** The model attributes read after solving: `SolCount`, `Runtime`, `ObjBound`, `ObjVal`
      (only read when a solution exists) and `MIPGap`. */
  datatype SolverAttributes = SolverAttributes(
    solCount: nat, runtime: real, objBound: real, objVal: real, mipGap: real)

  /** The dictionary `solve_qbf_model` returns (without the raw `model_results` object). */
  datatype SolveOutput = SolveOutput(
    objective: real,
    variables: seq<real>,
    primal: Option<real>,
    dual: real,
    relativeGap: real,
    absoluteGap: Option<real>,
    solverRuntimeSec: real)

  function Abs(r: real): real
  {
    if r < 0.0 then -r else r
  }

  /** `abs(incumbent - best_bound) if incumbent is not None else None` */
  function AbsoluteGap(primal: Option<real>, dual: real): (gap: Option<real>)
    ensures gap.None? <==> primal.None?
    ensures gap.Some? ==> gap.value >= 0.0
    ensures gap.Some? ==> gap.value == primal.value - dual || gap.value == dual - primal.value
    ensures gap.Some? && gap.value == 0.0 ==> primal.value == dual
  {
    match primal
    case None => None
    case Some(p) => Some(Abs(p - dual))
  }

  /** `[pyo.value(model.x[i]) for i in model.I]` */
  function XValues(n: int, val: Valuation): (xs: seq<real>)
    ensures |xs| == if n > 0 then n else 0
    ensures forall k :: 0 <= k < |xs| ==> xs[k] == val(X(k + 1))
  {
    if n <= 0 then [] else seq(n, k requires 0 <= k < n => val(X(k + 1)))
  }

  /** The result record of `solve_qbf_model`, given the attributes the solver reports and the
      values it loads into the model's variables. `primal` is absent exactly when the solver found
      no solution, and then so is `absolute_gap`; `dual` is always reported. */
  function SolveOutputOf(m: MipModel, attrs: SolverAttributes, val: Valuation): (r: SolveOutput)
    ensures r.primal.None? <==> attrs.solCount == 0
    ensures r.primal.Some? ==> r.primal.value == attrs.objVal
    ensures r.absoluteGap.None? <==> r.primal.None?
    ensures r.absoluteGap.Some? ==> r.absoluteGap.value == Abs(attrs.objVal - attrs.objBound) >= 0.0
    ensures r.dual == attrs.objBound && r.relativeGap == attrs.mipGap && r.solverRuntimeSec == attrs.runtime
    ensures r.objective == Eval(m.objective, val)
    ensures r.variables == XValues(m.n, val)
  {
    var incumbent := if attrs.solCount > 0 then Some(attrs.objVal) else None;
    SolveOutput(Eval(m.objective, val), XValues(m.n, val), incumbent, attrs.objBound, attrs.mipGap,
                AbsoluteGap(incumbent, attrs.objBound), attrs.runtime)
  }

  // ---------------------------------------------------------------------------------------------
  // The summary of `log_results` / `present_results`

  /** `[i + 1 for i, v in enumerate(vars_) if v >= 0.5]`: the selected subsets, 1-based, in
      increasing order. That every position at 0.5 or more is listed is `SelectedIsChosen`. */
  function Chosen(vars: seq<real>): (r: seq<int>)
    ensures forall t :: 0 <= t < |r| ==> 1 <= r[t] <= |vars| && vars[r[t] - 1] >= 0.5
    ensures forall a, b :: 0 <= a < b < |r| ==> r[a] < r[b]
  {
    if vars == [] then []
    else
      var init := vars[..|vars| - 1];
      assert forall k :: 0 <= k < |init| ==> init[k] == vars[k];
      Chosen(init) + (if vars[|vars| - 1] >= 0.5 then [|vars|] else [])
  }

  /** Every position with value at least 0.5 is listed, at some place `t`. */
  lemma {:induction false} SelectedIsChosen(vars: seq<real>, k: int) returns (t: int)
    requires 0 <= k < |vars| && vars[k] >= 0.5
    ensures 0 <= t < |Chosen(vars)| && Chosen(vars)[t] == k + 1
  {
    var init := vars[..|vars| - 1];
    assert forall j :: 0 <= j < |init| ==> init[j] == vars[j];
    var prev := Chosen(init);
    assert Chosen(vars) == prev + (if vars[|vars| - 1] >= 0.5 then [|vars|] else []);
    if k == |vars| - 1 {
      t := |prev|;
    } else {
      t := SelectedIsChosen(init, k);
    }
  }

  /** A position is listed exactly when its value is at least 0.5. */
  lemma {:induction false} ChosenMembers(vars: seq<real>)
    ensures forall k :: 0 <= k < |vars| ==> (k + 1 in Chosen(vars) <==> vars[k] >= 0.5)
  {
    forall k | 0 <= k < |vars| ensures k + 1 in Chosen(vars) <==> vars[k] >= 0.5 {
      ChosenMember(vars, k);
    }
  }

  lemma {:induction false} ChosenMember(vars: seq<real>, k: int)
    requires 0 <= k < |vars|
    ensures k + 1 in Chosen(vars) <==> vars[k] >= 0.5
  {
    var r := Chosen(vars);
    if vars[k] >= 0.5 {
      var t := SelectedIsChosen(vars, k);
      assert r[t] == k + 1;
    }
    if k + 1 in r {
      var t :| 0 <= t < |r| && r[t] == k + 1;
      assert vars[r[t] - 1] >= 0.5;
    }
  }

  /** Every selected position names a subset, so `sets[i - 1]` exists (otherwise Python raises
      `IndexError`). */
  predicate ChosenInRange(vars: seq<real>, count: int)
  {
    forall k :: 0 <= k < |vars| && vars[k] >= 0.5 ==> k < count
  }

  /** `set().union(*(sets[i - 1] for i in chosen))`: what the chosen subsets hold between them. */
  function CoveredBy(sets: seq<set<int>>, chosen: seq<int>): (c: set<int>)
    requires forall t :: 0 <= t < |chosen| ==> 1 <= chosen[t] <= |sets|
    ensures forall t :: 0 <= t < |chosen| ==> sets[chosen[t] - 1] <= c
    ensures forall e :: e in c ==> exists t :: 0 <= t < |chosen| && e in sets[chosen[t] - 1]
  {
    var picked := seq(|chosen|, t requires 0 <= t < |chosen| => sets[chosen[t] - 1]);
    assert forall t :: 0 <= t < |chosen| ==> picked[t] == sets[chosen[t] - 1];
    Union(picked)
  }

  /** `len(covered) / len(universe_all) * 100 if universe_all else 0.0` */
  function CoveragePct(covered: nat, universe: nat): (pct: real)
    ensures universe == 0 ==> pct == 0.0
    ensures covered <= universe ==> 0.0 <= pct <= 100.0
    ensures 0 < universe == covered ==> pct == 100.0
    ensures universe > 0 ==> pct * (universe as real) == 100.0 * (covered as real)
    ensures 0 < universe && covered <= universe ==> (pct == 100.0 <==> covered == universe)
  {
    if universe == 0 then 0.0
    else
      var q := (covered as real) / (universe as real);
      assert q * (universe as real) == covered as real;
      assert covered <= universe ==> q <= 1.0;
      q * 100.0
  }

  /** The values a summary reports besides what it copies from the result record. */
  datatype Summary = Summary(chosen: seq<int>, covered: set<int>, universe: set<int>, coveragePct: real)

  lemma {:induction false} SubsetCard(a: set<int>, b: set<int>)
    requires a <= b
    ensures |a| <= |b|
    ensures |a| == |b| ==> a == b
  {
    assert b == a + (b - a);
    assert a * (b - a) == {};
  }

  lemma {:induction false} ChosenIndexSets(vars: seq<real>, sets: seq<set<int>>)
    requires ChosenInRange(vars, |sets|)
    ensures forall t :: 0 <= t < |Chosen(vars)| ==> 1 <= Chosen(vars)[t] <= |sets|
  {
    var chosen := Chosen(vars);
    forall t | 0 <= t < |chosen| ensures 1 <= chosen[t] <= |sets| {
      assert vars[chosen[t] - 1] >= 0.5;
    }
  }

  /** An element covered by a list of selected positions, each naming a subset, lies in a
      selected subset. */
  lemma {:induction false} CoveredOnlyChosen(vars: seq<real>, sets: seq<set<int>>, chosen: seq<int>, e: int)
    returns (k: int)
    requires forall t :: 0 <= t < |chosen| ==>
      1 <= chosen[t] <= |vars| && chosen[t] <= |sets| && vars[chosen[t] - 1] >= 0.5
    requires e in CoveredBy(sets, chosen)
    ensures 0 <= k < |vars| && k < |sets| && vars[k] >= 0.5 && e in sets[k]
  {
    var t := CoveringPick(sets, chosen, e);
    k := chosen[t] - 1;
  }

  /** An element the picked subsets cover lies in one of them, at some position `t`. */
  lemma {:induction false} CoveringPick(sets: seq<set<int>>, chosen: seq<int>, e: int) returns (t: int)
    requires forall t :: 0 <= t < |chosen| ==> 1 <= chosen[t] <= |sets|
    requires e in CoveredBy(sets, chosen)
    ensures 0 <= t < |chosen| && e in sets[chosen[t] - 1]
  {
    t :| 0 <= t < |chosen| && e in sets[chosen[t] - 1];
  }

  lemma {:induction false} ChosenAreCovered(vars: seq<real>, sets: seq<set<int>>, e: int, k: int)
    requires forall t :: 0 <= t < |Chosen(vars)| ==> 1 <= Chosen(vars)[t] <= |sets|
    requires 0 <= k < |vars| && k < |sets| && vars[k] >= 0.5 && e in sets[k]
    ensures e in CoveredBy(sets, Chosen(vars))
  {
    var chosen := Chosen(vars);
    var t := SelectedIsChosen(vars, k);
    assert e in sets[chosen[t] - 1];
  }

  /** An element is covered exactly when some position with value at least 0.5 names a subset
      that holds it. */
  lemma {:induction false} CoveredMeaning(vars: seq<real>, sets: seq<set<int>>)
    requires ChosenInRange(vars, |sets|)
    ensures forall t :: 0 <= t < |Chosen(vars)| ==> 1 <= Chosen(vars)[t] <= |sets|
    ensures forall e :: e in CoveredBy(sets, Chosen(vars)) <==>
      exists k :: 0 <= k < |vars| && vars[k] >= 0.5 && e in sets[k]
  {
    ChosenIndexSets(vars, sets);
    var chosen := Chosen(vars);
    assert forall t :: 0 <= t < |chosen| ==>
      1 <= chosen[t] <= |vars| && chosen[t] <= |sets| && vars[chosen[t] - 1] >= 0.5;
    forall e ensures e in CoveredBy(sets, chosen) <==>
      exists k :: 0 <= k < |vars| && vars[k] >= 0.5 && e in sets[k]
    {
      if e in CoveredBy(sets, chosen) {
        var k := CoveredOnlyChosen(vars, sets, chosen, e);
      }
      if exists k :: 0 <= k < |vars| && vars[k] >= 0.5 && e in sets[k] {
        var k :| 0 <= k < |vars| && vars[k] >= 0.5 && e in sets[k];
        ChosenAreCovered(vars, sets, e, k);
      }
    }
  }

  /** The derived part of `log_results` / `present_results`: the chosen positions are those with
      value at least 0.5, in increasing order; `covered` is what the chosen subsets hold, a part of
      the universe; the coverage is `|covered| / |universe| * 100`, 0 for an empty universe, and
      100 exactly when everything is covered. */
  function Summarize(out: SolveOutput, inst: Instance): (s: Summary)
    requires ChosenInRange(out.variables, |inst.sets|)
    ensures s.universe == Union(inst.sets)
    ensures forall k :: 0 <= k < |out.variables| ==> (k + 1 in s.chosen <==> out.variables[k] >= 0.5)
    ensures forall t :: 0 <= t < |s.chosen| ==>
      1 <= s.chosen[t] <= |out.variables| && out.variables[s.chosen[t] - 1] >= 0.5
    ensures forall a, b :: 0 <= a < b < |s.chosen| ==> s.chosen[a] < s.chosen[b]
    ensures forall e :: e in s.covered <==>
      exists k :: 0 <= k < |out.variables| && out.variables[k] >= 0.5 && e in inst.sets[k]
    ensures s.covered <= s.universe && |s.covered| <= |s.universe|
    ensures 0.0 <= s.coveragePct <= 100.0
    ensures s.universe == {} ==> s.coveragePct == 0.0
    ensures s.coveragePct == CoveragePct(|s.covered|, |s.universe|)
    ensures |s.universe| > 0 ==> (s.coveragePct == 100.0 <==> s.covered == s.universe)
  {
    CoveredMeaning(out.variables, inst.sets);
    ChosenMembers(out.variables);
    var chosen := Chosen(out.variables);
    var universe := Union(inst.sets);
    var covered := CoveredBy(inst.sets, chosen);
    SubsetCard(covered, universe);
    var pct := CoveragePct(|covered|, |universe|);
    assert |covered| == |universe| <==> covered == universe;
    Summary(chosen, covered, universe, pct)
  }

  /** When each element of the universe lies in some selected subset, the summary reports the
      whole universe as covered. */
  lemma {:induction false} FullCoverageSummary(out: SolveOutput, inst: Instance)
    requires ChosenInRange(out.variables, |inst.sets|)
    requires forall e :: e in Union(inst.sets) ==>
      exists k :: 0 <= k < |out.variables| && out.variables[k] >= 0.5 && e in inst.sets[k]
    ensures Summarize(out, inst).covered == Union(inst.sets)
    ensures Union(inst.sets) != {} ==> Summarize(out, inst).coveragePct == 100.0
  {
    var s := Summarize(out, inst);
    assert s.covered == s.universe by {
      forall e | e in s.universe ensures e in s.covered {
        var k :| 0 <= k < |out.variables| && out.variables[k] >= 0.5 && e in inst.sets[k];
      }
    }
    assert s.coveragePct == CoveragePct(|s.covered|, |s.universe|);
  }

  /** A feasible solution of the built program, once reported, covers the whole universe: the
      summary's covered set is the universe and the coverage is 100% (when there is anything to
      cover). The chosen positions are exactly the subsets whose `x` is 1. The file may declare
      more subsets than variables; the extra ones are empty, as `Buildable` demands. */
  lemma {:induction false} FeasibleSolutionFullCoverage(inst: Instance, order: seq<int>, attrs: SolverAttributes, val: Valuation)
    requires Buildable(inst) && |inst.sets| >= inst.n
    requires IsEnumeration(order, Union(inst.sets))
    requires Feasible(BuiltModel(inst, order), val)
    ensures ChosenInRange(SolveOutputOf(BuiltModel(inst, order), attrs, val).variables, |inst.sets|)
    ensures forall i :: 1 <= i <= inst.n ==>
      (i in Summarize(SolveOutputOf(BuiltModel(inst, order), attrs, val), inst).chosen <==> val(X(i)) == 1.0)
    ensures Summarize(SolveOutputOf(BuiltModel(inst, order), attrs, val), inst).covered == Union(inst.sets)
    ensures Union(inst.sets) != {} ==> Summarize(SolveOutputOf(BuiltModel(inst, order), attrs, val), inst).coveragePct == 100.0
  {
    var m := BuiltModel(inst, order);
    var out := SolveOutputOf(m, attrs, val);
    var xs := out.variables;
    assert xs == XValues(inst.n, val);
    assert |xs| <= |inst.sets|;
    assert ChosenInRange(xs, |inst.sets|);
    var chosen := Summarize(out, inst).chosen;
    forall i | 1 <= i <= inst.n ensures i in chosen <==> val(X(i)) == 1.0 {
      assert xs[i - 1] == val(X(i));
      assert Binary(val(X(i)));
    }
    FeasibleCoversUniverse(inst, order, val);
    forall e | e in Union(inst.sets)
      ensures exists k :: 0 <= k < |xs| && xs[k] >= 0.5 && e in inst.sets[k]
    {
      var k :| 0 <= k < |inst.sets| && e in inst.sets[k] && val(X(k + 1)) == 1.0;
      assert inst.sets[k] != {};
      assert xs[k] == val(X(k + 1));
    }
    FullCoverageSummary(out, inst);
  }

  // ---------------------------------------------------------------------------------------------
  // `sum_coeff`

  /** `sum(element for row in A for element in row)` */
  function SumCoeff(a: seq<seq<real>>): real
  {
    if a == [] then 0.0 else Sum(a[0]) + SumCoeff(a[1..])
  }

  /** Every variable at 1. */
  function AllOnes(): Valuation
  {
    (v: Var) => 1.0
  }

  lemma {:induction false} ObjectiveTermsAppend(a: seq<seq<real>>, ps: seq<(int, int)>, qs: seq<(int, int)>)
    requires Indexes(a, ps) && Indexes(a, qs)
    ensures Indexes(a, ps + qs)
    ensures ObjectiveTerms(a, ps + qs) == ObjectiveTerms(a, ps) + ObjectiveTerms(a, qs)
  {
    var all := ps + qs;
    ObjectiveTermsAt(a, ps);
    ObjectiveTermsAt(a, qs);
    ObjectiveTermsAt(a, all);
    var l := ObjectiveTerms(a, all);
    var r := ObjectiveTerms(a, ps) + ObjectiveTerms(a, qs);
    assert |l| == |r|;
    forall t | 0 <= t < |l| ensures l[t] == r[t] {
      if t < |ps| {
        assert all[t] == ps[t];
      } else {
        assert all[t] == qs[t - |ps|];
      }
    }
  }

  /** At the all-ones point the first pair contributes its coefficient. */
  lemma ObjectiveConsAllOnes(a: seq<seq<real>>, p: (int, int), rest: seq<(int, int)>)
    requires Indexes(a, [p] + rest)
    ensures Indexes(a, rest)
    ensures EvalTerms(ObjectiveTerms(a, [p] + rest), AllOnes())
      == a[p.0 - 1][p.1 - 1] + EvalTerms(ObjectiveTerms(a, rest), AllOnes())
  {
    var ps := [p] + rest;
    assert ps[0] == p && ps[1..] == rest;
  }

  /** The objective terms of row `i` from column `j0` on, all at 1, add up that part of the row. */
  lemma {:induction false} RowObjectiveAllOnes(a: seq<seq<real>>, n: int, i: int, j0: int)
    requires IsSquare(a, n) && 1 <= i <= n && 1 <= j0 <= n + 1
    ensures Indexes(a, RowPairs(i, j0, n))
    ensures EvalTerms(ObjectiveTerms(a, RowPairs(i, j0, n)), AllOnes()) == Sum(a[i - 1][j0 - 1..])
    decreases n - j0
  {
    var row := a[i - 1];
    var ps := RowPairs(i, j0, n);
    if j0 <= n {
      var rest := RowPairs(i, j0 + 1, n);
      RowObjectiveAllOnes(a, n, i, j0 + 1);
      assert ps == [(i, j0)] + rest;
      ObjectiveConsAllOnes(a, (i, j0), rest);
      assert row[j0 - 1..][1..] == row[j0..];
    } else {
      assert row[j0 - 1..] == [];
    }
  }

  /** Row `i` of an upper-triangular matrix sums to its part from the diagonal on. */
  lemma {:induction false} RowFromDiagonal(a: seq<seq<real>>, n: int, i: int)
    requires UpperTriangular(a, n) && 1 <= i <= n
    ensures Sum(a[i - 1]) == Sum(a[i - 1][i - 1..])
  {
    var r := a[i - 1];
    assert r == r[..i - 1] + r[i - 1..];
    SumAppend(r[..i - 1], r[i - 1..]);
    SumZeros(r[..i - 1]);
  }

  lemma {:induction false} PairsFromAllOnes(a: seq<seq<real>>, n: int, i: int)
    requires UpperTriangular(a, n) && 1 <= i <= n + 1
    ensures Indexes(a, PairsFrom(i, n))
    ensures EvalTerms(ObjectiveTerms(a, PairsFrom(i, n)), AllOnes()) == SumCoeff(a[i - 1..])
    decreases n - i
  {
    if i <= n {
      var row := RowPairs(i, i, n);
      var rest := PairsFrom(i + 1, n);
      assert PairsFrom(i, n) == row + rest;
      RowObjectiveAllOnes(a, n, i, i);
      PairsFromAllOnes(a, n, i + 1);
      ObjectiveTermsAppend(a, row, rest);
      EvalTermsAppend(ObjectiveTerms(a, row), ObjectiveTerms(a, rest), AllOnes());
      RowFromDiagonal(a, n, i);
      assert SumCoeff(a[i - 1..]) == Sum(a[i - 1]) + SumCoeff(a[i..]) by {
        assert a[i - 1..][1..] == a[i..];
      }
    } else {
      assert a[i - 1..] == [];
    }
  }

  /** For an upper-triangular matrix, `sum_coeff` is the objective with every set selected, in
      both the linearized and the quadratic model. */
  lemma {:induction false} SumCoeffIsAllSelectedObjective(inst: Instance)
    requires UpperTriangular(inst.a, inst.n)
    ensures AtLeastSquare(inst.a, inst.n)
    ensures SumCoeff(inst.a) == Eval(Objective(inst.a, inst.n), AllOnes())
    ensures SumCoeff(inst.a) == EvalQuad(CreateQbfModel(inst).objective, AllOnes())
  {
    PairsFromAllOnes(inst.a, inst.n, 1);
    assert inst.a[0..] == inst.a;
    LinearizedEqualsQuadratic(inst, AllOnes());
  }
}
