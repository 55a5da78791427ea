/** `create_model_from_instance` and `create_qbf_model_from_instance`: from an instance to the
    linearized 0/1 program, and the quadratic objective it linearizes. */
module ModelBuilder {
  import opened Common
  import opened QbfInstance
  import opened LinearProgram

  // ---------------------------------------------------------------------------------------------
  // Index pairs `[(i, j) for i in I for j in I if i <= j]`

  /** Lexicographic order on index pairs. */
  predicate LexLess(p: (int, int), q: (int, int))
  {
    p.0 < q.0 || (p.0 == q.0 && p.1 < q.1)
  }

  /** The pairs `(i, j)` for `j` from `j0` up to `n`. */
  function RowPairs(i: int, j0: int, n: int): (ps: seq<(int, int)>)
    ensures forall p :: p in ps <==> p.0 == i && j0 <= p.1 <= n
    ensures |ps| == if j0 > n then 0 else n - j0 + 1
    decreases n - j0
  {
    if j0 > n then [] else [(i, j0)] + RowPairs(i, j0 + 1, n)
  }

  /** The pairs with first index `i` or more, row by row. */
  function PairsFrom(i: int, n: int): (ps: seq<(int, int)>)
    requires i >= 1
    ensures forall p :: p in ps <==> i <= p.0 <= p.1 <= n
    decreases n - i
  {
    if i > n then [] else RowPairs(i, i, n) + PairsFrom(i + 1, n)
  }

  /** `model.IJs` */
  function Pairs(n: int): (ps: seq<(int, int)>)
    ensures forall p :: p in ps <==> 1 <= p.0 <= p.1 <= n
  {
    PairsFrom(1, n)
  }

  lemma {:induction false} RowPairsOrdered(i: int, j0: int, n: int)
    ensures forall a, b :: 0 <= a < b < |RowPairs(i, j0, n)| ==> LexLess(RowPairs(i, j0, n)[a], RowPairs(i, j0, n)[b])
    decreases n - j0
  {
    if j0 <= n {
      RowPairsOrdered(i, j0 + 1, n);
      var ps := RowPairs(i, j0, n);
      forall a, b | 0 <= a < b < |ps| ensures LexLess(ps[a], ps[b]) {
        assert ps[b] in RowPairs(i, j0 + 1, n);
        if a > 0 {
          assert ps[a] == RowPairs(i, j0 + 1, n)[a - 1];
          assert ps[b] == RowPairs(i, j0 + 1, n)[b - 1];
        }
      }
    }
  }

  lemma {:induction false} PairsFromOrdered(i: int, n: int)
    requires i >= 1
    ensures forall a, b :: 0 <= a < b < |PairsFrom(i, n)| ==> LexLess(PairsFrom(i, n)[a], PairsFrom(i, n)[b])
    decreases n - i
  {
    if i <= n {
      var row := RowPairs(i, i, n);
      var rest := PairsFrom(i + 1, n);
      var ps := row + rest;
      RowPairsOrdered(i, i, n);
      PairsFromOrdered(i + 1, n);
      forall a, b | 0 <= a < b < |ps| ensures LexLess(ps[a], ps[b]) {
        if b < |row| {
          assert ps[a] == row[a] && ps[b] == row[b];
        } else if a >= |row| {
          assert ps[a] == rest[a - |row|] && ps[b] == rest[b - |row|];
        } else {
          assert ps[a] == row[a] && ps[a] in row;
          assert ps[b] == rest[b - |row|] && ps[b] in rest;
        }
      }
    }
  }

  /** `1 + 2 + ... + k` */
  function TriangleNumber(k: int): int
    decreases k
  {
    if k <= 0 then 0 else k + TriangleNumber(k - 1)
  }

  lemma {:induction false} TriangleClosedForm(k: nat)
    ensures 2 * TriangleNumber(k) == k * (k + 1)
  {
    if k > 0 {
      TriangleClosedForm(k - 1);
      assert 2 * TriangleNumber(k) == 2 * k + (k - 1) * k;
    }
  }

  lemma {:induction false} PairsFromLength(i: int, n: int)
    requires 1 <= i <= n + 1
    ensures |PairsFrom(i, n)| == TriangleNumber(n - i + 1)
    decreases n - i
  {
    if i <= n {
      var row := RowPairs(i, i, n);
      var rest := PairsFrom(i + 1, n);
      assert PairsFrom(i, n) == row + rest;
      PairsFromLength(i + 1, n);
      assert TriangleNumber(n - i + 1) == (n - i + 1) + TriangleNumber(n - i);
    }
  }

  /** The pair list holds each `(i, j)` with `1 <= i <= j <= n`, strictly increasing in
      lexicographic order, `n(n+1)/2` of them. */
  lemma {:induction false} PairsShape(n: int)
    ensures forall a, b :: 0 <= a < b < |Pairs(n)| ==> LexLess(Pairs(n)[a], Pairs(n)[b])
    ensures n >= 0 ==> 2 * |Pairs(n)| == n * (n + 1)
    ensures n <= 0 ==> Pairs(n) == []
  {
    PairsFromOrdered(1, n);
    if n >= 0 {
      PairsFromLength(1, n);
      TriangleClosedForm(n);
    }
  }

  // ---------------------------------------------------------------------------------------------
  // Objective `sum(A[i-1][j-1] * y[i, j] for (i, j) in IJs)`

  /** Every pair indexes an entry `A[i-1][j-1]`. */
  predicate Indexes(a: seq<seq<real>>, ps: seq<(int, int)>)
  {
    forall p :: p in ps ==> 1 <= p.0 <= |a| && 1 <= p.1 <= |a[p.0 - 1]|
  }

  /** `A[i-1][j-1] * y[i, j]` for each pair, in the order of the pairs. */
  function ObjectiveTerms(a: seq<seq<real>>, ps: seq<(int, int)>): seq<Term>
    requires Indexes(a, ps)
  {
    if ps == [] then []
    else [Term(a[ps[0].0 - 1][ps[0].1 - 1], Y(ps[0].0, ps[0].1))] + ObjectiveTerms(a, ps[1..])
  }

  /** One term per pair, in the order of the pairs: `A[i-1][j-1] * y[i, j]` for the pair `(i, j)`. */
  lemma {:induction false} ObjectiveTermsAt(a: seq<seq<real>>, ps: seq<(int, int)>)
    requires Indexes(a, ps)
    ensures |ObjectiveTerms(a, ps)| == |ps|
    ensures forall t :: 0 <= t < |ps| ==>
      ObjectiveTerms(a, ps)[t] == Term(a[ps[t].0 - 1][ps[t].1 - 1], Y(ps[t].0, ps[t].1))
  {
    if ps != [] {
      var rest := ps[1..];
      forall q | q in rest ensures q in ps {
        var t :| 0 <= t < |rest| && rest[t] == q;
        assert ps[t + 1] == q;
      }
      ObjectiveTermsAt(a, rest);
      var ts := ObjectiveTerms(a, ps);
      assert ts[1..] == ObjectiveTerms(a, rest);
      forall t | 0 <= t < |ps| ensures ts[t] == Term(a[ps[t].0 - 1][ps[t].1 - 1], Y(ps[t].0, ps[t].1)) {
        if t > 0 {
          assert ts[t] == ts[1..][t - 1] && ps[t] == rest[t - 1];
        }
      }
    }
  }

  lemma {:induction false} PairsIndexMatrix(a: seq<seq<real>>, n: int)
    requires AtLeastSquare(a, n)
    ensures Indexes(a, Pairs(n))
  {
    forall p | p in Pairs(n) ensures 1 <= p.0 <= |a| && 1 <= p.1 <= |a[p.0 - 1]| {
      assert 0 <= p.0 - 1 < n;
    }
  }

  /** The objective of the linearized program (maximised): no constant, and one term
      `A[i-1][j-1] * y[i, j]` for each pair `(i, j)` of `IJs`, in the order of `IJs`. */
  function Objective(a: seq<seq<real>>, n: int): (o: LinExpr)
    requires AtLeastSquare(a, n)
    ensures o.constant == 0.0 && |o.terms| == |Pairs(n)|
    ensures forall t :: 0 <= t < |Pairs(n)| ==>
      var (i, j) := Pairs(n)[t]; 1 <= i <= j <= n && o.terms[t] == Term(a[i - 1][j - 1], Y(i, j))
  {
    PairsIndexMatrix(a, n);
    ObjectiveTermsAt(a, Pairs(n));
    LinExpr(ObjectiveTerms(a, Pairs(n)), 0.0)
  }

  lemma {:induction false} ObjectiveTermsUpperOnly(a: seq<seq<real>>, b: seq<seq<real>>, ps: seq<(int, int)>)
    requires Indexes(a, ps) && Indexes(b, ps)
    requires forall p :: p in ps ==> a[p.0 - 1][p.1 - 1] == b[p.0 - 1][p.1 - 1]
    ensures ObjectiveTerms(a, ps) == ObjectiveTerms(b, ps)
  {
    if ps != [] {
      assert ps[0] in ps;
      ObjectiveTermsUpperOnly(a, b, ps[1..]);
    }
  }

  /** Entries below the diagonal never reach the objective: two matrices that agree on the upper
      triangle give the same objective, hence the same value under every assignment. */
  lemma {:induction false} ObjectiveIgnoresLowerTriangle(a: seq<seq<real>>, b: seq<seq<real>>, n: int, val: Valuation)
    requires AtLeastSquare(a, n) && AtLeastSquare(b, n)
    requires forall r, c :: 0 <= r <= c < n ==> a[r][c] == b[r][c]
    ensures Objective(a, n) == Objective(b, n)
    ensures Eval(Objective(a, n), val) == Eval(Objective(b, n), val)
  {
    var ps := Pairs(n);
    PairsIndexMatrix(a, n);
    PairsIndexMatrix(b, n);
    forall p | p in ps ensures a[p.0 - 1][p.1 - 1] == b[p.0 - 1][p.1 - 1] {
      var r, c := p.0 - 1, p.1 - 1;
      assert 0 <= r <= c < n;
      assert a[r][c] == b[r][c];
    }
    ObjectiveTermsUpperOnly(a, b, ps);
  }

  // ---------------------------------------------------------------------------------------------
  // The unlinearized model of `create_qbf_model_from_instance`

  /** `coef * x[i] * x[j]` */
  datatype QuadTerm = QuadTerm(coef: real, i: int, j: int)

  /** Binary variables `x[1..n]` and the quadratic objective over the upper triangle. */
  datatype QbfModel = QbfModel(n: int, pairs: seq<(int, int)>, objective: seq<QuadTerm>)

  function QuadTerms(a: seq<seq<real>>, ps: seq<(int, int)>): seq<QuadTerm>
    requires Indexes(a, ps)
  {
    if ps == [] then []
    else [QuadTerm(a[ps[0].0 - 1][ps[0].1 - 1], ps[0].0, ps[0].1)] + QuadTerms(a, ps[1..])
  }

  function EvalQuad(qs: seq<QuadTerm>, val: Valuation): real
  {
    if qs == [] then 0.0 else qs[0].coef * val(X(qs[0].i)) * val(X(qs[0].j)) + EvalQuad(qs[1..], val)
  }

  /** One quadratic term per pair, in the order of the pairs: `A[i-1][j-1] * x[i] * x[j]` for
      the pair `(i, j)`. */
  lemma {:induction false} QuadTermsAt(a: seq<seq<real>>, ps: seq<(int, int)>)
    requires Indexes(a, ps)
    ensures |QuadTerms(a, ps)| == |ps|
    ensures forall t :: 0 <= t < |ps| ==>
      QuadTerms(a, ps)[t] == QuadTerm(a[ps[t].0 - 1][ps[t].1 - 1], ps[t].0, ps[t].1)
  {
    if ps != [] {
      var rest := ps[1..];
      forall q | q in rest ensures q in ps {
        var t :| 0 <= t < |rest| && rest[t] == q;
        assert ps[t + 1] == q;
      }
      QuadTermsAt(a, rest);
      var qs := QuadTerms(a, ps);
      assert qs[1..] == QuadTerms(a, rest);
      forall t | 0 <= t < |ps| ensures qs[t] == QuadTerm(a[ps[t].0 - 1][ps[t].1 - 1], ps[t].0, ps[t].1) {
        if t > 0 {
          assert qs[t] == qs[1..][t - 1] && ps[t] == rest[t - 1];
        }
      }
    }
  }

  /** `create_qbf_model_from_instance`: binary `x[1..n]`, the pairs `IJs`, and the objective with
      one term `A[i-1][j-1] * x[i] * x[j]` per pair, in the order of `IJs`. */
  function CreateQbfModel(inst: Instance): (m: QbfModel)
    requires AtLeastSquare(inst.a, inst.n)
    ensures m.n == inst.n && m.pairs == Pairs(inst.n) && |m.objective| == |Pairs(inst.n)|
    ensures forall t :: 0 <= t < |Pairs(inst.n)| ==>
      var (i, j) := Pairs(inst.n)[t];
      1 <= i <= j <= inst.n && m.objective[t] == QuadTerm(inst.a[i - 1][j - 1], i, j)
  {
    PairsIndexMatrix(inst.a, inst.n);
    QuadTermsAt(inst.a, Pairs(inst.n));
    QbfModel(inst.n, Pairs(inst.n), QuadTerms(inst.a, Pairs(inst.n)))
  }

  /** Logical AND of two 0/1 values. */
  function And(u: real, v: real): real
  {
    if u == 1.0 && v == 1.0 then 1.0 else 0.0
  }

  lemma {:induction false} LinearTermsMatchQuadratic(a: seq<seq<real>>, ps: seq<(int, int)>, val: Valuation)
    requires Indexes(a, ps)
    requires forall p :: p in ps ==> Binary(val(X(p.0))) && Binary(val(X(p.1)))
    requires forall p :: p in ps ==> val(Y(p.0, p.1)) == And(val(X(p.0)), val(X(p.1)))
    ensures EvalTerms(ObjectiveTerms(a, ps), val) == EvalQuad(QuadTerms(a, ps), val)
  {
    if ps != [] {
      var p := ps[0];
      var rest := ps[1..];
      assert p in ps;
      forall q | q in rest ensures q in ps {
        var t :| 0 <= t < |rest| && rest[t] == q;
        assert ps[t + 1] == q;
      }
      LinearTermsMatchQuadratic(a, rest, val);
      var c := a[p.0 - 1][p.1 - 1];
      assert val(Y(p.0, p.1)) == val(X(p.0)) * val(X(p.1));
      assert c * val(Y(p.0, p.1)) == c * val(X(p.0)) * val(X(p.1));
    }
  }

  /** At a binary point with `y[i,j] = x[i] AND x[j]` the linearized objective equals the quadratic
      objective `sum(A[i-1][j-1] * x[i] * x[j])`. */
  lemma {:induction false} LinearizedEqualsQuadratic(inst: Instance, val: Valuation)
    requires AtLeastSquare(inst.a, inst.n)
    requires forall i :: 1 <= i <= inst.n ==> Binary(val(X(i)))
    requires forall p :: p in Pairs(inst.n) ==> val(Y(p.0, p.1)) == And(val(X(p.0)), val(X(p.1)))
    ensures Eval(Objective(inst.a, inst.n), val) == EvalQuad(CreateQbfModel(inst).objective, val)
  {
    PairsIndexMatrix(inst.a, inst.n);
    LinearTermsMatchQuadratic(inst.a, Pairs(inst.n), val);
  }

  // ---------------------------------------------------------------------------------------------
  // Linearization constraints, three per pair

  /** `y[i,j] <= x[i]`, `y[i,j] <= x[j]`, `y[i,j] >= x[i] + x[j] - 1` */
  function Triple(p: (int, int)): seq<Constraint>
  {
    [ Constraint(VarExpr(Y(p.0, p.1)), Le, VarExpr(X(p.0))),
      Constraint(VarExpr(Y(p.0, p.1)), Le, VarExpr(X(p.1))),
      Constraint(VarExpr(Y(p.0, p.1)), Ge, LinExpr([Term(1.0, X(p.0)), Term(1.0, X(p.1))], -1.0)) ]
  }

  /** The contents of `y_constraints` after the loop over `ps`: three constraints per pair, the
      pair's own three, and nothing else. */
  function Linearization(ps: seq<(int, int)>): (cs: seq<Constraint>)
    ensures |cs| == 3 * |ps|
    ensures forall p, c :: p in ps && c in Triple(p) ==> c in cs
    ensures forall c :: c in cs ==> exists p :: p in ps && c in Triple(p)
  {
    if ps == [] then []
    else
      var init := ps[..|ps| - 1];
      var last := ps[|ps| - 1];
      var prev := Linearization(init);
      var cs := prev + Triple(last);
      assert forall p :: p in init ==> p in ps;
      assert forall p :: p in ps ==> p in init || p == last;
      cs
  }

  /** For binary `x[i]`, `x[j]` and `y[i,j]` the three inequalities hold exactly when
      `y[i,j]` is `x[i] AND x[j]`: all four combinations of `x[i]`, `x[j]`. */
  lemma {:induction false} LinearizationForcesAnd(p: (int, int), val: Valuation)
    requires Binary(val(X(p.0))) && Binary(val(X(p.1))) && Binary(val(Y(p.0, p.1)))
    ensures (forall c :: c in Triple(p) ==> Satisfies(val, c)) <==> val(Y(p.0, p.1)) == And(val(X(p.0)), val(X(p.1)))
  {
    var t := Triple(p);
    EvalVarExpr(Y(p.0, p.1), val);
    EvalVarExpr(X(p.0), val);
    EvalVarExpr(X(p.1), val);
    var sum := [Term(1.0, X(p.0)), Term(1.0, X(p.1))];
    assert sum[1..][1..] == [];
    assert Eval(t[2].rhs, val) == val(X(p.0)) + val(X(p.1)) - 1.0;
    assert (forall c :: c in t ==> Satisfies(val, c)) <==> Satisfies(val, t[0]) && Satisfies(val, t[1]) && Satisfies(val, t[2]);
  }

  // ---------------------------------------------------------------------------------------------
  // Set-cover constraints, one per element of the universe

  /** `containing_sets_idx`: the 0-based indices of subsets holding `e`, ascending. That every
      holding subset is listed is `HoldingIsListed`. */
  function Containing(sets: seq<set<int>>, e: int): (ks: seq<int>)
    ensures forall t :: 0 <= t < |ks| ==> 0 <= ks[t] < |sets| && e in sets[ks[t]]
    ensures forall a, b :: 0 <= a < b < |ks| ==> ks[a] < ks[b]
  {
    if sets == [] then []
    else
      var init := sets[..|sets| - 1];
      assert forall k :: 0 <= k < |init| ==> init[k] == sets[k];
      var prev := Containing(init, e);
      prev + (if e in sets[|sets| - 1] then [|sets| - 1] else [])
  }

  /** `sum(model.x[k+1] for k in ks)` */
  function XSum(ks: seq<int>): (ts: seq<Term>)
    ensures |ts| == |ks|
    ensures forall t :: 0 <= t < |ks| ==> ts[t] == Term(1.0, X(ks[t] + 1))
  {
    if ks == [] then [] else [Term(1.0, X(ks[0] + 1))] + XSum(ks[1..])
  }

  /** `sum(x[k+1] for k in containing_sets_idx) >= 1` */
  function CoverConstraint(sets: seq<set<int>>, e: int): Constraint
  {
    Constraint(LinExpr(XSum(Containing(sets, e)), 0.0), Ge, ConstExpr(1.0))
  }

  /** The contents of `set_cover_contraints` after visiting the universe in the order `order`. */
  function CoverConstraints(sets: seq<set<int>>, order: seq<int>): seq<Constraint>
  {
    seq(|order|, t requires 0 <= t < |order| => CoverConstraint(sets, order[t]))
  }

  /** The cover constraint of `e` is `sum >= 1` over terms `1 * x[k+1]`, one for each subset `k`
      holding `e`, in ascending order of `k`. */
  lemma {:induction false} CoverConstraintTerms(sets: seq<set<int>>, e: int)
    ensures CoverConstraint(sets, e).rel == Ge && CoverConstraint(sets, e).rhs == ConstExpr(1.0)
    ensures CoverConstraint(sets, e).lhs.constant == 0.0
    ensures forall t :: 0 <= t < |CoverConstraint(sets, e).lhs.terms| ==>
      CoverConstraint(sets, e).lhs.terms[t].coef == 1.0 && CoverConstraint(sets, e).lhs.terms[t].v.X? &&
      var k := CoverConstraint(sets, e).lhs.terms[t].v.i - 1;
      0 <= k < |sets| && e in sets[k]
    ensures forall k :: 0 <= k < |sets| && e in sets[k] ==> Term(1.0, X(k + 1)) in CoverConstraint(sets, e).lhs.terms
  {
    var ks := Containing(sets, e);
    var ts := XSum(ks);
    assert CoverConstraint(sets, e).lhs.terms == ts;
    CoverTermsSound(sets, e);
    CoverTermsComplete(sets, e, ks);
  }

  lemma {:induction false} CoverTermsSound(sets: seq<set<int>>, e: int)
    ensures forall t :: 0 <= t < |XSum(Containing(sets, e))| ==>
      XSum(Containing(sets, e))[t].coef == 1.0 && XSum(Containing(sets, e))[t].v.X? &&
      0 <= XSum(Containing(sets, e))[t].v.i - 1 < |sets| && e in sets[XSum(Containing(sets, e))[t].v.i - 1]
  {
    var ks := Containing(sets, e);
    var ts := XSum(ks);
    forall t | 0 <= t < |ts| ensures ts[t].coef == 1.0 && ts[t].v.X? && 0 <= ts[t].v.i - 1 < |sets| && e in sets[ts[t].v.i - 1] {
      assert ts[t] == Term(1.0, X(ks[t] + 1));
    }
  }

  lemma {:induction false} CoverTermsComplete(sets: seq<set<int>>, e: int, ks: seq<int>)
    requires ks == Containing(sets, e)
    ensures forall k :: 0 <= k < |sets| && e in sets[k] ==> Term(1.0, X(k + 1)) in XSum(ks)
  {
    var ts := XSum(ks);
    forall k | 0 <= k < |sets| && e in sets[k] ensures Term(1.0, X(k + 1)) in ts {
      var t := HoldingIsListed(sets, e, k);
      assert ts[t] == Term(1.0, X(k + 1));
    }
  }

  /** The cover constraint of `e` has at least one term exactly when `e` is in the universe. */
  lemma {:induction false} CoverConstraintNonEmpty(sets: seq<set<int>>, e: int)
    ensures |CoverConstraint(sets, e).lhs.terms| >= 1 <==> e in Union(sets)
  {
    var ks := Containing(sets, e);
    assert |CoverConstraint(sets, e).lhs.terms| == |ks|;
    if e in Union(sets) {
      var k :| 0 <= k < |sets| && e in sets[k];
      var t := HoldingIsListed(sets, e, k);
    }
    if |ks| >= 1 {
      var k := ks[0];
      assert 0 <= k < |sets| && e in sets[k];
    }
  }

  /** The sum of a non-empty list is its first variable plus the sum of the rest. */
  lemma {:induction false} XSumStep(ks: seq<int>, val: Valuation)
    requires ks != []
    ensures EvalTerms(XSum(ks), val) == val(X(ks[0] + 1)) + EvalTerms(XSum(ks[1..]), val)
  {
    assert XSum(ks)[1..] == XSum(ks[1..]);
    assert XSum(ks)[0] == Term(1.0, X(ks[0] + 1));
  }

  /** The value of `sum(x[k+1] for k in ks)` with 0/1 variables reaches 1 exactly when one of
      them is 1; it is never negative. */
  lemma {:induction false} XSumReachesOne(ks: seq<int>, val: Valuation)
    requires forall t :: 0 <= t < |ks| ==> Binary(val(X(ks[t] + 1)))
    ensures EvalTerms(XSum(ks), val) >= 0.0
    ensures EvalTerms(XSum(ks), val) >= 1.0 <==> exists t :: 0 <= t < |ks| && val(X(ks[t] + 1)) == 1.0
  {
    if ks != [] {
      var rest := ks[1..];
      assert forall t :: 0 <= t < |rest| ==> rest[t] == ks[t + 1];
      XSumReachesOne(rest, val);
      XSumStep(ks, val);
      if val(X(ks[0] + 1)) == 0.0 {
        if exists t :: 0 <= t < |ks| && val(X(ks[t] + 1)) == 1.0 {
          var t :| 0 <= t < |ks| && val(X(ks[t] + 1)) == 1.0;
          assert rest[t - 1] == ks[t];
        }
        if exists t :: 0 <= t < |rest| && val(X(rest[t] + 1)) == 1.0 {
          var t :| 0 <= t < |rest| && val(X(rest[t] + 1)) == 1.0;
          assert ks[t + 1] == rest[t];
        }
      }
    }
  }

  lemma {:induction false} CoverConstraintValue(sets: seq<set<int>>, e: int, val: Valuation)
    ensures Satisfies(val, CoverConstraint(sets, e)) <==> EvalTerms(XSum(Containing(sets, e)), val) >= 1.0
  {
    var c := CoverConstraint(sets, e);
    assert Eval(c.rhs, val) == 1.0;
    assert Eval(c.lhs, val) == EvalTerms(XSum(Containing(sets, e)), val);
  }

  /** With 0/1 selection variables, the cover constraint of `e` holds exactly when some
      selected subset holds `e`. */
  lemma {:induction false} CoverConstraintMeaning(sets: seq<set<int>>, e: int, val: Valuation)
    requires forall k :: 0 <= k < |sets| && e in sets[k] ==> Binary(val(X(k + 1)))
    ensures Satisfies(val, CoverConstraint(sets, e)) <==>
      exists k :: 0 <= k < |sets| && e in sets[k] && val(X(k + 1)) == 1.0
  {
    var ks := Containing(sets, e);
    assert forall t :: 0 <= t < |ks| ==> Binary(val(X(ks[t] + 1)));
    XSumReachesOne(ks, val);
    CoverConstraintValue(sets, e, val);
    ContainingSelected(sets, e, val, ks);
  }

  /** Some listed index names a selected subset exactly when some selected subset holds `e`. */
  lemma {:induction false} ContainingSelected(sets: seq<set<int>>, e: int, val: Valuation, ks: seq<int>)
    requires ks == Containing(sets, e)
    ensures (exists t :: 0 <= t < |ks| && val(X(ks[t] + 1)) == 1.0) <==>
      exists k :: 0 <= k < |sets| && e in sets[k] && val(X(k + 1)) == 1.0
  {
    if t :| 0 <= t < |ks| && val(X(ks[t] + 1)) == 1.0 {
      assert 0 <= ks[t] < |sets| && e in sets[ks[t]] && val(X(ks[t] + 1)) == 1.0;
    }
    if k :| 0 <= k < |sets| && e in sets[k] && val(X(k + 1)) == 1.0 {
      var t := HoldingIsListed(sets, e, k);
      assert 0 <= t < |ks| && val(X(ks[t] + 1)) == 1.0;
    }
  }

  /** Every subset holding `e` is listed, at some position `t`. */
  lemma {:induction false} HoldingIsListed(sets: seq<set<int>>, e: int, k: int) returns (t: int)
    requires 0 <= k < |sets| && e in sets[k]
    ensures 0 <= t < |Containing(sets, e)| && Containing(sets, e)[t] == k
  {
    var init := sets[..|sets| - 1];
    assert forall j :: 0 <= j < |init| ==> init[j] == sets[j];
    var prev := Containing(init, e);
    assert Containing(sets, e) == prev + (if e in sets[|sets| - 1] then [|sets| - 1] else []);
    if k == |sets| - 1 {
      t := |prev|;
    } else {
      t := HoldingIsListed(init, e, k);
    }
  }

  // ---------------------------------------------------------------------------------------------
  // The whole program

  /** What `create_model_from_instance` needs of its argument: `set.union(*sets)` needs at least
      one subset; `x[k+1]` is only read for a subset `k` that holds some element, so every subset
      past the `n`-th must be empty; and `A[i-1][j-1]` must exist for `i <= j <= n`. */
  predicate Buildable(inst: Instance)
  {
    && 1 <= |inst.sets|
    && (forall k :: 0 <= k < |inst.sets| && inst.sets[k] != {} ==> k < inst.n)
    && AtLeastSquare(inst.a, inst.n)
  }

  /** The program built from `inst` when the universe is visited in the order `order`. */
  function BuiltModel(inst: Instance, order: seq<int>): MipModel
    requires Buildable(inst)
  {
    MipModel(inst.n, Pairs(inst.n), Objective(inst.a, inst.n), Linearization(Pairs(inst.n)),
             CoverConstraints(inst.sets, order))
  }

  /** The inner loop of the set-cover part: the subsets holding `element`, by index. */
  method CollectContaining(sets: seq<set<int>>, element: int) returns (containing: seq<int>)
    ensures containing == Containing(sets, element)
  {
    containing := [];
    for k := 0 to |sets|
      invariant containing == Containing(sets[..k], element)
    {
      assert sets[..k + 1][..k] == sets[..k];
      if element in sets[k] {
        containing := containing + [k];
      }
    }
    assert sets[..|sets|] == sets;
  }

  /** The linearization loop: three constraints appended per pair. */
  method AddLinearization(pairs: seq<(int, int)>) returns (yConstraints: seq<Constraint>)
    ensures yConstraints == Linearization(pairs)
  {
    yConstraints := [];
    for k := 0 to |pairs|
      invariant yConstraints == Linearization(pairs[..k])
    {
      assert pairs[..k + 1][..k] == pairs[..k];
      yConstraints := yConstraints + Triple(pairs[k]);
    }
    assert pairs[..|pairs|] == pairs;
  }

  /** The set-cover loop: one constraint per element, visited in the order `order`. */
  method AddCoverConstraints(sets: seq<set<int>>, order: seq<int>) returns (coverConstraints: seq<Constraint>)
    ensures coverConstraints == CoverConstraints(sets, order)
  {
    coverConstraints := [];
    for t := 0 to |order|
      invariant |coverConstraints| == t
      invariant forall s :: 0 <= s < t ==> coverConstraints[s] == CoverConstraint(sets, order[s])
    {
      var containing := CollectContaining(sets, order[t]);
      coverConstraints := coverConstraints + [Constraint(LinExpr(XSum(containing), 0.0), Ge, ConstExpr(1.0))];
    }
  }

  /** `create_model_from_instance`. Python visits the universe in its set iteration order, which
      is not specified; `order` is that order. */
  method CreateModel(inst: Instance, order: seq<int>) returns (m: MipModel)
    requires Buildable(inst)
    requires IsEnumeration(order, Union(inst.sets))
    ensures m == BuiltModel(inst, order)
  {
    var pairs := Pairs(inst.n);
    var objective := Objective(inst.a, inst.n);
    var yConstraints := AddLinearization(pairs);
    var coverConstraints := AddCoverConstraints(inst.sets, order);
    m := MipModel(inst.n, pairs, objective, yConstraints, coverConstraints);
  }

  // ---------------------------------------------------------------------------------------------
  // Properties of the built program

  /** One set-cover constraint per distinct element of the universe; none when it is empty. */
  lemma {:induction false} CoverConstraintCount(inst: Instance, order: seq<int>)
    requires Buildable(inst)
    requires IsEnumeration(order, Union(inst.sets))
    ensures |BuiltModel(inst, order).coverConstraints| == |Union(inst.sets)|
    ensures Union(inst.sets) == {} ==> BuiltModel(inst, order).coverConstraints == []
    ensures forall e :: e in Union(inst.sets) ==> CoverConstraint(inst.sets, e) in BuiltModel(inst, order).coverConstraints
  {
    EnumerationLength(order, Union(inst.sets));
    var cs := BuiltModel(inst, order).coverConstraints;
    forall e | e in Union(inst.sets) ensures CoverConstraint(inst.sets, e) in cs {
      assert e in SetOf(order);
      var t :| 0 <= t < |order| && order[t] == e;
      assert cs[t] == CoverConstraint(inst.sets, e);
    }
  }

  /** At every integer-feasible point `y[i,j]` is `x[i] AND x[j]`. */
  lemma {:induction false} FeasibleYIsAnd(inst: Instance, order: seq<int>, val: Valuation)
    requires Buildable(inst)
    requires Feasible(BuiltModel(inst, order), val)
    ensures forall p :: p in Pairs(inst.n) ==> val(Y(p.0, p.1)) == And(val(X(p.0)), val(X(p.1)))
  {
    var m := BuiltModel(inst, order);
    var ps := Pairs(inst.n);
    var cs := m.yConstraints;
    forall p | p in ps ensures val(Y(p.0, p.1)) == And(val(X(p.0)), val(X(p.1))) {
      forall c | c in Triple(p) ensures Satisfies(val, c) {
        assert c in cs;
      }
      LinearizationForcesAnd(p, val);
    }
  }

  /** At every integer-feasible point the program's objective is the quadratic objective. */
  lemma {:induction false} FeasibleObjectiveIsQuadratic(inst: Instance, order: seq<int>, val: Valuation)
    requires Buildable(inst)
    requires Feasible(BuiltModel(inst, order), val)
    ensures Eval(BuiltModel(inst, order).objective, val) == EvalQuad(CreateQbfModel(inst).objective, val)
  {
    FeasibleYIsAnd(inst, order, val);
    LinearizedEqualsQuadratic(inst, val);
  }

  /** At every integer-feasible point each element of the universe lies in a selected subset. */
  lemma {:induction false} FeasibleCoversUniverse(inst: Instance, order: seq<int>, val: Valuation)
    requires Buildable(inst)
    requires IsEnumeration(order, Union(inst.sets))
    requires Feasible(BuiltModel(inst, order), val)
    ensures forall e :: e in Union(inst.sets) ==>
      exists k :: 0 <= k < |inst.sets| && e in inst.sets[k] && val(X(k + 1)) == 1.0
  {
    CoverConstraintCount(inst, order);
    forall e | e in Union(inst.sets)
      ensures exists k :: 0 <= k < |inst.sets| && e in inst.sets[k] && val(X(k + 1)) == 1.0
    {
      forall k | 0 <= k < |inst.sets| && e in inst.sets[k] ensures Binary(val(X(k + 1))) {
        assert inst.sets[k] != {};
      }
      assert Satisfies(val, CoverConstraint(inst.sets, e));
      CoverConstraintMeaning(inst.sets, e, val);
    }
  }

  /** Conversely, a 0/1 point meeting the linearization constraints and selecting, for each
      element of the universe, some subset that holds it, is feasible. */
  lemma {:induction false} CoveringPointIsFeasible(inst: Instance, order: seq<int>, val: Valuation)
    requires Buildable(inst)
    requires IsEnumeration(order, Union(inst.sets))
    requires BinaryOn(BuiltModel(inst, order), val)
    requires forall c :: c in BuiltModel(inst, order).yConstraints ==> Satisfies(val, c)
    requires forall e :: e in Union(inst.sets) ==>
      exists k :: 0 <= k < |inst.sets| && e in inst.sets[k] && val(X(k + 1)) == 1.0
    ensures Feasible(BuiltModel(inst, order), val)
  {
    var sets := inst.sets;
    var cs := BuiltModel(inst, order).coverConstraints;
    assert cs == CoverConstraints(sets, order);
    forall t | 0 <= t < |order| ensures Satisfies(val, cs[t]) {
      var e := order[t];
      assert e in Union(sets) by {
        assert e in SetOf(order);
      }
      assert forall k :: 0 <= k < |sets| && e in sets[k] ==> Binary(val(X(k + 1)));
      CoverConstraintMeaning(sets, e, val);
      assert cs[t] == CoverConstraint(sets, e);
    }
    forall c | c in cs ensures Satisfies(val, c) {
      var t :| 0 <= t < |cs| && cs[t] == c;
    }
  }

  /** An element held by subset `k` alone forces `x[k+1] = 1` at every feasible point. */
  lemma {:induction false} UniqueCoverForcesSelection(inst: Instance, order: seq<int>, val: Valuation, e: int, k: int)
    requires Buildable(inst)
    requires IsEnumeration(order, Union(inst.sets))
    requires 0 <= k < |inst.sets| && e in inst.sets[k]
    requires forall k' :: 0 <= k' < |inst.sets| && k' != k ==> e !in inst.sets[k']
    requires Feasible(BuiltModel(inst, order), val)
    ensures val(X(k + 1)) == 1.0
  {
    assert e in Union(inst.sets);
    FeasibleCoversUniverse(inst, order, val);
  }
}
