/** A plain-value stand-in for the linear 0/1 program the builder hands to the solver:
    variables, linear expressions, constraints, and what it means for a valuation to satisfy them. */
module LinearProgram {

  /** `x[i]` selects subset `i` (1-based); `y[i,j]` stands for the product `x[i] * x[j]`. */
  datatype Var = X(i: int) | Y(i: int, j: int)

  /** `coef * v` */
  datatype Term = Term(coef: real, v: Var)

  /** `terms[0] + terms[1] + ... + constant` */
  datatype LinExpr = LinExpr(terms: seq<Term>, constant: real)

  datatype Rel = Le | Ge

  /** `lhs <= rhs` or `lhs >= rhs` */
  datatype Constraint = Constraint(lhs: LinExpr, rel: Rel, rhs: LinExpr)

  /** The program `create_model_from_instance` builds: binary `x[1..n]`, binary `y[i,j]` for each
      pair in `pairs`, an objective to maximise, the linearization constraints and the
      set-cover constraints, each list in the order it was filled. */
  datatype MipModel = MipModel(
    n: int,
    pairs: seq<(int, int)>,
    objective: LinExpr,
    yConstraints: seq<Constraint>,
    coverConstraints: seq<Constraint>)

  /** A value for every variable (what the solver loads back into the model). */
  type Valuation = Var -> real

  function EvalTerms(ts: seq<Term>, val: Valuation): real
  {
    if ts == [] then 0.0 else ts[0].coef * val(ts[0].v) + EvalTerms(ts[1..], val)
  }

  function Eval(e: LinExpr, val: Valuation): real
  {
    EvalTerms(e.terms, val) + e.constant
  }

  predicate Satisfies(val: Valuation, c: Constraint)
  {
    match c.rel
    case Le => Eval(c.lhs, val) <= Eval(c.rhs, val)
    case Ge => Eval(c.lhs, val) >= Eval(c.rhs, val)
  }

  /** The expression consisting of one variable. */
  function VarExpr(v: Var): LinExpr
  {
    LinExpr([Term(1.0, v)], 0.0)
  }

  /** A constant expression. */
  function ConstExpr(c: real): LinExpr
  {
    LinExpr([], c)
  }

  /** The domain `pyo.Binary`. */
  predicate Binary(r: real)
  {
    r == 0.0 || r == 1.0
  }

  /** Every variable of `m` takes a 0/1 value. */
  predicate BinaryOn(m: MipModel, val: Valuation)
  {
    && (forall i :: 1 <= i <= m.n ==> Binary(val(X(i))))
    && (forall p :: p in m.pairs ==> Binary(val(Y(p.0, p.1))))
  }

  /** `val` is an integer-feasible point of `m`. */
  predicate Feasible(m: MipModel, val: Valuation)
  {
    && BinaryOn(m, val)
    && (forall c :: c in m.yConstraints ==> Satisfies(val, c))
    && (forall c :: c in m.coverConstraints ==> Satisfies(val, c))
  }

  /** A one-variable expression evaluates to that variable's value. */
  lemma {:induction false} EvalVarExpr(v: Var, val: Valuation)
    ensures Eval(VarExpr(v), val) == val(v)
  {
    var ts := VarExpr(v).terms;
    assert ts[1..] == [];
    assert EvalTerms(ts, val) == 1.0 * val(v) + EvalTerms([], val);
  }

  /** Evaluating a concatenation adds the two values. */
  lemma {:induction false} EvalTermsAppend(a: seq<Term>, b: seq<Term>, val: Valuation)
    ensures EvalTerms(a + b, val) == EvalTerms(a, val) + EvalTerms(b, val)
  {
    if a == [] {
      assert a + b == b;
    } else {
      assert (a + b)[1..] == a[1..] + b;
      EvalTermsAppend(a[1..], b, val);
    }
  }
}
