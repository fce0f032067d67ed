/** A plain linear program: the objects the model builders hand to an LP/MILP
    solver, and what it means for a vector of values to satisfy one.
    Variables are numbered densely from 0; a value vector gives one real
    per variable. */
module LinearProgram {
  import opened Wrappers

  /** The term `coef * x[index]` of a linear expression. */
  datatype Term = Term(index: nat, coef: int)

  type LinExpr = seq<Term>

  /** `>=` and `<=`, the two relations the builders use. */
  datatype Relation = AtLeast | AtMost

  datatype Constraint = Constraint(lhs: LinExpr, rel: Relation, rhs: int)

  datatype Category = Binary | Continuous

  /** A variable with a lower bound, an optional upper bound and a category. */
  datatype Variable = Variable(lower: int, upper: Option<int>, category: Category)

  datatype Sense = Minimize | Maximize

  datatype Program = Program(
    sense: Sense,
    variables: seq<Variable>,
    objective: LinExpr,
    constraints: seq<Constraint>)

  /** The value of variable `k`; a variable the vector does not reach reads as 0. */
  function Val(x: seq<real>, k: nat): real
  {
    if k < |x| then x[k] else 0.0
  }

  /** `c * v` for an integer coefficient `c`, written as repeated addition:
      sums of such terms then stay linear for the verifier, and
      `ScaleIsProduct` recovers the product where it is needed. */
  function Scale(c: int, v: real): real
    decreases if c < 0 then -c else c
  {
    if c == 0 then 0.0 else if c > 0 then Scale(c - 1, v) + v else Scale(c + 1, v) - v
  }

  /** The value of a linear expression under `x`. */
  function Eval(e: LinExpr, x: seq<real>): real
  {
    if |e| == 0 then 0.0
    else Eval(e[..|e| - 1], x) + Scale(e[|e| - 1].coef, Val(x, e[|e| - 1].index))
  }

  predicate Holds(c: Constraint, x: seq<real>)
  {
    match c.rel
    case AtLeast => Eval(c.lhs, x) >= c.rhs as real
    case AtMost => Eval(c.lhs, x) <= c.rhs as real
  }

  /** Every constraint of `cs` holds, checked from the last one back. */
  predicate AllHold(cs: seq<Constraint>, x: seq<real>)
  {
    |cs| == 0 || (AllHold(cs[..|cs| - 1], x) && Holds(cs[|cs| - 1], x))
  }

  /** Whether `value` lies in the domain of variable `v`. */
  predicate Admits(v: Variable, value: real)
  {
    && v.lower as real <= value
    && (v.upper.Some? ==> value <= v.upper.value as real)
    && (v.category == Binary ==> value == 0.0 || value == 1.0)
  }

  /** `x` gives every variable of `p` a value in its domain and satisfies every constraint. */
  predicate Feasible(p: Program, x: seq<real>)
  {
    && |x| == |p.variables|
    && (forall k :: 0 <= k < |x| ==> Admits(p.variables[k], x[k]))
    && AllHold(p.constraints, x)
  }

  function ObjectiveValue(p: Program, x: seq<real>): real
  {
    Eval(p.objective, x)
  }

  /** Every term of `e` names one of the first `count` variables. */
  predicate RefersWithin(e: LinExpr, count: nat)
  {
    forall k :: 0 <= k < |e| ==> e[k].index < count
  }

  /** Objective and constraints only mention declared variables. */
  predicate WellFormed(p: Program)
  {
    && RefersWithin(p.objective, |p.variables|)
    && forall c :: 0 <= c < |p.constraints| ==> RefersWithin(p.constraints[c].lhs, |p.variables|)
  }

  /** Where row `i` starts in a grid of rows of width `n`: `i*n`, written as
      repeated addition so that index arithmetic stays linear. */
  function Offset(i: nat, n: nat): nat
  {
    if i == 0 then 0 else Offset(i - 1, n) + n
  }

  // Reference sums, written independently of the term lists above.

  /** `c[0]*x[base] + c[1]*x[base+1] + ... + c[n-1]*x[base+n-1]`. */
  function Dot(c: seq<int>, x: seq<real>, base: nat, n: nat): real
    requires n <= |c|
  {
    if n == 0 then 0.0 else Dot(c, x, base, n - 1) + Scale(c[n - 1], Val(x, base + n - 1))
  }

  /** `x[first] + x[first+stride] + ... + x[first+(n-1)*stride]`. */
  function Mass(x: seq<real>, first: nat, stride: nat, n: nat): real
  {
    if n == 0 then 0.0 else Mass(x, first, stride, n - 1) + Val(x, first + Offset(n - 1, stride))
  }

  /** The sum, over `k` consecutive blocks of width `n`, of `Dot(c, x, i*n, n)`. */
  function BlockDot(c: seq<int>, x: seq<real>, n: nat, k: nat): real
    requires k > 0 ==> n <= |c|
  {
    if k == 0 then 0.0 else BlockDot(c, x, n, k - 1) + Dot(c, x, Offset(k - 1, n), n)
  }

  // Term lists as the builders produce them.

  /** The terms `c[j] * x[base + j]` for `j` in `0..n-1`, in that order. */
  function Linear(base: nat, c: seq<int>, n: nat): (e: LinExpr)
    requires n <= |c|
    ensures |e| == n
  {
    if n == 0 then [] else Linear(base, c, n - 1) + [Term(base + n - 1, c[n - 1])]
  }

  /** The terms `coef * x[first + k*stride]` for `k` in `0..n-1`, in that order. */
  function Strided(first: nat, stride: nat, coef: int, n: nat): (e: LinExpr)
    ensures |e| == n
  {
    if n == 0 then [] else Strided(first, stride, coef, n - 1) + [Term(first + Offset(n - 1, stride), coef)]
  }

  /** Term `j` of `Linear` is `c[j] * x[base + j]`. */
  lemma {:induction false} LinearAt(base: nat, c: seq<int>, n: nat)
    requires n <= |c|
    ensures forall j :: 0 <= j < n ==> Linear(base, c, n)[j] == Term(base + j, c[j])
  {
    if n > 0 {
      LinearAt(base, c, n - 1);
    }
  }

  /** Term `k` of `Strided` is `coef * x[first + k*stride]`. */
  lemma {:induction false} StridedAt(first: nat, stride: nat, coef: int, n: nat)
    ensures forall k :: 0 <= k < n ==> Strided(first, stride, coef, n)[k] == Term(first + Offset(k, stride), coef)
  {
    if n > 0 {
      StridedAt(first, stride, coef, n - 1);
    }
  }

  lemma {:induction false} EvalAppend(a: LinExpr, b: LinExpr, x: seq<real>)
    ensures Eval(a + b, x) == Eval(a, x) + Eval(b, x)
    decreases |b|
  {
    if |b| > 0 {
      var b' := b[..|b| - 1];
      assert (a + b)[..|a + b| - 1] == a + b';
      EvalAppend(a, b', x);
    } else {
      assert a + b == a;
    }
  }

  lemma EvalSingle(t: Term, x: seq<real>)
    ensures Eval([t], x) == Scale(t.coef, Val(x, t.index))
  {
    assert [t][..0] == [];
  }

  /** Appending one term adds its contribution. */
  lemma EvalSnoc(e: LinExpr, t: Term, x: seq<real>)
    ensures Eval(e + [t], x) == Eval(e, x) + Scale(t.coef, Val(x, t.index))
  {
    assert (e + [t])[..|e|] == e;
  }

  /** The term list of `Linear` evaluates to the reference sum `Dot`. */
  lemma {:induction false} EvalLinear(base: nat, c: seq<int>, n: nat, x: seq<real>)
    requires n <= |c|
    ensures Eval(Linear(base, c, n), x) == Dot(c, x, base, n)
  {
    if n > 0 {
      EvalLinear(base, c, n - 1, x);
      EvalSnoc(Linear(base, c, n - 1), Term(base + n - 1, c[n - 1]), x);
    }
  }

  /** A run of `+1` terms evaluates to the reference sum `Mass`. */
  lemma {:induction false} EvalStridedPlus(first: nat, stride: nat, n: nat, x: seq<real>)
    ensures Eval(Strided(first, stride, 1, n), x) == Mass(x, first, stride, n)
  {
    if n > 0 {
      EvalStridedPlus(first, stride, n - 1, x);
      EvalSnocSigned(Strided(first, stride, 1, n - 1), first + Offset(n - 1, stride), 1, x);
    }
  }

  /** A run of `-1` terms evaluates to minus the reference sum `Mass`. */
  lemma {:induction false} EvalStridedMinus(first: nat, stride: nat, n: nat, x: seq<real>)
    ensures Eval(Strided(first, stride, -1, n), x) == -Mass(x, first, stride, n)
  {
    if n > 0 {
      EvalStridedMinus(first, stride, n - 1, x);
      EvalSnocSigned(Strided(first, stride, -1, n - 1), first + Offset(n - 1, stride), -1, x);
    }
  }

  /** Appending a `+1` or `-1` term adds or subtracts its variable. */
  lemma EvalSnocSigned(e: LinExpr, index: nat, sign: int, x: seq<real>)
    requires sign == 1 || sign == -1
    ensures sign == 1 ==> Eval(e + [Term(index, sign)], x) == Eval(e, x) + Val(x, index)
    ensures sign == -1 ==> Eval(e + [Term(index, sign)], x) == Eval(e, x) - Val(x, index)
  {
    EvalSnoc(e, Term(index, sign), x);
  }

  /** `Scale` is the product it stands for. */
  lemma {:induction false} ScaleIsProduct(c: int, v: real)
    ensures Scale(c, v) == c as real * v
    decreases if c < 0 then -c else c
  {
    if c > 0 {
      ScaleIsProduct(c - 1, v);
      assert c as real * v == (c - 1) as real * v + v;
    } else if c < 0 {
      ScaleIsProduct(c + 1, v);
      assert c as real * v == (c + 1) as real * v - v;
    }
  }

  lemma {:induction false} ScaleZero(c: int)
    ensures Scale(c, 0.0) == 0.0
    decreases if c < 0 then -c else c
  {
    if c > 0 {
      ScaleZero(c - 1);
    } else if c < 0 {
      ScaleZero(c + 1);
    }
  }

  lemma {:induction false} ScaleOne(c: int)
    ensures Scale(c, 1.0) == c as real
    decreases if c < 0 then -c else c
  {
    if c > 0 {
      ScaleOne(c - 1);
    } else if c < 0 {
      ScaleOne(c + 1);
    }
  }

  /** A non-negative coefficient times a value in [0, 1] lies between 0 and the coefficient. */
  lemma {:induction false} ScaleWithin(c: int, v: real)
    requires c >= 0 && 0.0 <= v <= 1.0
    ensures 0.0 <= Scale(c, v) <= c as real
  {
    if c > 0 {
      ScaleWithin(c - 1, v);
    }
  }

  /** `Offset` is the product it stands for. */
  lemma {:induction false} OffsetIsProduct(i: nat, n: nat)
    ensures Offset(i, n) == i * n
  {
    if i > 0 {
      OffsetIsProduct(i - 1, n);
      assert i * n == (i - 1) * n + n;
    }
  }

  lemma {:induction false} OffsetUnit(i: nat)
    ensures Offset(i, 1) == i
  {
    if i > 0 {
      OffsetUnit(i - 1);
    }
  }

  /** Rows start in order. */
  lemma {:induction false} OffsetMonotone(i: nat, m: nat, n: nat)
    requires i <= m
    ensures Offset(i, n) <= Offset(m, n)
  {
    if i < m {
      OffsetMonotone(i, m - 1, n);
    }
  }

  /** Cell `j` of row `i` lies before the start of row `m` when `i < m` and `j < n`. */
  lemma {:induction false} OffsetBelow(i: nat, j: nat, m: nat, n: nat)
    requires i < m && j < n
    ensures Offset(i, n) + j < Offset(m, n)
  {
    if i < m - 1 {
      OffsetBelow(i, j, m - 1, n);
    }
  }

  /** `AllHold` means that each constraint holds. */
  lemma {:induction false} AllHoldAt(cs: seq<Constraint>, x: seq<real>)
    ensures AllHold(cs, x) <==> forall k :: 0 <= k < |cs| ==> Holds(cs[k], x)
  {
    if |cs| > 0 {
      var init := cs[..|cs| - 1];
      AllHoldAt(init, x);
      assert forall k :: 0 <= k < |init| ==> init[k] == cs[k];
    }
  }

  lemma {:induction false} AllHoldAppend(a: seq<Constraint>, b: seq<Constraint>, x: seq<real>)
    ensures AllHold(a + b, x) <==> AllHold(a, x) && AllHold(b, x)
    decreases |b|
  {
    if |b| > 0 {
      var b' := b[..|b| - 1];
      assert (a + b)[..|a + b| - 1] == a + b';
      assert (a + b)[|a + b| - 1] == b[|b| - 1];
      AllHoldAppend(a, b', x);
    } else {
      assert a + b == a;
    }
  }
}
