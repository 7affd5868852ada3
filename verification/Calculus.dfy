/** Real vectors and dual numbers: a value with its derivative along one direction. */
module Calculus {

  /** A product behind a name, so that sums of products stay linear to reason about. */
  function Mul(a: real, b: real): real {
    a * b
  }

  lemma MulCommutes(a: real, b: real)
    ensures Mul(a, b) == Mul(b, a)
  {
  }

  lemma MulAssociates(a: real, b: real, c: real)
    ensures Mul(Mul(a, b), c) == Mul(a, Mul(b, c))
  {
  }

  lemma MulDistributes(a: real, b: real, c: real)
    ensures Mul(a, b + c) == Mul(a, b) + Mul(a, c)
    ensures Mul(a, b - c) == Mul(a, b) - Mul(a, c)
    ensures Mul(b + c, a) == Mul(b, a) + Mul(c, a)
    ensures Mul(b - c, a) == Mul(b, a) - Mul(c, a)
  {
  }

  // ---------- inner products ----------

  /** The inner product of the first n entries. */
  function Dot(a: seq<real>, b: seq<real>, n: nat): real
    requires n <= |a| && n <= |b|
  {
    if n == 0 then 0.0 else Dot(a, b, n - 1) + Mul(a[n - 1], b[n - 1])
  }

  function Inner(a: seq<real>, b: seq<real>): real
    requires |a| == |b|
  {
    Dot(a, b, |a|)
  }

  lemma {:induction false} DotCommutes(a: seq<real>, b: seq<real>, n: nat)
    requires n <= |a| && n <= |b|
    ensures Dot(a, b, n) == Dot(b, a, n)
  {
    if n > 0 {
      DotCommutes(a, b, n - 1);
      MulCommutes(a[n - 1], b[n - 1]);
    }
  }

  /** Termwise equal products have equal sums. */
  lemma {:induction false} DotTermwise(a: seq<real>, b: seq<real>, c: seq<real>, d: seq<real>, n: nat)
    requires n <= |a| && n <= |b| && n <= |c| && n <= |d|
    requires forall i :: 0 <= i < n ==> Mul(a[i], b[i]) == Mul(c[i], d[i])
    ensures Dot(a, b, n) == Dot(c, d, n)
  {
    hide Mul;
    if n > 0 {
      DotTermwise(a, b, c, d, n - 1);
    }
  }

  /** a + scale * b, entry by entry. */
  ghost predicate IsCombination(r: seq<real>, a: seq<real>, scale: real, b: seq<real>) {
    |r| == |a| == |b| && forall i :: 0 <= i < |r| ==> r[i] == a[i] + Mul(scale, b[i])
  }

  lemma {:induction false} DotCombination(x: seq<real>, r: seq<real>, a: seq<real>, scale: real, b: seq<real>, n: nat)
    requires IsCombination(r, a, scale, b) && n <= |x| && n <= |r|
    ensures Dot(x, r, n) == Dot(x, a, n) + Mul(scale, Dot(x, b, n))
  {
    if n == 0 {
      assert Mul(scale, 0.0) == 0.0;
    } else {
      DotCombination(x, r, a, scale, b, n - 1);
      var s, t, u, v := x[n - 1], a[n - 1], b[n - 1], Dot(x, b, n - 1);
      assert r[n - 1] == t + Mul(scale, u);
      MulDistributes(s, t, Mul(scale, u));
      MulDistributes(scale, v, Mul(s, u));
      MulAssociates(s, scale, u);
      MulAssociates(scale, s, u);
      MulCommutes(s, scale);
      hide Mul;
    }
  }

  lemma {:induction false} DotScaled(a: seq<real>, b: seq<real>, scale: real, r: seq<real>, n: nat)
    requires |r| == |a| && n <= |a| && n <= |b|
    requires forall i :: 0 <= i < n ==> r[i] == Mul(scale, a[i])
    ensures Dot(r, b, n) == Mul(scale, Dot(a, b, n))
  {
    if n == 0 {
      assert Mul(scale, 0.0) == 0.0;
    } else {
      DotScaled(a, b, scale, r, n - 1);
      MulAssociates(scale, a[n - 1], b[n - 1]);
      MulDistributes(scale, Dot(a, b, n - 1), Mul(a[n - 1], b[n - 1]));
      hide Mul;
    }
  }

  /** Only the first n entries matter. */
  lemma {:induction false} DotPrefix(a: seq<real>, b: seq<real>, c: seq<real>, d: seq<real>, n: nat)
    requires n <= |a| && n <= |b| && n <= |c| && n <= |d|
    requires forall i :: 0 <= i < n ==> a[i] == c[i] && b[i] == d[i]
    ensures Dot(a, b, n) == Dot(c, d, n)
  {
    hide Mul;
    if n > 0 {
      DotPrefix(a, b, c, d, n - 1);
    }
  }

  lemma {:induction false} ZeroDot(a: seq<real>, b: seq<real>, n: nat)
    requires n <= |a| && n <= |b| && forall i :: 0 <= i < n ==> b[i] == 0.0
    ensures Dot(a, b, n) == 0.0
  {
    if n > 0 {
      ZeroDot(a, b, n - 1);
    }
  }

  lemma {:induction false} DotBlock(a: seq<real>, b: seq<real>, start: nat, width: nat)
    requires start + width <= |a| && start + width <= |b|
    ensures Dot(a, b, start + width)
         == Dot(a, b, start) + Dot(a[start..start + width], b[start..start + width], width)
  {
    hide Mul;
    if width > 0 {
      DotBlock(a, b, start, width - 1);
      var p, q := a[start..start + width], b[start..start + width];
      DotPrefix(a[start..start + (width - 1)], b[start..start + (width - 1)], p, q, width - 1);
    }
  }

  // ---------- dual numbers ----------

  datatype Dual = Dual(v: real, d: real)

  function Const(c: real): Dual { Dual(c, 0.0) }
  function Plus(a: Dual, b: Dual): Dual { Dual(a.v + b.v, a.d + b.d) }
  function Minus(a: Dual, b: Dual): Dual { Dual(a.v - b.v, a.d - b.d) }
  function Negated(a: Dual): Dual { Dual(-a.v, -a.d) }
  function Times(a: Dual, b: Dual): Dual { Dual(Mul(a.v, b.v), Mul(a.d, b.v) + Mul(a.v, b.d)) }

  function Div(a: real, b: real): real
    requires b != 0.0
  {
    a / b
  }

  lemma DivIsMul(a: real, b: real)
    requires b != 0.0
    ensures Div(a, b) == Mul(a, Div(1.0, b))
    ensures Mul(Div(a, b), b) == a
  {
  }

  /** The quotient rule: (a / b)' = (a' - (a / b) b') / b. */
  function Over(a: Dual, b: Dual): Dual
    requires b.v != 0.0
  {
    Dual(Div(a.v, b.v), Div(a.d - Mul(Div(a.v, b.v), b.d), b.v))
  }

  /** The functions of the C library, left abstract. */
  datatype Library = Library(exp: real -> real, tanh: real -> real, log: real -> real)

  ghost predicate Lawful(f: Library) {
    forall x :: f.exp(x) > 0.0
  }

  function Exp(f: Library, a: Dual): Dual { Dual(f.exp(a.v), Mul(f.exp(a.v), a.d)) }
  function Tanh(f: Library, a: Dual): Dual { Dual(f.tanh(a.v), Mul(1.0 - Mul(f.tanh(a.v), f.tanh(a.v)), a.d)) }

  function Log(f: Library, a: Dual): Dual
    requires a.v > 0.0
  {
    Dual(f.log(a.v), Div(a.d, a.v))
  }

  /** A vector with its directional derivative. */
  datatype Vec = Vec(v: seq<real>, d: seq<real>) {
    predicate Valid() { |v| == |d| }

    function At(i: nat): Dual
      requires i < |v| && Valid()
    {
      Dual(v[i], d[i])
    }
  }

  function Values(xs: seq<Dual>): (v: seq<real>)
    ensures |v| == |xs| && forall i :: 0 <= i < |xs| ==> v[i] == xs[i].v
  {
    seq(|xs|, i requires 0 <= i < |xs| => xs[i].v)
  }

  function Tangents(xs: seq<Dual>): (d: seq<real>)
    ensures |d| == |xs| && forall i :: 0 <= i < |xs| ==> d[i] == xs[i].d
  {
    seq(|xs|, i requires 0 <= i < |xs| => xs[i].d)
  }

  function VecOf(xs: seq<Dual>): (x: Vec)
    ensures x.Valid() && |x.v| == |xs|
  {
    Vec(Values(xs), Tangents(xs))
  }
}
