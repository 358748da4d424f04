/** Real vectors and matrices as sequences, the dot product used by every
    estimator and controller loop, and the matrix facts the filters rest on. */
module LinearAlgebra {

  type Vec = seq<real>
  type Mat = seq<seq<real>>

  ghost predicate IsMat(m: Mat, rows: nat, cols: nat) {
    |m| == rows && forall i | 0 <= i < rows :: |m[i]| == cols
  }

  /** A product kept as one number. */
  function Times(a: real, b: real): real { a * b }

  lemma PositiveQuotient(a: real, b: real)
    requires a > 0.0 && b > 0.0
    ensures a / b > 0.0
  {}

  /** Sum of pairwise products. */
  function Dot(u: Vec, v: Vec): real
    requires |u| == |v|
  {
    if |u| == 0 then 0.0
    else Dot(u[..|u| - 1], v[..|v| - 1]) + u[|u| - 1] * v[|v| - 1]
  }

  function Add(u: Vec, v: Vec): (w: Vec)
    requires |u| == |v|
  {
    seq(|u|, i requires 0 <= i < |u| => u[i] + v[i])
  }

  function Sub(u: Vec, v: Vec): (w: Vec)
    requires |u| == |v|
  {
    seq(|u|, i requires 0 <= i < |u| => u[i] - v[i])
  }

  function Scale(k: real, v: Vec): (w: Vec) {
    seq(|v|, i requires 0 <= i < |v| => k * v[i])
  }

  function Zero(n: nat): (w: Vec) {
    seq(n, i => 0.0)
  }

  function Unit(n: nat, k: nat): (w: Vec) {
    seq(n, i => if i == k then 1.0 else 0.0)
  }

  /** Entrywise product: the action of a diagonal matrix. */
  function Hadamard(q: Vec, v: Vec): (w: Vec)
    requires |q| == |v|
  {
    seq(|v|, i requires 0 <= i < |v| => q[i] * v[i])
  }

  ghost function Col(m: Mat, c: nat): (w: Vec)
    requires forall i | 0 <= i < |m| :: c < |m[i]|
  {
    seq(|m|, i requires 0 <= i < |m| => m[i][c])
  }

  ghost function MulVec(m: Mat, v: Vec): (w: Vec)
    requires IsMat(m, |m|, |v|)
  {
    seq(|m|, i requires 0 <= i < |m| => Dot(m[i], v))
  }

  /** Row vector times matrix, i.e. the transpose of m applied to u. */
  ghost function VecMat(u: Vec, m: Mat, cols: nat): (w: Vec)
    requires |u| == |m| && IsMat(m, |m|, cols)
    ensures |w| == cols
  {
    if |u| == 0 then Zero(cols)
    else Add(VecMat(u[..|u| - 1], m[..|m| - 1], cols), Scale(u[|u| - 1], m[|m| - 1]))
  }

  /** The bilinear form u' P v. */
  ghost function Bil(p: Mat, u: Vec, v: Vec): real
    requires |u| == |p| && IsMat(p, |p|, |v|)
  {
    Dot(u, MulVec(p, v))
  }

  ghost function Quad(p: Mat, v: Vec): real
    requires |v| == |p| && IsMat(p, |p|, |p|)
  {
    Bil(p, v, v)
  }

  ghost predicate Symmetric(p: Mat) {
    && IsMat(p, |p|, |p|)
    && forall i, j | 0 <= i < |p| && 0 <= j < |p| :: p[i][j] == p[j][i]
  }

  ghost predicate PositiveSemidefinite(p: Mat) {
    && IsMat(p, |p|, |p|)
    && forall v: Vec | |v| == |p| :: Quad(p, v) >= 0.0
  }

  /** A P A': entry (i, j) is the i-th row of A P against the j-th row of A. */
  ghost function Congruence(a: Mat, p: Mat): (c: Mat)
    requires IsMat(a, |a|, |p|) && IsMat(p, |p|, |p|)
    ensures IsMat(c, |a|, |a|)
  {
    seq(|a|, i requires 0 <= i < |a| =>
      seq(|a|, j requires 0 <= j < |a| => Dot(VecMat(a[i], p, |p|), a[j])))
  }

  ghost function AddDiagonal(p: Mat, q: Vec): (c: Mat)
    requires IsMat(p, |p|, |p|) && |q| == |p|
    ensures IsMat(c, |p|, |p|)
  {
    seq(|p|, i requires 0 <= i < |p| =>
      seq(|p|, j requires 0 <= j < |p| => if i == j then p[i][j] + q[i] else p[i][j]))
  }

  /** p + r k k' */
  ghost function AddOuter(p: Mat, r: real, k: Vec): (c: Mat)
    requires IsMat(p, |p|, |p|) && |k| == |p|
    ensures IsMat(c, |p|, |p|)
  {
    seq(|p|, i requires 0 <= i < |p| =>
      seq(|p|, j requires 0 <= j < |p| => p[i][j] + k[i] * r * k[j]))
  }

  ghost function Diagonal(q: Vec): (c: Mat)
    ensures IsMat(c, |q|, |q|)
  {
    seq(|q|, i requires 0 <= i < |q| =>
      seq(|q|, j requires 0 <= j < |q| => if i == j then q[i] else 0.0))
  }

  // ----- dot product -------------------------------------------------------

  lemma {:induction false} DotCommutes(u: Vec, v: Vec)
    requires |u| == |v|
    ensures Dot(u, v) == Dot(v, u)
  {
    if |u| > 0 { DotCommutes(u[..|u| - 1], v[..|v| - 1]); }
  }

  lemma {:induction false} DotAdd(u: Vec, v: Vec, w: Vec)
    requires |u| == |v| == |w|
    ensures Dot(u, Add(v, w)) == Dot(u, v) + Dot(u, w)
  {
    if |u| > 0 {
      var n := |u| - 1;
      assert Add(v, w)[..n] == Add(v[..n], w[..n]);
      DotAdd(u[..n], v[..n], w[..n]);
    }
  }

  lemma ScalePrefix(k: real, v: Vec, n: nat)
    requires n <= |v|
    ensures Scale(k, v)[..n] == Scale(k, v[..n])
  {
    forall i | 0 <= i < n ensures Scale(k, v)[..n][i] == Scale(k, v[..n])[i] {
      assert v[..n][i] == v[i];
    }
  }

  lemma HadamardPrefix(q: Vec, v: Vec, n: nat)
    requires n <= |v| == |q|
    ensures Hadamard(q, v)[..n] == Hadamard(q[..n], v[..n])
  {
    forall i | 0 <= i < n ensures Hadamard(q, v)[..n][i] == Hadamard(q[..n], v[..n])[i] {
      assert v[..n][i] == v[i] && q[..n][i] == q[i];
    }
  }

  lemma {:induction false} DotScale(u: Vec, k: real, v: Vec)
    requires |u| == |v|
    ensures Dot(u, Scale(k, v)) == k * Dot(u, v)
  {
    if |u| > 0 {
      var n := |u| - 1;
      ScalePrefix(k, v, n);
      DotScale(u[..n], k, v[..n]);
    }
  }

  lemma DotSub(u: Vec, v: Vec, w: Vec)
    requires |u| == |v| == |w|
    ensures Dot(u, Sub(v, w)) == Dot(u, v) - Dot(u, w)
  {
    assert Sub(v, w) == Add(v, Scale(-1.0, w));
    DotAdd(u, v, Scale(-1.0, w));
    DotScale(u, -1.0, w);
  }

  lemma {:induction false} DotZero(u: Vec)
    ensures Dot(u, Zero(|u|)) == 0.0
  {
    if |u| > 0 {
      assert Zero(|u|)[..|u| - 1] == Zero(|u| - 1);
      DotZero(u[..|u| - 1]);
    }
  }

  lemma {:induction false} DotUnit(k: nat, v: Vec)
    requires k < |v|
    ensures Dot(v, Unit(|v|, k)) == v[k]
  {
    var n := |v| - 1;
    if k == n {
      assert Unit(|v|, k)[..n] == Zero(n);
      DotZero(v[..n]);
    } else {
      assert Unit(|v|, k)[..n] == Unit(n, k);
      DotUnit(k, v[..n]);
    }
  }

  lemma {:induction false} DotHadamardNonNegative(q: Vec, v: Vec)
    requires |q| == |v| && forall i | 0 <= i < |q| :: q[i] >= 0.0
    ensures Dot(v, Hadamard(q, v)) >= 0.0
  {
    if |v| > 0 {
      var n := |v| - 1;
      HadamardPrefix(q, v, n);
      DotHadamardNonNegative(q[..n], v[..n]);
      SquareNonNegative(v[n]);
      assert v[n] * (q[n] * v[n]) == q[n] * (v[n] * v[n]);
    }
  }

  lemma SquareNonNegative(x: real)
    ensures x * x >= 0.0
  {}

  // ----- matrix and vector -------------------------------------------------

  lemma {:induction false} VecMatEntry(u: Vec, m: Mat, cols: nat, c: nat)
    requires |u| == |m| && IsMat(m, |m|, cols) && c < cols
    ensures VecMat(u, m, cols)[c] == Dot(u, Col(m, c))
  {
    if |u| > 0 {
      var n := |u| - 1;
      assert Col(m, c)[..n] == Col(m[..n], c);
      VecMatEntry(u[..n], m[..n], cols, c);
    }
  }

  /** The transpose moves across the dot product. */
  lemma {:induction false} Adjoint(u: Vec, m: Mat, z: Vec)
    requires |u| == |m| && IsMat(m, |m|, |z|)
    ensures Dot(VecMat(u, m, |z|), z) == Dot(u, MulVec(m, z))
  {
    if |u| == 0 {
      DotZero(z);
      DotCommutes(z, Zero(|z|));
    } else {
      VecMatUnfolds(u, m, z);
      MulVecUnfolds(u, m, z);
      hide Dot, VecMat, MulVec;
      Adjoint(u[..|u| - 1], m[..|u| - 1], z);
    }
  }

  lemma {:induction false} VecMatUnfolds(u: Vec, m: Mat, z: Vec)
    requires 0 < |u| == |m| && IsMat(m, |m|, |z|)
    ensures var n := |u| - 1;
      Dot(VecMat(u, m, |z|), z) == Dot(VecMat(u[..n], m[..n], |z|), z) + u[n] * Dot(m[n], z)
  {
    var n := |u| - 1;
    var head := VecMat(u[..n], m[..n], |z|);
    assert VecMat(u, m, |z|) == Add(head, Scale(u[n], m[n]));
    hide Dot, VecMat, Add, Scale;
    DotCommutes(VecMat(u, m, |z|), z);
    DotCommutes(head, z);
    DotAdd(z, head, Scale(u[n], m[n]));
    ScaledRow(z, u[n], m[n]);
  }

  lemma {:induction false} MulVecUnfolds(u: Vec, m: Mat, z: Vec)
    requires 0 < |u| == |m| && IsMat(m, |m|, |z|)
    ensures var n := |u| - 1;
      Dot(u, MulVec(m, z)) == Dot(u[..n], MulVec(m[..n], z)) + u[n] * Dot(m[n], z)
  {
    var n := |u| - 1;
    var y := MulVec(m, z);
    assert y[..n] == MulVec(m[..n], z) && y[n] == Dot(m[n], z);
    assert Dot(u, y) == Dot(u[..n], y[..n]) + u[n] * y[n];
    hide Dot, MulVec;
  }

  lemma {:induction false} ScaledRow(z: Vec, k: real, row: Vec)
    requires |row| == |z|
    ensures |Scale(k, row)| == |z| && Dot(z, Scale(k, row)) == k * Dot(row, z)
  {
    DotScale(z, k, row);
    DotCommutes(z, row);
    hide Dot;
  }

  lemma MulVecSub(m: Mat, v: Vec, w: Vec)
    requires |v| == |w| && IsMat(m, |m|, |v|)
    ensures MulVec(m, Sub(v, w)) == Sub(MulVec(m, v), MulVec(m, w))
  {
    forall i | 0 <= i < |m| ensures MulVec(m, Sub(v, w))[i] == MulVec(m, v)[i] - MulVec(m, w)[i] {
      DotSub(m[i], v, w);
    }
  }

  lemma MulVecScale(m: Mat, k: real, v: Vec)
    requires IsMat(m, |m|, |v|)
    ensures MulVec(m, Scale(k, v)) == Scale(k, MulVec(m, v))
  {
    forall i | 0 <= i < |m| ensures MulVec(m, Scale(k, v))[i] == Scale(k, MulVec(m, v))[i] {
      DotScale(m[i], k, v);
      assert MulVec(m, v)[i] == Dot(m[i], v);
    }
  }

  // ----- bilinear forms ----------------------------------------------------

  lemma BilRightSub(p: Mat, u: Vec, v: Vec, k: real, w: Vec)
    requires |u| == |p| && |v| == |w| && IsMat(p, |p|, |v|)
    ensures Bil(p, u, Sub(v, Scale(k, w))) == Bil(p, u, v) - k * Bil(p, u, w)
  {
    MulVecSub(p, v, Scale(k, w));
    MulVecScale(p, k, w);
    DotSub(u, MulVec(p, v), Scale(k, MulVec(p, w)));
    DotScale(u, k, MulVec(p, w));
  }

  lemma BilSymmetric(p: Mat, u: Vec, v: Vec)
    requires Symmetric(p) && |u| == |v| == |p|
    ensures Bil(p, u, v) == Bil(p, v, u)
  {
    Adjoint(u, p, v);
    var w := VecMat(u, p, |p|);
    forall c | 0 <= c < |p| ensures w[c] == MulVec(p, u)[c] {
      VecMatEntry(u, p, |p|, c);
      assert Col(p, c) == p[c];
      DotCommutes(u, p[c]);
    }
    assert w == MulVec(p, u);
    DotCommutes(w, v);
  }

  lemma BilLeftSub(p: Mat, u: Vec, k: real, w: Vec, v: Vec)
    requires Symmetric(p) && |u| == |v| == |w| == |p|
    ensures Bil(p, Sub(u, Scale(k, w)), v) == Bil(p, u, v) - k * Bil(p, w, v)
  {
    BilSymmetric(p, Sub(u, Scale(k, w)), v);
    BilRightSub(p, v, u, k, w);
    BilSymmetric(p, v, u);
    BilSymmetric(p, v, w);
  }

  lemma BilUnit(p: Mat, i: nat, v: Vec)
    requires i < |p| && IsMat(p, |p|, |v|)
    ensures Bil(p, Unit(|p|, i), v) == Dot(p[i], v)
  {
    DotCommutes(Unit(|p|, i), MulVec(p, v));
    DotUnit(i, MulVec(p, v));
  }

  lemma CongruenceEntry(a: Mat, p: Mat, i: nat, j: nat)
    requires IsMat(a, |a|, |p|) && IsMat(p, |p|, |p|) && i < |a| && j < |a|
    ensures Congruence(a, p)[i][j] == Bil(p, a[i], a[j])
  {
    Adjoint(a[i], p, a[j]);
  }

  lemma CongruenceSymmetric(a: Mat, p: Mat)
    requires IsMat(a, |a|, |p|) && Symmetric(p)
    ensures Symmetric(Congruence(a, p))
  {
    forall i, j | 0 <= i < |a| && 0 <= j < |a|
      ensures Congruence(a, p)[i][j] == Congruence(a, p)[j][i]
    {
      CongruenceEntry(a, p, i, j);
      CongruenceEntry(a, p, j, i);
      BilSymmetric(p, a[i], a[j]);
    }
  }

  /** v' (A P A') v is the form of P at A' v. */
  lemma {:induction false} QuadCongruence(a: Mat, p: Mat, v: Vec)
    requires IsMat(a, |a|, |p|) && IsMat(p, |p|, |p|) && |v| == |a|
    ensures Quad(Congruence(a, p), v) == Quad(p, VecMat(v, a, |p|))
  {
    var c := Congruence(a, p);
    var w := VecMat(v, a, |p|);
    var z := MulVec(p, w);
    forall i | 0 <= i < |a| ensures MulVec(c, v)[i] == MulVec(a, z)[i] {
      var row := VecMat(a[i], p, |p|);
      assert c[i] == MulVec(a, row) by {
        forall j | 0 <= j < |a| ensures c[i][j] == MulVec(a, row)[j] { DotCommutes(row, a[j]); }
      }
      DotCommutes(c[i], v);
      Adjoint(v, a, row);
      DotCommutes(w, row);
      Adjoint(a[i], p, w);
    }
    assert MulVec(c, v) == MulVec(a, z);
    Adjoint(v, a, z);
  }

  lemma CongruencePositive(a: Mat, p: Mat)
    requires IsMat(a, |a|, |p|) && PositiveSemidefinite(p)
    ensures PositiveSemidefinite(Congruence(a, p))
  {
    forall v: Vec | |v| == |a| ensures Quad(Congruence(a, p), v) >= 0.0 {
      QuadCongruence(a, p, v);
    }
  }

  lemma {:induction false} DotUpdate(u: Vec, k: nat, x: real, v: Vec)
    requires |u| == |v| && k < |u|
    ensures Dot(u[k := u[k] + x], v) == Dot(u, v) + x * v[k]
  {
    var n := |u| - 1;
    var w := u[k := u[k] + x];
    if k == n {
      assert w[..n] == u[..n];
    } else {
      assert w[..n] == u[..n][k := u[k] + x];
      DotUpdate(u[..n], k, x, v[..n]);
    }
  }

  /** If every row of c acts on v like the row of p plus an extra entry, the
      form of c at v is the form of p plus v against the extra vector. */
  lemma {:induction false} QuadSplit(p: Mat, c: Mat, v: Vec, extra: Vec)
    requires IsMat(p, |p|, |p|) && IsMat(c, |p|, |p|) && |v| == |extra| == |p|
    requires forall i | 0 <= i < |p| :: Dot(c[i], v) == Dot(p[i], v) + extra[i]
    ensures Quad(c, v) == Quad(p, v) + Dot(v, extra)
  {
    var a, b := MulVec(p, v), MulVec(c, v);
    forall i | 0 <= i < |p| ensures b[i] == a[i] + extra[i] {}
    assert b == Add(a, extra);
    DotAdd(v, a, extra);
  }

  lemma {:induction false} DiagonalRow(p: Mat, q: Vec, v: Vec, i: nat)
    requires IsMat(p, |p|, |p|) && |q| == |p| == |v| && i < |p|
    ensures Dot(AddDiagonal(p, q)[i], v) == Dot(p[i], v) + Hadamard(q, v)[i]
  {
    assert AddDiagonal(p, q)[i] == p[i][i := p[i][i] + q[i]];
    DotUpdate(p[i], i, q[i], v);
  }

  lemma MulRotate(a: real, b: real, c: real, ab: real, bc: real)
    requires ab == a * b && bc == b * c
    ensures ab * c == bc * a
  {}

  lemma WeightedSquareNonNegative(r: real, d: real)
    requires r >= 0.0
    ensures r * d * d >= 0.0
  {
    SquareNonNegative(d);
    assert r * d * d == r * (d * d);
  }

  lemma {:induction false} OuterRow(p: Mat, r: real, k: Vec, v: Vec, i: nat, s: real)
    requires IsMat(p, |p|, |p|) && |k| == |p| == |v| && i < |p| && s == r * Dot(v, k)
    ensures Dot(AddOuter(p, r, k)[i], v) == Dot(p[i], v) + Scale(s, k)[i]
  {
    hide Dot, AddOuter, Scale, Add;
    var row := AddOuter(p, r, k)[i];
    var t := k[i] * r;
    OuterRowIs(p, r, k, i, t);
    ScaledAt(s, k, i);
    ScaledAt(t, k, i);
    DotCommutes(row, v);
    DotAdd(v, p[i], Scale(t, k));
    DotScale(v, t, k);
    DotCommutes(v, p[i]);
    MulRotate(k[i], r, Dot(v, k), t, s);
  }

  lemma ScaledAt(s: real, k: Vec, i: nat)
    requires i < |k|
    ensures |Scale(s, k)| == |k| && Scale(s, k)[i] == s * k[i]
  {}

  lemma OuterRowIs(p: Mat, r: real, k: Vec, i: nat, t: real)
    requires IsMat(p, |p|, |p|) && |k| == |p| && i < |p| && t == k[i] * r
    ensures AddOuter(p, r, k)[i] == Add(p[i], Scale(t, k))
  {
    var row := AddOuter(p, r, k)[i];
    forall j | 0 <= j < |p| ensures row[j] == Add(p[i], Scale(t, k))[j] {
      assert row[j] == p[i][j] + k[i] * r * k[j];
      assert Scale(t, k)[j] == t * k[j];
    }
  }

  lemma AddDiagonalPositive(p: Mat, q: Vec)
    requires PositiveSemidefinite(p) && |q| == |p| && forall i | 0 <= i < |q| :: q[i] >= 0.0
    ensures PositiveSemidefinite(AddDiagonal(p, q))
  {
    forall v: Vec | |v| == |p| ensures Quad(AddDiagonal(p, q), v) >= 0.0 {
      forall i | 0 <= i < |p| { DiagonalRow(p, q, v, i); }
      QuadSplit(p, AddDiagonal(p, q), v, Hadamard(q, v));
      DotHadamardNonNegative(q, v);
    }
  }

  lemma {:induction false} OuterNonNegative(v: Vec, r: real, k: Vec, s: real)
    requires |v| == |k| && r >= 0.0 && s == r * Dot(v, k)
    ensures Dot(v, Scale(s, k)) >= 0.0
  {
    DotScale(v, s, k);
    WeightedSquareNonNegative(r, Dot(v, k));
  }

  lemma AddOuterForm(p: Mat, r: real, k: Vec, v: Vec)
    requires PositiveSemidefinite(p) && |k| == |p| == |v| && r >= 0.0
    ensures Quad(AddOuter(p, r, k), v) >= 0.0
  {
    hide *;
    QuadNonNegative(p, v);
    var s := r * Dot(v, k);
    OuterForms(p, r, k, v, s, Scale(s, k));
  }

  lemma QuadNonNegative(p: Mat, v: Vec)
    requires PositiveSemidefinite(p) && |v| == |p|
    ensures IsMat(p, |p|, |p|) && Quad(p, v) >= 0.0
  {
    hide Quad;
  }

  lemma OuterForms(p: Mat, r: real, k: Vec, v: Vec, s: real, extra: Vec)
    requires IsMat(p, |p|, |p|) && |k| == |p| == |v| && r >= 0.0 && s == r * Dot(v, k) && extra == Scale(s, k)
    ensures Quad(AddOuter(p, r, k), v) >= Quad(p, v)
  {
    hide Dot, Quad;
    forall i | 0 <= i < |p| ensures Dot(AddOuter(p, r, k)[i], v) == Dot(p[i], v) + extra[i] {
      OuterRow(p, r, k, v, i, s);
    }
    QuadSplit(p, AddOuter(p, r, k), v, extra);
    OuterNonNegative(v, r, k, s);
  }

  lemma AddOuterPositive(p: Mat, r: real, k: Vec)
    requires PositiveSemidefinite(p) && |k| == |p| && r >= 0.0
    ensures PositiveSemidefinite(AddOuter(p, r, k))
  {
    forall v: Vec | |v| == |p| ensures Quad(AddOuter(p, r, k), v) >= 0.0 {
      AddOuterForm(p, r, k, v);
    }
  }

  ghost function ZeroMat(n: nat): (c: Mat)
    ensures IsMat(c, n, n)
  {
    seq(n, i => Zero(n))
  }

  lemma ZeroMatForm(n: nat, v: Vec)
    requires |v| == n
    ensures Quad(ZeroMat(n), v) == 0.0
  {
    DotCommutes(Zero(n), v);
    DotZero(v);
    assert MulVec(ZeroMat(n), v) == Zero(n);
  }

  lemma DiagonalFromZero(q: Vec)
    ensures Diagonal(q) == AddDiagonal(ZeroMat(|q|), q)
  {
    var z := ZeroMat(|q|);
    forall i | 0 <= i < |q| ensures Diagonal(q)[i] == AddDiagonal(z, q)[i] {}
  }

  lemma DiagonalPositive(q: Vec)
    requires forall i | 0 <= i < |q| :: q[i] >= 0.0
    ensures PositiveSemidefinite(Diagonal(q))
  {
    var z := ZeroMat(|q|);
    ZeroMatPositive(|q|);
    AddDiagonalPositive(z, q);
    assert PositiveSemidefinite(AddDiagonal(z, q));
    DiagonalFromZero(q);
  }

  lemma ZeroMatPositive(n: nat)
    ensures PositiveSemidefinite(ZeroMat(n))
  {
    forall v: Vec | |v| == n ensures Quad(ZeroMat(n), v) >= 0.0 { ZeroMatForm(n, v); }
  }
}
