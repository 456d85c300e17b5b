/** Dense real matrices and vectors, just enough linear algebra for the
    least-squares normal equations: dot products, transposes, products,
    identities, inverses, and the closed-form inverse of a 2x2 matrix. */
module Matrix {
  import opened Scalar

  type Vector = seq<real>
  type Mat = seq<seq<real>>

  /** M has `rows` rows of `cols` entries each. */
  predicate IsMatrix(M: Mat, rows: nat, cols: nat) {
    |M| == rows && forall i :: 0 <= i < |M| ==> |M[i]| == cols
  }

  /** Σ u[i]·v[i], accumulated from the first entry to the last. */
  function Dot(u: Vector, v: Vector): real
    requires |u| == |v|
    decreases |u|
  {
    if |u| == 0 then 0.0 else Dot(u[..|u| - 1], v[..|v| - 1]) + Mul(u[|u| - 1], v[|v| - 1])
  }

  function Column(M: Mat, j: nat): (c: Vector)
    requires forall i :: 0 <= i < |M| ==> j < |M[i]|
    ensures |c| == |M| && forall i {:trigger c[i]} :: 0 <= i < |M| ==> c[i] == M[i][j]
  {
    seq(|M|, i requires 0 <= i < |M| => M[i][j])
  }

  function Transpose(M: Mat, cols: nat): (t: Mat)
    requires IsMatrix(M, |M|, cols)
    ensures IsMatrix(t, cols, |M|)
    ensures forall j, i {:trigger t[j][i]} :: 0 <= j < cols && 0 <= i < |M| ==> t[j][i] == M[i][j]
  {
    seq(cols, j requires 0 <= j < cols => Column(M, j))
  }

  /** The row vector p times the matrix Q (|p| rows, n columns). */
  function VecMat(p: Vector, Q: Mat, n: nat): (r: Vector)
    requires IsMatrix(Q, |p|, n)
    ensures |r| == n && forall j {:trigger r[j]} :: 0 <= j < n ==> r[j] == Dot(p, Column(Q, j))
  {
    seq(n, j requires 0 <= j < n => Dot(p, Column(Q, j)))
  }

  /** P times Q, where Q has n columns and as many rows as P has columns. */
  function MatMul(P: Mat, Q: Mat, n: nat): (R: Mat)
    requires IsMatrix(Q, |Q|, n)
    requires forall i :: 0 <= i < |P| ==> |P[i]| == |Q|
    ensures IsMatrix(R, |P|, n)
    ensures forall i {:trigger R[i]} :: 0 <= i < |P| ==> R[i] == VecMat(P[i], Q, n)
  {
    seq(|P|, i requires 0 <= i < |P| => VecMat(P[i], Q, n))
  }

  function MatVec(M: Mat, v: Vector): (w: Vector)
    requires forall i :: 0 <= i < |M| ==> |M[i]| == |v|
    ensures |w| == |M| && forall i {:trigger w[i]} :: 0 <= i < |M| ==> w[i] == Dot(M[i], v)
  {
    seq(|M|, i requires 0 <= i < |M| => Dot(M[i], v))
  }

  /** The i-th unit vector of length n (all zeros when i >= n). */
  function Unit(n: nat, i: nat): (e: Vector)
    ensures |e| == n && forall j :: 0 <= j < n ==> e[j] == if i == j then 1.0 else 0.0
  {
    seq(n, j => if i == j then 1.0 else 0.0)
  }

  function Identity(n: nat): (I: Mat)
    ensures IsMatrix(I, n, n) && forall i :: 0 <= i < n ==> I[i] == Unit(n, i)
  {
    seq(n, i requires 0 <= i < n => Unit(n, i))
  }

  function AddScaled(x: Vector, a: real, y: Vector): (z: Vector)
    requires |x| == |y|
    ensures |z| == |x| && forall j {:trigger z[j]} :: 0 <= j < |x| ==> z[j] == x[j] + Mul(a, y[j])
  {
    seq(|x|, j requires 0 <= j < |x| => x[j] + Mul(a, y[j]))
  }

  function Zeros(n: nat): (z: Vector)
    ensures |z| == n && forall j :: 0 <= j < n ==> z[j] == 0.0
  {
    seq(n, j => 0.0)
  }

  /** Bi is a two-sided inverse of the square matrix B. */
  predicate IsInverse(B: Mat, Bi: Mat) {
    && IsMatrix(B, |B|, |B|)
    && IsMatrix(Bi, |B|, |B|)
    && MatMul(Bi, B, |B|) == Identity(|B|)
    && MatMul(B, Bi, |B|) == Identity(|B|)
  }

  ghost predicate Invertible(B: Mat) {
    exists Bi :: IsInverse(B, Bi)
  }

  // ---------------------------------------------------------------------
  // Dot products

  lemma {:induction false} DotZeros(v: Vector)
    ensures Dot(Zeros(|v|), v) == 0.0
  {
    if |v| > 0 {
      assert Zeros(|v|)[..|v| - 1] == Zeros(|v| - 1);
      DotZeros(v[..|v| - 1]);
    }
  }

  lemma {:induction false} DotCommutes(u: Vector, v: Vector)
    requires |u| == |v|
    ensures Dot(u, v) == Dot(v, u)
  {
    if |u| > 0 {
      DotCommutes(u[..|u| - 1], v[..|v| - 1]);
    }
  }

  /** Dotting with a unit vector picks out one entry. */
  lemma {:induction false} DotUnit(v: Vector, i: nat)
    ensures Dot(Unit(|v|, i), v) == if i < |v| then v[i] else 0.0
    ensures Dot(v, Unit(|v|, i)) == if i < |v| then v[i] else 0.0
  {
    var n := |v|;
    if n > 0 {
      assert Unit(n, i)[..n - 1] == Unit(n - 1, i);
      DotUnit(v[..n - 1], i);
    }
  }

  /** The dot product is linear in its first argument. */
  lemma {:induction false} DotAddScaled(x: Vector, a: real, y: Vector, v: Vector)
    requires |x| == |y| == |v|
    ensures Dot(AddScaled(x, a, y), v) == Dot(x, v) + Mul(a, Dot(y, v))
  {
    var n := |x|;
    if n > 0 {
      var z, z' := AddScaled(x, a, y), AddScaled(x[..n - 1], a, y[..n - 1]);
      forall j | 0 <= j < n - 1 ensures z[..n - 1][j] == z'[j] { }
      assert z[..n - 1] == z';
      DotAddScaled(x[..n - 1], a, y[..n - 1], v[..n - 1]);
      var dx, dy := Dot(x[..n - 1], v[..n - 1]), Dot(y[..n - 1], v[..n - 1]);
      var xn, yn, vn := x[n - 1], y[n - 1], v[n - 1];
      assert Dot(z', v[..n - 1]) == dx + Mul(a, dy);
      assert z[n - 1] == xn + Mul(a, yn);
      assert Dot(z, v) == Dot(z', v[..n - 1]) + Mul(z[n - 1], vn);
      Distribute(dx, dy, xn, yn, vn, a);
    }
  }

  lemma Distribute(dx: real, dy: real, x: real, y: real, v: real, a: real)
    ensures dx + Mul(a, dy) + Mul(x + Mul(a, y), v) == dx + Mul(x, v) + Mul(a, dy + Mul(y, v))
  {
  }

  // ---------------------------------------------------------------------
  // Associativity

  /** (p·Q)·v == p·(Q·v): the two orders of a double sum agree. */
  lemma {:induction false} RowAssoc(p: Vector, Q: Mat, n: nat, v: Vector)
    requires IsMatrix(Q, |p|, n) && |v| == n
    ensures Dot(VecMat(p, Q, n), v) == Dot(p, MatVec(Q, v))
  {
    var c := |p|;
    if c == 0 {
      assert VecMat(p, Q, n) == Zeros(n);
      DotZeros(v);
    } else {
      var p', Q', a, q := p[..c - 1], Q[..c - 1], p[c - 1], Q[c - 1];
      var w := MatVec(Q, v);
      var s1, s2 := Dot(VecMat(p', Q', n), v), Dot(q, v);
      calc {
        Dot(VecMat(p, Q, n), v);
        { VecMatLastRow(p, Q, n); }
        Dot(AddScaled(VecMat(p', Q', n), a, q), v);
        { DotAddScaled(VecMat(p', Q', n), a, q, v); }
        s1 + Mul(a, s2);
        { RowAssoc(p', Q', n, v); MatVecLastRow(Q, v); }
        Dot(p', w[..c - 1]) + Mul(a, w[c - 1]);
        { DotLast(p, w); }
        Dot(p, w);
      }
    }
  }

  /** Peeling off the last term of a dot product. */
  lemma DotLast(u: Vector, v: Vector)
    requires |u| == |v| > 0
    ensures Dot(u, v) == Dot(u[..|u| - 1], v[..|v| - 1]) + Mul(u[|u| - 1], v[|v| - 1])
  {
  }

  /** Splitting off the last row of Q splits p·Q into two summands. */
  lemma VecMatLastRow(p: Vector, Q: Mat, n: nat)
    requires IsMatrix(Q, |p|, n) && |p| > 0
    ensures VecMat(p, Q, n) == AddScaled(VecMat(p[..|p| - 1], Q[..|p| - 1], n), p[|p| - 1], Q[|p| - 1])
  {
    var c := |p|;
    var L, R := VecMat(p, Q, n), AddScaled(VecMat(p[..c - 1], Q[..c - 1], n), p[c - 1], Q[c - 1]);
    forall j | 0 <= j < n ensures L[j] == R[j] {
      assert Column(Q, j)[..c - 1] == Column(Q[..c - 1], j);
    }
  }

  lemma MatVecLastRow(Q: Mat, v: Vector)
    requires IsMatrix(Q, |Q|, |v|) && |Q| > 0
    ensures MatVec(Q, v)[..|Q| - 1] == MatVec(Q[..|Q| - 1], v)
    ensures MatVec(Q, v)[|Q| - 1] == Dot(Q[|Q| - 1], v)
  {
  }

  lemma MatVecAssoc(P: Mat, Q: Mat, n: nat, v: Vector)
    requires IsMatrix(Q, |Q|, n) && |v| == n
    requires forall i :: 0 <= i < |P| ==> |P[i]| == |Q|
    ensures MatVec(MatMul(P, Q, n), v) == MatVec(P, MatVec(Q, v))
  {
    forall i | 0 <= i < |P|
      ensures MatVec(MatMul(P, Q, n), v)[i] == MatVec(P, MatVec(Q, v))[i]
    {
      RowAssoc(P[i], Q, n, v);
    }
  }

  lemma MatMulAssoc(P: Mat, Q: Mat, R: Mat, n: nat, k: nat)
    requires IsMatrix(Q, |Q|, n) && IsMatrix(R, n, k)
    requires forall i :: 0 <= i < |P| ==> |P[i]| == |Q|
    ensures MatMul(MatMul(P, Q, n), R, k) == MatMul(P, MatMul(Q, R, k), k)
  {
    var L, Rt := MatMul(MatMul(P, Q, n), R, k), MatMul(P, MatMul(Q, R, k), k);
    forall i, j | 0 <= i < |P| && 0 <= j < k
      ensures L[i][j] == Rt[i][j]
    {
      assert Column(MatMul(Q, R, k), j) == MatVec(Q, Column(R, j));
      RowAssoc(P[i], Q, n, Column(R, j));
    }
    forall i | 0 <= i < |P| ensures L[i] == Rt[i] { }
  }

  // ---------------------------------------------------------------------
  // Identities and inverses

  lemma IdentityMatVec(v: Vector)
    ensures MatVec(Identity(|v|), v) == v
  {
    forall i | 0 <= i < |v| ensures MatVec(Identity(|v|), v)[i] == v[i] {
      DotUnit(v, i);
    }
  }

  lemma IdentityMatMul(M: Mat, r: nat, k: nat)
    requires IsMatrix(M, r, k)
    ensures MatMul(Identity(r), M, k) == M
    ensures MatMul(M, Identity(k), k) == M
  {
    forall i, j | 0 <= i < r && 0 <= j < k
      ensures MatMul(Identity(r), M, k)[i][j] == M[i][j]
    {
      DotUnit(Column(M, j), i);
    }
    forall i | 0 <= i < r ensures MatMul(Identity(r), M, k)[i] == M[i] { }
    forall i, j | 0 <= i < r && 0 <= j < k
      ensures MatMul(M, Identity(k), k)[i][j] == M[i][j]
    {
      assert Column(Identity(k), j) == Unit(k, j);
      DotUnit(M[i], j);
    }
    forall i | 0 <= i < r ensures MatMul(M, Identity(k), k)[i] == M[i] { }
  }

  /** A square matrix has at most one two-sided inverse. */
  lemma InverseUnique(B: Mat, Bi: Mat, Bj: Mat)
    requires IsInverse(B, Bi) && IsInverse(B, Bj)
    ensures Bi == Bj
  {
    var n := |B|;
    calc {
      Bi;
      { IdentityMatMul(Bi, n, n); }
      MatMul(Bi, Identity(n), n);
      MatMul(Bi, MatMul(B, Bj, n), n);
      { MatMulAssoc(Bi, B, Bj, n, n); }
      MatMul(MatMul(Bi, B, n), Bj, n);
      MatMul(Identity(n), Bj, n);
      { IdentityMatMul(Bj, n, n); }
      Bj;
    }
  }

  lemma InversesUnique(B: Mat)
    ensures forall Bi, Bj :: IsInverse(B, Bi) && IsInverse(B, Bj) ==> Bi == Bj
  {
    forall Bi, Bj | IsInverse(B, Bi) && IsInverse(B, Bj) ensures Bi == Bj {
      InverseUnique(B, Bi, Bj);
    }
  }

  /** The inverse of an invertible matrix, B⁻¹, the only two-sided inverse. */
  function Inverse(B: Mat): (Bi: Mat)
    requires Invertible(B)
    ensures IsInverse(B, Bi)
    ensures forall Bj :: IsInverse(B, Bj) ==> Bj == Bi
  {
    InversesUnique(B);
    var Bi :| IsInverse(B, Bi); Bi
  }

  /** B·(B⁻¹·c) == c, and B·x == c has no other solution. */
  lemma {:induction false} InverseSolves(B: Mat, Bi: Mat, c: Vector, x: Vector)
    requires IsInverse(B, Bi) && |c| == |B| && |x| == |B|
    ensures MatVec(B, MatVec(Bi, c)) == c
    ensures MatVec(B, x) == c <==> x == MatVec(Bi, c)
  {
    var n := |B|;
    calc {
      MatVec(B, MatVec(Bi, c));
      { MatVecAssoc(B, Bi, n, c); }
      MatVec(MatMul(B, Bi, n), c);
      { IdentityMatVec(c); }
      c;
    }
    if MatVec(B, x) == c {
      calc {
        x;
        { IdentityMatVec(x); }
        MatVec(MatMul(Bi, B, n), x);
        { MatVecAssoc(Bi, B, n, x); }
        MatVec(Bi, c);
      }
    }
  }

  // ---------------------------------------------------------------------
  // The 2x2 case

  function Det2(B: Mat): real
    requires IsMatrix(B, 2, 2)
  {
    Mul(B[0][0], B[1][1]) - Mul(B[0][1], B[1][0])
  }

  lemma Dot2(u: Vector, v: Vector)
    requires |u| == |v| == 2
    ensures Dot(u, v) == Mul(u[0], v[0]) + Mul(u[1], v[1])
  {
    DotLast(u, v);
    DotLast(u[..1], v[..1]);
    assert u[..1][..0] == [] && v[..1][..0] == [];
  }

  lemma Dot3(u: Vector, v: Vector)
    requires |u| == |v| == 3
    ensures Dot(u, v) == Mul(u[0], v[0]) + Mul(u[1], v[1]) + Mul(u[2], v[2])
  {
    DotLast(u, v);
    Dot2(u[..2], v[..2]);
  }

  lemma Dot4(u: Vector, v: Vector)
    requires |u| == |v| == 4
    ensures Dot(u, v) == Mul(u[0], v[0]) + Mul(u[1], v[1]) + Mul(u[2], v[2]) + Mul(u[3], v[3])
  {
    DotLast(u, v);
    Dot3(u[..3], v[..3]);
  }

  lemma Mul2(P: Mat, Q: Mat)
    requires IsMatrix(P, 2, 2) && IsMatrix(Q, 2, 2)
    ensures MatMul(P, Q, 2) ==
      [[Mul(P[0][0], Q[0][0]) + Mul(P[0][1], Q[1][0]), Mul(P[0][0], Q[0][1]) + Mul(P[0][1], Q[1][1])],
       [Mul(P[1][0], Q[0][0]) + Mul(P[1][1], Q[1][0]), Mul(P[1][0], Q[0][1]) + Mul(P[1][1], Q[1][1])]]
  {
    var R := MatMul(P, Q, 2);
    var c0, c1 := Column(Q, 0), Column(Q, 1);
    assert c0 == [Q[0][0], Q[1][0]] && c1 == [Q[0][1], Q[1][1]];
    Dot2(P[0], c0);
    Dot2(P[0], c1);
    Dot2(P[1], c0);
    Dot2(P[1], c1);
    assert R[0] == VecMat(P[0], Q, 2) == [Dot(P[0], c0), Dot(P[0], c1)];
    assert R[1] == VecMat(P[1], Q, 2) == [Dot(P[1], c0), Dot(P[1], c1)];
    assert R == [R[0], R[1]];
  }

  /** The closed-form inverse (1/det)·[[d, -b], [-c, a]] of [[a, b], [c, d]]. */
  function Inverse2(B: Mat): (Bi: Mat)
    requires IsMatrix(B, 2, 2) && Det2(B) != 0.0
    ensures IsInverse(B, Bi)
  {
    var k := 1.0 / Det2(B);
    var Bi := [[Mul(B[1][1], k), -Mul(B[0][1], k)], [-Mul(B[1][0], k), Mul(B[0][0], k)]];
    Inverse2Correct(B, k, Bi);
    Bi
  }

  /** The entry-wise identities behind Inverse2, with (w, x; y, z) = (d, -b; -c, a)·k. */
  lemma Inverse2Scalars(a: real, b: real, c: real, e: real, k: real, w: real, x: real, y: real, z: real)
    requires Mul(k, Mul(a, e) - Mul(b, c)) == 1.0
    requires w == Mul(e, k) && x == -Mul(b, k) && y == -Mul(c, k) && z == Mul(a, k)
    ensures Mul(w, a) + Mul(x, c) == 1.0 && Mul(w, b) + Mul(x, e) == 0.0
    ensures Mul(y, a) + Mul(z, c) == 0.0 && Mul(y, b) + Mul(z, e) == 1.0
    ensures Mul(a, w) + Mul(b, y) == 1.0 && Mul(a, x) + Mul(b, z) == 0.0
    ensures Mul(c, w) + Mul(e, y) == 0.0 && Mul(c, x) + Mul(e, z) == 1.0
  {
    assert w * a + x * c == k * (a * e - b * c);
    assert y * b + z * e == k * (a * e - b * c);
    assert a * w + b * y == k * (a * e - b * c);
    assert c * x + e * z == k * (a * e - b * c);
  }

  lemma Inverse2Correct(B: Mat, k: real, Bi: Mat)
    requires IsMatrix(B, 2, 2) && Det2(B) != 0.0 && k == 1.0 / Det2(B)
    requires Bi == [[Mul(B[1][1], k), -Mul(B[0][1], k)], [-Mul(B[1][0], k), Mul(B[0][0], k)]]
    ensures IsInverse(B, Bi)
  {
    InverseOfDet(Det2(B), k);
    Inverse2Scalars(B[0][0], B[0][1], B[1][0], B[1][1], k, Bi[0][0], Bi[0][1], Bi[1][0], Bi[1][1]);
    IdentityTwo();
    Mul2(Bi, B);
    Mul2(B, Bi);
  }

  lemma IdentityTwo()
    ensures Identity(2) == [[1.0, 0.0], [0.0, 1.0]]
  {
    assert Unit(2, 0) == [1.0, 0.0];
    assert Unit(2, 1) == [0.0, 1.0];
  }

  /** A 2x2 matrix is invertible exactly when its determinant is nonzero. */
  lemma {:induction false} Invertible2(B: Mat)
    requires IsMatrix(B, 2, 2)
    ensures Invertible(B) <==> Det2(B) != 0.0
  {
    if Det2(B) != 0.0 {
      assert IsInverse(B, Inverse2(B));
    } else if Invertible(B) {
      var Bi :| IsInverse(B, Bi);
      var a, b, c, e := B[0][0], B[0][1], B[1][0], B[1][1];
      var z := Zeros(2);
      Dot2(Bi[0], z);
      Dot2(Bi[1], z);
      MulZero(Bi[0][0]);
      MulZero(Bi[0][1]);
      MulZero(Bi[1][0]);
      MulZero(Bi[1][1]);
      assert MatVec(Bi, z) == z;
      // a nonzero vector that B sends to zero, unless B is zero
      var k := if e != 0.0 || c != 0.0 then [e, -c] else [b, -a];
      Dot2(B[0], k);
      Dot2(B[1], k);
      MulNegate(b, c);
      MulNegate(e, c);
      MulCommutes(c, e);
      MulNegate(b, a);
      MulCommutes(a, b);
      MulNegate(e, a);
      MulZero(a);
      MulZero(b);
      var Bk := MatVec(B, k);
      assert Bk[0] == 0.0 && Bk[1] == 0.0;
      assert Bk == z;
      InverseSolves(B, Bi, z, k);
      Mul2(B, Bi);
      IdentityTwo();
    }
  }
}
