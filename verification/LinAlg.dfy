module LinAlg {
  import opened Gf

  type Vec = seq<GF>

  function VAdd(u: Vec, v: Vec): (r: Vec)
    requires |u| == |v|
    ensures |r| == |u|
  {
    seq(|u|, i requires 0 <= i < |u| => Add(u[i], v[i]))
  }

  function Scale(f: GF, u: Vec): (r: Vec)
    ensures |r| == |u|
  {
    seq(|u|, i requires 0 <= i < |u| => Mul(f, u[i]))
  }

  function Zeros(n: nat): (r: Vec)
    ensures |r| == n
  {
    seq(n, i => ZERO)
  }

  function Unit(k: nat, n: nat): (r: Vec)
    ensures |r| == n
  {
    seq(n, i => if i == k then ONE else ZERO)
  }

  function Dot(u: Vec, v: Vec): GF
    requires |u| == |v|
  {
    if |u| == 0 then ZERO else Add(Mul(u[0], v[0]), Dot(u[1..], v[1..]))
  }

  lemma {:induction false} DotAddLeft(u: Vec, w: Vec, v: Vec)
    requires |u| == |w| == |v|
    ensures Dot(VAdd(u, w), v) == Add(Dot(u, v), Dot(w, v))
  {
    hide Add, Mul;
    if |u| == 0 {
      AddZero(ZERO);
    } else {
      assert VAdd(u, w)[1..] == VAdd(u[1..], w[1..]);
      DotAddLeft(u[1..], w[1..], v[1..]);
      MulAddLeft(u[0], w[0], v[0]);
      Add4(Mul(u[0], v[0]), Mul(w[0], v[0]), Dot(u[1..], v[1..]), Dot(w[1..], v[1..]));
    }
  }

  lemma {:induction false} DotComm(u: Vec, v: Vec)
    requires |u| == |v|
    ensures Dot(u, v) == Dot(v, u)
  {
    hide Add, Mul;
    if |u| != 0 {
      DotComm(u[1..], v[1..]);
      MulComm(u[0], v[0]);
    }
  }

  lemma {:induction false} DotScaleLeft(f: GF, u: Vec, v: Vec)
    requires |u| == |v|
    ensures Dot(Scale(f, u), v) == Mul(f, Dot(u, v))
  {
    hide Add, Mul;
    if |u| == 0 {
      MulZeroRight(f);
    } else {
      assert Scale(f, u)[1..] == Scale(f, u[1..]);
      DotScaleLeft(f, u[1..], v[1..]);
      MulAssoc(f, u[0], v[0]);
      MulAddRight(f, Mul(u[0], v[0]), Dot(u[1..], v[1..]));
    }
  }

  lemma {:induction false} DotZeros(u: Vec, v: Vec)
    requires |u| == |v|
    requires u == Zeros(|u|)
    ensures Dot(u, v) == ZERO
  {
    hide Add, Mul;
    if |u| != 0 {
      assert u[1..] == Zeros(|u| - 1);
      DotZeros(u[1..], v[1..]);
      MulComm(ZERO, v[0]);
      MulZeroRight(v[0]);
      AddZero(ZERO);
    }
  }

  lemma {:induction false} DotUnit(k: nat, n: nat, v: Vec)
    requires k < n == |v|
    ensures Dot(Unit(k, n), v) == v[k]
  {
    hide Add, Mul;
    MulOneLeft(v[0]);
    MulComm(ZERO, v[0]);
    MulZeroRight(v[0]);
    if k == 0 {
      assert Unit(k, n)[1..] == Zeros(n - 1);
      DotZeros(Unit(k, n)[1..], v[1..]);
      AddZero(v[0]);
    } else {
      assert Unit(k, n)[1..] == Unit(k - 1, n - 1);
      DotUnit(k - 1, n - 1, v[1..]);
      AddZero(v[k]);
    }
  }

  lemma {:induction false} DotAppend(u: Vec, u': Vec, v: Vec, v': Vec)
    requires |u| == |v| && |u'| == |v'|
    ensures Dot(u + u', v + v') == Add(Dot(u, v), Dot(u', v'))
  {
    hide Add, Mul;
    if |u| == 0 {
      assert u + u' == u' && v + v' == v';
      AddZero(Dot(u', v'));
    } else {
      assert (u + u')[1..] == u[1..] + u' && (v + v')[1..] == v[1..] + v';
      DotAppend(u[1..], u', v[1..], v');
      AddAssoc(Mul(u[0], v[0]), Dot(u[1..], v[1..]), Dot(u', v'));
    }
  }

  // ------------------------------------------------------------- matrices

  type Mat = seq<Vec>

  predicate IsMat(m: Mat, rows: nat, cols: nat) {
    |m| == rows && forall i | 0 <= i < rows :: |m[i]| == cols
  }

  /** The combination of the rows of m with coefficients c. */
  function Comb(c: Vec, m: Mat, cols: nat): (r: Vec)
    requires IsMat(m, |c|, cols)
    ensures |r| == cols
  {
    if |c| == 0 then Zeros(cols) else VAdd(Scale(c[0], m[0]), Comb(c[1..], m[1..], cols))
  }

  function MatVec(m: Mat, u: Vec): (r: Vec)
    requires IsMat(m, |m|, |u|)
    ensures |r| == |m|
  {
    seq(|m|, i requires 0 <= i < |m| => Dot(m[i], u))
  }

  lemma {:induction false} CombDot(c: Vec, m: Mat, u: Vec)
    requires IsMat(m, |c|, |u|)
    ensures Dot(Comb(c, m, |u|), u) == Dot(c, MatVec(m, u))
  {
    hide Add, Mul;
    if |c| == 0 {
      DotZeros(Zeros(|u|), u);
    } else {
      assert MatVec(m, u)[1..] == MatVec(m[1..], u);
      CombDot(c[1..], m[1..], u);
      DotAddLeft(Scale(c[0], m[0]), Comb(c[1..], m[1..], |u|), u);
      DotScaleLeft(c[0], m[0], u);
    }
  }

  lemma VAdd4(a: Vec, b: Vec, c: Vec, d: Vec)
    requires |a| == |b| == |c| == |d|
    ensures VAdd(VAdd(a, b), VAdd(c, d)) == VAdd(VAdd(a, c), VAdd(b, d))
  {
    hide Add;
    forall i | 0 <= i < |a|
      ensures Add(Add(a[i], b[i]), Add(c[i], d[i])) == Add(Add(a[i], c[i]), Add(b[i], d[i]))
    {
      Add4(a[i], b[i], c[i], d[i]);
    }
  }

  lemma ScaleSum(f: GF, g: GF, u: Vec)
    ensures Scale(Add(f, g), u) == VAdd(Scale(f, u), Scale(g, u))
  {
    hide Add, Mul;
    forall i | 0 <= i < |u| ensures Mul(Add(f, g), u[i]) == Add(Mul(f, u[i]), Mul(g, u[i])) {
      MulAddLeft(f, g, u[i]);
    }
  }

  lemma ScaleVAdd(f: GF, u: Vec, v: Vec)
    requires |u| == |v|
    ensures Scale(f, VAdd(u, v)) == VAdd(Scale(f, u), Scale(f, v))
  {
    hide Add, Mul;
    forall i | 0 <= i < |u| ensures Mul(f, Add(u[i], v[i])) == Add(Mul(f, u[i]), Mul(f, v[i])) {
      MulAddRight(f, u[i], v[i]);
    }
  }

  lemma ScaleScale(f: GF, g: GF, u: Vec)
    ensures Scale(Mul(f, g), u) == Scale(f, Scale(g, u))
  {
    hide Mul;
    forall i | 0 <= i < |u| ensures Mul(Mul(f, g), u[i]) == Mul(f, Mul(g, u[i])) {
      MulAssoc(f, g, u[i]);
    }
  }

  lemma VAddZeros(u: Vec)
    ensures VAdd(u, Zeros(|u|)) == u && VAdd(Zeros(|u|), u) == u
  {
    hide Add;
    forall i | 0 <= i < |u| ensures Add(u[i], ZERO) == u[i] && Add(ZERO, u[i]) == u[i] {
      AddZero(u[i]);
    }
  }

  lemma ScaleZeros(f: GF, n: nat)
    ensures Scale(f, Zeros(n)) == Zeros(n)
  {
    hide Mul;
    MulZeroRight(f);
  }

  lemma ScaleByZero(u: Vec)
    ensures Scale(ZERO, u) == Zeros(|u|)
  {
    hide Mul;
    forall i | 0 <= i < |u| ensures Mul(ZERO, u[i]) == ZERO {
      MulComm(ZERO, u[i]);
      MulZeroRight(u[i]);
    }
  }

  lemma ScaleByOne(u: Vec)
    ensures Scale(ONE, u) == u
  {
    hide Mul;
    forall i | 0 <= i < |u| ensures Mul(ONE, u[i]) == u[i] { MulOneLeft(u[i]); }
  }

  lemma {:induction false} CombAdd(c: Vec, d: Vec, m: Mat, cols: nat)
    requires |c| == |d| && IsMat(m, |c|, cols)
    ensures Comb(VAdd(c, d), m, cols) == VAdd(Comb(c, m, cols), Comb(d, m, cols))
  {
    hide Add, Mul;
    if |c| == 0 {
      VAddZeros(Zeros(cols));
    } else {
      assert VAdd(c, d)[1..] == VAdd(c[1..], d[1..]);
      CombAdd(c[1..], d[1..], m[1..], cols);
      ScaleSum(c[0], d[0], m[0]);
      VAdd4(Scale(c[0], m[0]), Scale(d[0], m[0]), Comb(c[1..], m[1..], cols), Comb(d[1..], m[1..], cols));
    }
  }

  lemma {:induction false} CombScale(f: GF, c: Vec, m: Mat, cols: nat)
    requires IsMat(m, |c|, cols)
    ensures Comb(Scale(f, c), m, cols) == Scale(f, Comb(c, m, cols))
  {
    hide Add, Mul;
    if |c| == 0 {
      ScaleZeros(f, cols);
    } else {
      assert Scale(f, c)[1..] == Scale(f, c[1..]);
      CombScale(f, c[1..], m[1..], cols);
      ScaleScale(f, c[0], m[0]);
      ScaleVAdd(f, Scale(c[0], m[0]), Comb(c[1..], m[1..], cols));
    }
  }

  lemma {:induction false} CombZeros(n: nat, m: Mat, cols: nat)
    requires IsMat(m, n, cols)
    ensures Comb(Zeros(n), m, cols) == Zeros(cols)
  {
    hide Add, Mul;
    if n != 0 {
      assert Zeros(n)[1..] == Zeros(n - 1);
      CombZeros(n - 1, m[1..], cols);
      ScaleByZero(m[0]);
      VAddZeros(Zeros(cols));
    }
  }

  lemma {:induction false} CombUnit(k: nat, n: nat, m: Mat, cols: nat)
    requires k < n && IsMat(m, n, cols)
    ensures Comb(Unit(k, n), m, cols) == m[k]
  {
    hide Add, Mul;
    if k == 0 {
      assert Unit(k, n)[1..] == Zeros(n - 1);
      CombZeros(n - 1, m[1..], cols);
      ScaleByOne(m[0]);
      VAddZeros(m[0]);
    } else {
      assert Unit(k, n)[1..] == Unit(k - 1, n - 1);
      CombUnit(k - 1, n - 1, m[1..], cols);
      ScaleByZero(m[0]);
      VAddZeros(m[k]);
    }
  }

  /** v is a left inverse of m. */
  predicate LeftInverse(v: Mat, m: Mat, n: nat)
  {
    IsMat(v, n, n) && IsMat(m, n, n) && forall i | 0 <= i < n :: Comb(v[i], m, n) == Unit(i, n)
  }

  /** Applying a left inverse to m * u gives u back. */
  lemma SolveRow(v: Mat, m: Mat, n: nat, u: Vec, i: nat)
    requires LeftInverse(v, m, n) && |u| == n && i < n
    ensures Dot(v[i], MatVec(m, u)) == u[i]
  {
    hide Add, Mul, Dot, Comb, MatVec, Unit;
    CombDot(v[i], m, u);
    DotUnit(i, n, u);
  }
}
