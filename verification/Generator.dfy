module Generator {
  import opened Gf
  import opened LinAlg

  // ------------------------------------------------------ Cauchy matrices

  /** The row 1/(x + y) of a Cauchy matrix. */
  function Recip(xs: Vec, y: GF): (r: Vec)
    ensures |r| == |xs|
  {
    seq(|xs|, i requires 0 <= i < |xs| => Inv(Add(xs[i], y)))
  }

  function Ones(n: nat): (r: Vec)
    ensures |r| == n
  {
    seq(n, i => ONE)
  }

  predicate Distinct(s: Vec) {
    forall i, j | 0 <= i < j < |s| :: s[i] != s[j]
  }

  predicate Apart(xs: Vec, ys: Vec) {
    forall i, j | 0 <= i < |xs| && 0 <= j < |ys| :: xs[i] != ys[j]
  }

  /** c/b == 1 + (b + c)/b, scaled by w. */
  lemma PartialFraction(w: GF, b: GF, c: GF)
    requires b != ZERO
    ensures Mul(c, Mul(w, Inv(b))) == Add(w, Mul(Mul(w, Add(b, c)), Inv(b)))
  {
    hide Add, Mul, Inv;
    var r := Inv(b);
    calc {
      Mul(Mul(w, Add(b, c)), r);
      { MulAddRight(w, b, c); MulAddLeft(Mul(w, b), Mul(w, c), r); }
      Add(Mul(Mul(w, b), r), Mul(Mul(w, c), r));
      { MulAssoc(w, b, r); MulInv(b); MulOneRight(w); }
      Add(w, Mul(Mul(w, c), r));
      { MulComm(w, c); MulAssoc(c, w, r); }
      Add(w, Mul(c, Mul(w, r)));
    }
    AddCancel(w, Mul(c, Mul(w, r)));
  }

  /** w[i] * (xs[i] + x0). */
  function Stretch(w: Vec, xs: Vec, x0: GF): (r: Vec)
    requires |w| == |xs|
    ensures |r| == |w|
  {
    seq(|w|, i requires 0 <= i < |w| => Mul(w[i], Add(xs[i], x0)))
  }

  lemma AddThird(x: GF, y: GF, z: GF)
    ensures Add(Add(x, y), Add(z, y)) == Add(x, z)
  {
    hide Add;
    AddComm(z, y);
    AddAssoc(x, y, Add(y, z));
    AddCancel(y, z);
  }

  lemma {:induction false} StretchDot(w: Vec, xs: Vec, z: GF, y: GF)
    requires |w| == |xs| && y !in xs
    ensures Mul(Add(z, y), Dot(w, Recip(xs, y))) == Add(Dot(w, Ones(|w|)), Dot(Stretch(w, xs, z), Recip(xs, y)))
  {
    hide Add, Mul, Inv;
    if |w| == 0 {
      MulZeroRight(Add(z, y));
      AddZero(ZERO);
    } else {
      var s := Stretch(w, xs, z);
      var r := Recip(xs, y);
      var c := Add(z, y);
      var b := Add(xs[0], y);
      assert r[1..] == Recip(xs[1..], y) && Ones(|w|)[1..] == Ones(|w| - 1) && s[1..] == Stretch(w[1..], xs[1..], z);
      StretchDot(w[1..], xs[1..], z, y);
      if b == ZERO { AddEqZero(xs[0], y); }
      PartialFraction(w[0], b, c);
      AddThird(xs[0], y, z);
      MulAddRight(c, Mul(w[0], r[0]), Dot(w[1..], r[1..]));
      MulOneRight(w[0]);
      Add4(w[0], Mul(s[0], r[0]), Dot(w[1..], Ones(|w| - 1)), Dot(s[1..], r[1..]));
    }
  }

  lemma AddNonzero(a: GF, b: GF)
    requires a != b
    ensures Add(a, b) != ZERO
  {
    hide Add;
    if Add(a, b) == ZERO { AddEqZero(a, b); }
  }

  lemma StretchZero(w: Vec, xs: Vec, x0: GF)
    requires |w| == |xs| && x0 !in xs && Stretch(w, xs, x0) == Zeros(|w|)
    ensures w == Zeros(|w|)
  {
    hide Add, Mul;
    forall i | 0 <= i < |w| ensures w[i] == ZERO {
      assert Stretch(w, xs, x0)[i] == ZERO;
      AddNonzero(xs[i], x0);
      MulComm(w[i], Add(xs[i], x0));
      NoZeroDivisors(Add(xs[i], x0), w[i]);
    }
  }

  /** u[i] / (xs[i] + y). */
  function Shrink(u: Vec, xs: Vec, y: GF): (r: Vec)
    requires |u| == |xs|
    ensures |r| == |u|
  {
    seq(|u|, i requires 0 <= i < |u| => Mul(u[i], Inv(Add(xs[i], y))))
  }

  lemma StretchShrink(u: Vec, xs: Vec, y: GF)
    requires |u| == |xs| && y !in xs
    ensures Stretch(Shrink(u, xs, y), xs, y) == u
  {
    hide Add, Mul, Inv;
    var s := Shrink(u, xs, y);
    forall i | 0 <= i < |u| ensures Mul(s[i], Add(xs[i], y)) == u[i] {
      var b := Add(xs[i], y);
      AddNonzero(xs[i], y);
      MulAssoc(u[i], Inv(b), b);
      MulInv(b);
      MulOneRight(u[i]);
    }
  }

  lemma {:induction false} ShrinkSum(u: Vec, xs: Vec, y: GF)
    requires |u| == |xs|
    ensures Dot(Shrink(u, xs, y), Ones(|u|)) == Dot(u, Recip(xs, y))
  {
    hide Add, Mul, Inv;
    if |u| != 0 {
      assert Shrink(u, xs, y)[1..] == Shrink(u[1..], xs[1..], y);
      assert Ones(|u|)[1..] == Ones(|u| - 1) && Recip(xs, y)[1..] == Recip(xs[1..], y);
      ShrinkSum(u[1..], xs[1..], y);
      MulOneRight(Shrink(u, xs, y)[0]);
    }
  }

  /** A square Cauchy matrix has no nonzero kernel vector. */
  lemma {:induction false} CauchyKernel(xs: Vec, ys: Vec, u: Vec)
    requires |xs| == |ys| == |u| && Distinct(xs) && Distinct(ys) && Apart(xs, ys)
    requires forall j | 0 <= j < |ys| :: Dot(u, Recip(xs, ys[j])) == ZERO
    ensures u == Zeros(|u|)
    decreases |xs|, 1
  {
    hide Add, Mul, Inv, Dot;
    if |xs| != 0 {
      var y0 := ys[0];
      var w := Shrink(u, xs, y0);
      ShrinkSum(u, xs, y0);
      StretchShrink(u, xs, y0);
      forall j | 0 <= j < |ys| - 1 ensures Dot(w, Recip(xs, ys[1..][j])) == ZERO {
        var y := ys[j + 1];
        assert Dot(u, Recip(xs, y)) == ZERO;
        StretchDot(w, xs, y0, y);
        AddNonzero(y0, y);
        MulZeroFrom(Add(y0, y), Dot(w, Recip(xs, y)));
      }
      ExtendedCauchyKernel(xs, ys[1..], w);
      StretchZeros(w, xs, y0);
    }
  }

  lemma MulZeroFrom(c: GF, d: GF)
    requires c != ZERO && Mul(c, d) == Add(ZERO, ZERO)
    ensures d == ZERO
  {
    hide Mul, Add;
    AddZero(ZERO);
    NoZeroDivisors(c, d);
  }

  lemma StretchZeros(w: Vec, xs: Vec, z: GF)
    requires |w| == |xs| && w == Zeros(|w|)
    ensures Stretch(w, xs, z) == Zeros(|w|)
  {
    hide Mul, Add;
    forall i | 0 <= i < |w| ensures Mul(w[i], Add(xs[i], z)) == ZERO {
      MulComm(ZERO, Add(xs[i], z));
      MulZeroRight(Add(xs[i], z));
    }
  }

  /** Nor does one extended with a row of ones. */
  lemma {:induction false} ExtendedCauchyKernel(xs: Vec, ys: Vec, w: Vec)
    requires |xs| == |w| == |ys| + 1 && Distinct(xs) && Distinct(ys) && Apart(xs, ys)
    requires Dot(w, Ones(|w|)) == ZERO
    requires forall j | 0 <= j < |ys| :: Dot(w, Recip(xs, ys[j])) == ZERO
    ensures w == Zeros(|w|)
    decreases |xs|, 0
  {
    hide Add, Mul, Inv;
    var x0, xs', w' := xs[0], xs[1..], w[1..];
    var s := Stretch(w', xs', x0);
    forall j | 0 <= j < |ys| ensures Dot(s, Recip(xs', ys[j])) == ZERO {
      DropColumn(xs, ys[j], w);
    }
    assert x0 !in xs';
    CauchyKernel(xs', ys, s);
    StretchZero(w', xs', x0);
    assert Ones(|w|)[1..] == Ones(|w'|);
    DotZeros(w', Ones(|w'|));
    MulOneRight(w[0]);
    AddZero(w[0]);
  }

  lemma DropColumn(xs: Vec, y: GF, w: Vec)
    requires |xs| == |w| > 0 && y !in xs
    requires Dot(w, Ones(|w|)) == ZERO && Dot(w, Recip(xs, y)) == ZERO
    ensures Dot(Stretch(w[1..], xs[1..], xs[0]), Recip(xs[1..], y)) == ZERO
  {
    hide Add, Mul, Inv;
    StretchDot(w, xs, xs[0], y);
    var s := Stretch(w, xs, xs[0]);
    assert s[1..] == Stretch(w[1..], xs[1..], xs[0]) && Recip(xs, y)[1..] == Recip(xs[1..], y);
    AddZero(xs[0]);
    MulZeroRight(w[0]);
    assert s[0] == ZERO;
    MulComm(ZERO, Recip(xs, y)[0]);
    MulZeroRight(Recip(xs, y)[0]);
    MulZeroRight(Add(xs[0], y));
    AddZero(Dot(s[1..], Recip(xs, y)[1..]));
    AddZero(Dot(s, Recip(xs, y)));
  }

  // -------------------------------------------------- the parity generator

  /** raid_mode(): which of the two generator tables is in force. */
  datatype Mode = Cauchy | Vandermonde

  const RAID_PARITY_MAX := 6
  const RAID_DATA_MAX := 251

  function MaxParity(mode: Mode): nat { if mode.Cauchy? then RAID_PARITY_MAX else 3 }

  function Pow2(v: nat): GF { Pow(TWO, v) }

  /** The column points 2^-d and the row points 0, 2, 4, 8, 16 of the Cauchy rows. */
  function ColPoint(d: nat): GF { Inv(Pow2(d)) }
  function RowPoint(p: nat): GF
    requires p >= 1
  {
    if p == 1 then ZERO else Pow2(p - 1)
  }

  /** The generator coefficient of parity p and disk d. */
  function A(mode: Mode, p: nat, d: nat): GF
  {
    if p == 0 then ONE
    else if p == 1 then Pow2(d)
    else match mode
      case Cauchy => Mul(Add(ONE, RowPoint(p)), Inv(Add(ColPoint(d), RowPoint(p))))
      case Vandermonde => ColPoint(d)
  }

  lemma ColPointPow(d: nat)
    requires d <= 255
    ensures ColPoint(d) == Pow2(255 - d)
  {
    hide Mul, Pow, Inv;
    var x := Pow2(d);
    PowAdd(TWO, d, 255 - d);
    Pow255(TWO);
    PowNonzero(TWO, d);
    MulInv(x);
    MulAssoc(Inv(x), x, Pow2(255 - d));
    MulOneLeft(Pow2(255 - d));
    MulOneRight(Inv(x));
  }

  lemma Pow2Differ(i: nat, j: nat)
    requires i < 255 && j < 255 && i != j
    ensures Pow2(i) != Pow2(j)
  {
    hide Pow;
    if i < j { Pow2Distinct(i, j); } else { Pow2Distinct(j, i); }
  }

  lemma ColPointsDiffer(c: nat, d: nat)
    requires c < RAID_DATA_MAX && d < RAID_DATA_MAX && c != d
    ensures ColPoint(c) != ColPoint(d)
  {
    hide Pow, Inv;
    ColPointPow(c);
    ColPointPow(d);
    Pow255(TWO);
    PowZero(TWO);
    Pow2Differ((255 - c) % 255, (255 - d) % 255);
  }

  lemma PointsApart(d: nat, p: nat)
    requires d < RAID_DATA_MAX && 1 <= p < RAID_PARITY_MAX
    ensures ColPoint(d) != RowPoint(p)
  {
    hide Pow, Inv;
    ColPointPow(d);
    if p == 1 {
      PowNonzero(TWO, 255 - d);
    } else {
      Pow255(TWO);
      PowZero(TWO);
      Pow2Differ((255 - d) % 255, p - 1);
    }
  }

  lemma RowPointsDiffer(p: nat, q: nat)
    requires 1 <= p < q < RAID_PARITY_MAX
    ensures RowPoint(p) != RowPoint(q)
  {
    hide Pow;
    if p == 1 { PowNonzero(TWO, q - 1); } else { Pow2Differ(p - 1, q - 1); }
  }

  /** The power row is the Cauchy row of the point 0. */
  lemma PowerRowIsCauchy(d: nat)
    ensures Pow2(d) == Inv(Add(ColPoint(d), ZERO))
  {
    hide Mul, Pow, Inv, Add;
    var x := Pow2(d);
    AddZero(ColPoint(d));
    PowNonzero(TWO, d);
    InvNonzero(x);
    MulInv(x);
    var r := Inv(x);
    MulInv(r);
    MulAssoc(x, r, Inv(r));
    MulOneLeft(Inv(r));
    MulOneRight(x);
  }

  predicate Increasing(s: seq<nat>) {
    forall i, j | 0 <= i < j < |s| :: s[i] < s[j]
  }

  predicate Below(s: seq<nat>, n: nat) {
    forall i | 0 <= i < |s| :: s[i] < n
  }

  lemma {:induction false} IncreasingAt(s: seq<nat>, i: nat)
    requires Increasing(s) && i < |s|
    ensures s[i] >= i
  {
    if i > 0 {
      IncreasingAt(s, i - 1);
      assert s[i - 1] < s[i];
    }
  }

  lemma IncreasingLength(s: seq<nat>, n: nat)
    requires Increasing(s) && Below(s, n)
    ensures |s| <= n
  {
    if |s| > n { IncreasingAt(s, n); }
  }

  /** The submatrix of the generator with rows ip and columns id. */
  function Sub(mode: Mode, ip: seq<nat>, id: seq<nat>): (m: Mat)
    ensures IsMat(m, |ip|, |id|)
  {
    seq(|ip|, j requires 0 <= j < |ip| => seq(|id|, k requires 0 <= k < |id| => A(mode, ip[j], id[k])))
  }

  ghost predicate Nonsingular(m: Mat, n: nat) {
    IsMat(m, n, n) && forall u: Vec | |u| == n && MatVec(m, u) == Zeros(n) :: u == Zeros(n)
  }

  function ColPoints(id: seq<nat>): (r: Vec)
    ensures |r| == |id|
  {
    seq(|id|, k requires 0 <= k < |id| => ColPoint(id[k]))
  }

  function RowPoints(ip: seq<nat>): (r: Vec)
    requires forall j | 0 <= j < |ip| :: ip[j] >= 1
    ensures |r| == |ip|
  {
    seq(|ip|, j requires 0 <= j < |ip| => RowPoint(ip[j]))
  }

  lemma PointSets(ip: seq<nat>, id: seq<nat>)
    requires Increasing(ip) && Below(ip, RAID_PARITY_MAX) && Increasing(id) && Below(id, RAID_DATA_MAX)
    requires forall j | 0 <= j < |ip| :: ip[j] >= 1
    ensures Distinct(ColPoints(id)) && Distinct(RowPoints(ip)) && Apart(ColPoints(id), RowPoints(ip))
  {
    hide ColPoint, RowPoint;
    forall i, j | 0 <= i < j < |id| ensures ColPoint(id[i]) != ColPoint(id[j]) { ColPointsDiffer(id[i], id[j]); }
    forall i, j | 0 <= i < j < |ip| ensures RowPoint(ip[i]) != RowPoint(ip[j]) { RowPointsDiffer(ip[i], ip[j]); }
    forall i, j | 0 <= i < |id| && 0 <= j < |ip| ensures ColPoint(id[i]) != RowPoint(ip[j]) { PointsApart(id[i], ip[j]); }
  }

  /** Row p >= 1 of the Cauchy generator is a nonzero multiple of its Cauchy row. */
  lemma CauchyRow(p: nat, id: seq<nat>, u: Vec)
    requires 1 <= p < RAID_PARITY_MAX && |u| == |id|
    requires Dot(Sub(Cauchy, [p], id)[0], u) == ZERO
    ensures Dot(u, Recip(ColPoints(id), RowPoint(p))) == ZERO
  {
    hide Mul, Add, Inv, Pow2, Dot;
    var r := Recip(ColPoints(id), RowPoint(p));
    var row := Sub(Cauchy, [p], id)[0];
    var f := Add(ONE, RowPoint(p));
    if p == 1 {
      forall k | 0 <= k < |id| ensures row[k] == r[k] { PowerRowIsCauchy(id[k]); }
      assert row == r;
      DotComm(row, u);
    } else {
      assert row == Scale(f, r);
      DotScaleLeft(f, r, u);
      DotComm(r, u);
      RowFactor(p);
      NoZeroDivisors(f, Dot(r, u));
    }
  }

  lemma RowFactor(p: nat)
    requires 2 <= p < RAID_PARITY_MAX
    ensures Add(ONE, RowPoint(p)) != ZERO
  {
    hide Add, Pow;
    PowZero(TWO);
    Pow2Differ(0, p - 1);
    AddNonzero(ONE, RowPoint(p));
  }

  lemma RowOfSub(mode: Mode, ip: seq<nat>, id: seq<nat>, j: nat)
    requires j < |ip|
    ensures Sub(mode, ip, id)[j] == Sub(mode, [ip[j]], id)[0]
  {}

  /** Every square submatrix of the Cauchy generator is nonsingular. */
  lemma CauchyMds(ip: seq<nat>, id: seq<nat>)
    requires |ip| == |id| && Increasing(ip) && Increasing(id)
    requires Below(ip, RAID_PARITY_MAX) && Below(id, RAID_DATA_MAX)
    ensures Nonsingular(Sub(Cauchy, ip, id), |ip|)
  {
    var m := Sub(Cauchy, ip, id);
    forall u: Vec | |u| == |ip| && MatVec(m, u) == Zeros(|ip|) ensures u == Zeros(|ip|) {
      CauchySubKernel(ip, id, u);
    }
  }

  lemma CauchySubKernel(ip: seq<nat>, id: seq<nat>, u: Vec)
    requires |ip| == |id| == |u| && Increasing(ip) && Increasing(id)
    requires Below(ip, RAID_PARITY_MAX) && Below(id, RAID_DATA_MAX)
    requires MatVec(Sub(Cauchy, ip, id), u) == Zeros(|ip|)
    ensures u == Zeros(|u|)
  {
    hide Mul, Add, Inv, Pow2, Dot, RowPoint, ColPoint, Recip;
    if |ip| != 0 {
      var m := Sub(Cauchy, ip, id);
      assert forall j | 0 <= j < |ip| :: MatVec(m, u)[j] == Dot(m[j], u);
      var xs := ColPoints(id);
      if ip[0] == 0 {
        var ys := RowPoints(ip[1..]);
        PointSets(ip[1..], id);
        assert m[0] == Ones(|u|);
        DotComm(m[0], u);
        forall j | 0 <= j < |ys| ensures Dot(u, Recip(xs, ys[j])) == ZERO {
          RowOfSub(Cauchy, ip, id, j + 1);
          CauchyRow(ip[j + 1], id, u);
        }
        ExtendedCauchyKernel(xs, ys, u);
      } else {
        var ys := RowPoints(ip);
        PointSets(ip, id);
        forall j | 0 <= j < |ys| ensures Dot(u, Recip(xs, ys[j])) == ZERO {
          RowOfSub(Cauchy, ip, id, j);
          CauchyRow(ip[j], id, u);
        }
        CauchyKernel(xs, ys, u);
      }
    }
  }

  // ------------------------------------------------ powers of 1, 2, 1/2

  lemma Cramer(a0: GF, a1: GF, b0: GF, b1: GF, u0: GF, u1: GF)
    requires Add(Mul(a0, u0), Mul(a1, u1)) == ZERO && Add(Mul(b0, u0), Mul(b1, u1)) == ZERO
    requires Mul(a0, b1) != Mul(a1, b0)
    ensures u0 == ZERO
  {
    hide Add, Mul;
    AddEqZero(Mul(a0, u0), Mul(a1, u1));
    AddEqZero(Mul(b0, u0), Mul(b1, u1));
    calc {
      Mul(Mul(a0, b1), u0);
      { MulComm(a0, b1); MulAssoc(b1, a0, u0); }
      Mul(b1, Mul(a1, u1));
      { MulAssoc(b1, a1, u1); MulComm(b1, a1); MulAssoc(a1, b1, u1); }
      Mul(a1, Mul(b0, u0));
      { MulAssoc(a1, b0, u0); }
      Mul(Mul(a1, b0), u0);
    }
    MulAddLeft(Mul(a0, b1), Mul(a1, b0), u0);
    AddZero(Mul(Mul(a0, b1), u0));
    AddNonzero(Mul(a0, b1), Mul(a1, b0));
    NoZeroDivisors(Add(Mul(a0, b1), Mul(a1, b0)), u0);
  }

  lemma Kernel2(a0: GF, a1: GF, b0: GF, b1: GF, u0: GF, u1: GF)
    requires Add(Mul(a0, u0), Mul(a1, u1)) == ZERO && Add(Mul(b0, u0), Mul(b1, u1)) == ZERO
    requires Mul(a0, b1) != Mul(a1, b0)
    ensures u0 == ZERO && u1 == ZERO
  {
    hide Add, Mul;
    Cramer(a0, a1, b0, b1, u0, u1);
    AddComm(Mul(a0, u0), Mul(a1, u1));
    AddComm(Mul(b0, u0), Mul(b1, u1));
    Cramer(a1, a0, b1, b0, u1, u0);
  }

  lemma Dot1(u: Vec, v: Vec)
    requires |u| == |v| == 1
    ensures Dot(u, v) == Mul(u[0], v[0])
  {
    hide Add, Mul;
    assert Dot(u[1..], v[1..]) == ZERO;
    AddZero(Mul(u[0], v[0]));
  }

  lemma Dot2(u: Vec, v: Vec)
    requires |u| == |v| == 2
    ensures Dot(u, v) == Add(Mul(u[0], v[0]), Mul(u[1], v[1]))
  {
    hide Add, Mul;
    Dot1(u[1..], v[1..]);
  }

  lemma Cancel(g: GF, a: GF, b: GF)
    requires g != ZERO && Mul(g, a) == Mul(g, b)
    ensures a == b
  {
    hide Add, Mul;
    MulAddRight(g, a, b);
    AddZero(Mul(g, a));
    NoZeroDivisors(g, Add(a, b));
    AddEqZero(a, b);
  }

  /** g*h' != g'*h for distinct powers g, g' of two with inverses h, h'. */
  lemma CrossDiffer(c: nat, d: nat)
    requires c < d < RAID_DATA_MAX
    ensures Mul(Pow2(c), ColPoint(d)) != Mul(Pow2(d), ColPoint(c))
  {
    hide Mul, Add, Inv, Pow;
    var g, g', h, h' := Pow2(c), Pow2(d), ColPoint(c), ColPoint(d);
    PowNonzero(TWO, c);
    PowNonzero(TWO, d);
    MulInv(g);
    MulInv(g');
    Pow2Distinct(c, d);
    if Mul(g, h') == Mul(g', h) {
      calc {
        Mul(g, g);
        { MulOneRight(Mul(g, g)); }
        Mul(Mul(g, g), Mul(g', h'));
        { MulComm(g', h'); Mul4(g, g, h', g'); }
        Mul(Mul(g', h), Mul(g, g'));
        { MulComm(g, g'); Mul4(g', h, g', g); }
        Mul(Mul(g', g'), Mul(h, g));
        { MulOneRight(Mul(g', g')); }
        Mul(g', g');
      }
      SqAdd(g, g');
      AddZero(Sq(g));
      AddNonzero(g, g');
      NoZeroDivisors(Add(g, g'), Add(g, g'));
    }
  }

  lemma VandermondeEntry(p: nat, d: nat)
    requires p < 3
    ensures A(Vandermonde, p, d) != ZERO
  {
    hide Mul, Add, Inv, Pow;
    PowNonzero(TWO, d);
    InvNonzero(Pow2(d));
  }

  lemma VandermondeDet(p: nat, q: nat, c: nat, d: nat)
    requires p < q < 3 && c < d < RAID_DATA_MAX
    ensures Mul(A(Vandermonde, p, c), A(Vandermonde, q, d)) != Mul(A(Vandermonde, p, d), A(Vandermonde, q, c))
  {
    hide Mul, Add, Inv, Pow2, ColPoint;
    if p == 0 {
      MulOneLeft(A(Vandermonde, q, d));
      MulOneLeft(A(Vandermonde, q, c));
      if q == 1 { Pow2Differ(c, d); } else { ColPointsDiffer(c, d); }
    } else {
      CrossDiffer(c, d);
    }
  }

  lemma VandermondeKernel1(p: nat, d: nat, u: Vec)
    requires p < 3 && |u| == 1 && Dot(Sub(Vandermonde, [p], [d])[0], u) == ZERO
    ensures u == Zeros(1)
  {
    hide A;
    VandermondeEntry(p, d);
    Dot1(Sub(Vandermonde, [p], [d])[0], u);
    hide Mul;
    NoZeroDivisors(A(Vandermonde, p, d), u[0]);
  }

  lemma VandermondeKernel2(p: nat, q: nat, id: seq<nat>, u: Vec)
    requires p < q < 3 && |u| == |id| == 2 && id[0] < id[1] < RAID_DATA_MAX
    requires Dot(Sub(Vandermonde, [p], id)[0], u) == ZERO && Dot(Sub(Vandermonde, [q], id)[0], u) == ZERO
    ensures u == Zeros(2)
  {
    hide A, Mul, Add, Dot;
    var a, b := Sub(Vandermonde, [p], id)[0], Sub(Vandermonde, [q], id)[0];
    Dot2(a, u);
    Dot2(b, u);
    VandermondeDet(p, q, id[0], id[1]);
    Kernel2(a[0], a[1], b[0], b[1], u[0], u[1]);
  }

  /** Row 1 plus g times row r, without the column this clears. */
  lemma DropFirst(g: GF, r: Vec, s: Vec, u: Vec)
    requires |r| == |s| == |u| == 3 && Mul(g, s[0]) == r[0]
    requires Dot(r, u) == ZERO && Dot(s, u) == ZERO
    ensures Add(Mul(Add(r[1], Mul(g, s[1])), u[1]), Mul(Add(r[2], Mul(g, s[2])), u[2])) == ZERO
  {
    hide Add, Mul, Dot;
    var t := VAdd(r, Scale(g, s));
    DotAddLeft(r, Scale(g, s), u);
    DotScaleLeft(g, s, u);
    MulZeroRight(g);
    AddZero(ZERO);
    AddZero(r[0]);
    assert t[0] == ZERO;
    DotStep(t, u);
    MulComm(ZERO, u[0]);
    MulZeroRight(u[0]);
    AddZero(Dot(t[1..], u[1..]));
    Dot2(t[1..], u[1..]);
  }

  lemma DotStep(u: Vec, v: Vec)
    requires |u| == |v| > 0
    ensures Dot(u, v) == Add(Mul(u[0], v[0]), Dot(u[1..], v[1..]))
  {}

  /** 1 + g0*h == h*(g + g0) when h is the inverse of g. */
  lemma InverseStep(c: nat, d: nat)
    ensures Add(ONE, Mul(Pow2(c), ColPoint(d))) == Mul(ColPoint(d), Add(Pow2(d), Pow2(c)))
  {
    hide Mul, Add, Inv, Pow;
    PowNonzero(TWO, d);
    MulInv(Pow2(d));
    MulAddRight(ColPoint(d), Pow2(d), Pow2(c));
    MulComm(ColPoint(d), Pow2(c));
  }

  /** The two equations left of a 3x3 system once its first column is cleared. */
  lemma VandermondeReduce(id: seq<nat>, u: Vec)
    requires |u| == |id| == 3
    requires forall p: nat | p < 3 :: Dot(Sub(Vandermonde, [p], id)[0], u) == ZERO
    ensures var s, t := Add(Pow2(id[1]), Pow2(id[0])), Add(Pow2(id[2]), Pow2(id[0]));
      && Add(Mul(Mul(ColPoint(id[1]), s), u[1]), Mul(Mul(ColPoint(id[2]), t), u[2])) == ZERO
      && Add(Mul(s, u[1]), Mul(t, u[2])) == ZERO
  {
    hide Mul, Add, Inv, Pow2, ColPoint, Dot;
    var r0, r1, r2 := Sub(Vandermonde, [0], id)[0], Sub(Vandermonde, [1], id)[0], Sub(Vandermonde, [2], id)[0];
    var g0 := Pow2(id[0]);
    InverseOfPower(id[0]);
    DropFirst(g0, r0, r2, u);
    MulOneRight(g0);
    DropFirst(g0, r1, r0, u);
    InverseStep(id[0], id[1]);
    InverseStep(id[0], id[2]);
  }

  lemma VandermondeKernel3(id: seq<nat>, u: Vec)
    requires |u| == |id| == 3 && Increasing(id) && Below(id, RAID_DATA_MAX)
    requires forall p: nat | p < 3 :: Dot(Sub(Vandermonde, [p], id)[0], u) == ZERO
    ensures u == Zeros(3)
  {
    hide Mul, Add, Inv, Pow2, ColPoint, Dot;
    VandermondeReduce(id, u);
    VandermondeTail(id, u[1], u[2]);
    var r0 := Sub(Vandermonde, [0], id)[0];
    DotStep(r0, u);
    assert u[1..] == Zeros(2);
    DotComm(r0[1..], u[1..]);
    DotZeros(u[1..], r0[1..]);
    MulOneLeft(u[0]);
    AddZero(u[0]);
  }

  lemma VandermondeTail(id: seq<nat>, u1: GF, u2: GF)
    requires |id| == 3 && Increasing(id) && Below(id, RAID_DATA_MAX)
    requires var s, t := Add(Pow2(id[1]), Pow2(id[0])), Add(Pow2(id[2]), Pow2(id[0]));
      && Add(Mul(Mul(ColPoint(id[1]), s), u1), Mul(Mul(ColPoint(id[2]), t), u2)) == ZERO
      && Add(Mul(s, u1), Mul(t, u2)) == ZERO
    ensures u1 == ZERO && u2 == ZERO
  {
    hide Mul, Add, Inv, Pow2, ColPoint;
    var g0, g1, g2 := Pow2(id[0]), Pow2(id[1]), Pow2(id[2]);
    var h1, h2 := ColPoint(id[1]), ColPoint(id[2]);
    var s, t := Add(g1, g0), Add(g2, g0);
    Pow2Differ(id[1], id[0]);
    Pow2Differ(id[2], id[0]);
    AddNonzero(g1, g0);
    AddNonzero(g2, g0);
    ColPointsDiffer(id[1], id[2]);
    CrossFactor(h1, h2, s, t);
    Kernel2(Mul(h1, s), Mul(h2, t), s, t, u1, u2);
  }

  lemma InverseOfPower(d: nat)
    ensures Mul(Pow2(d), ColPoint(d)) == ONE
  {
    hide Mul, Inv, Pow;
    PowNonzero(TWO, d);
    MulInv(Pow2(d));
  }

  lemma CrossFactor(h1: GF, h2: GF, s: GF, t: GF)
    requires h1 != h2 && s != ZERO && t != ZERO
    ensures Mul(Mul(h1, s), t) != Mul(Mul(h2, t), s)
  {
    hide Mul;
    var st := Mul(s, t);
    MulAssoc(h1, s, t);
    MulAssoc(h2, t, s);
    MulComm(t, s);
    MulComm(h1, st);
    MulComm(h2, st);
    if st == ZERO { NoZeroDivisors(s, t); }
    if Mul(st, h1) == Mul(st, h2) { Cancel(st, h1, h2); }
  }

  /** Every square submatrix of the 1, 2, 1/2 generator is nonsingular. */
  lemma VandermondeMds(ip: seq<nat>, id: seq<nat>)
    requires |ip| == |id| && Increasing(ip) && Increasing(id)
    requires Below(ip, 3) && Below(id, RAID_DATA_MAX)
    ensures Nonsingular(Sub(Vandermonde, ip, id), |ip|)
  {
    var m := Sub(Vandermonde, ip, id);
    forall u: Vec | |u| == |ip| && MatVec(m, u) == Zeros(|ip|) ensures u == Zeros(|ip|) {
      VandermondeSubKernel(ip, id, u);
    }
  }

  lemma VandermondeSubKernel(ip: seq<nat>, id: seq<nat>, u: Vec)
    requires |ip| == |id| == |u| && Increasing(ip) && Increasing(id)
    requires Below(ip, 3) && Below(id, RAID_DATA_MAX)
    requires MatVec(Sub(Vandermonde, ip, id), u) == Zeros(|ip|)
    ensures u == Zeros(|u|)
  {
    hide A, Dot;
    var m := Sub(Vandermonde, ip, id);
    forall j | 0 <= j < |ip| ensures Dot(Sub(Vandermonde, [ip[j]], id)[0], u) == ZERO {
      assert MatVec(m, u)[j] == Dot(m[j], u);
      RowOfSub(Vandermonde, ip, id, j);
    }
    if |ip| >= 3 {
      IncreasingLength(ip, 3);
      assert ip[0] < ip[1] < ip[2];
    }
    if |ip| == 1 {
      assert id == [id[0]];
      VandermondeKernel1(ip[0], id[0], u);
    } else if |ip| == 2 {
      VandermondeKernel2(ip[0], ip[1], id, u);
    } else if |ip| == 3 {
      VandermondeKernel3(id, u);
    }
  }

  /** The table contract the recovery code relies on, for both modes. */
  lemma Mds(mode: Mode, ip: seq<nat>, id: seq<nat>)
    requires |ip| == |id| && Increasing(ip) && Increasing(id)
    requires Below(ip, MaxParity(mode)) && Below(id, RAID_DATA_MAX)
    ensures Nonsingular(Sub(mode, ip, id), |ip|)
  {
    match mode
    case Cauchy => CauchyMds(ip, id);
    case Vandermonde => VandermondeMds(ip, id);
  }
}
