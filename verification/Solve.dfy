/** The linear systems recovery and validation solve, one byte column at a time. */
module Solve {
  import opened Gf
  import opened LinAlg
  import opened Generator
  import opened Invert
  import opened Stripe

  lemma SubLeading(mode: Mode, ip: seq<nat>, id: seq<nat>)
    requires |ip| == |id| && Increasing(ip) && Increasing(id)
    requires Below(ip, MaxParity(mode)) && Below(id, RAID_DATA_MAX)
    ensures LeadingNonsingular(Sub(mode, ip, id), |ip|)
  {
    hide A, Dot, Increasing, Sub, InKernel;
    var n, m := |ip|, Sub(mode, ip, id);
    forall s: nat, u: Vec | 0 < s <= n && InKernel(m, n, s, u) ensures u == Zeros(s) {
      SubLeadingBlock(mode, ip, id, s, u);
    }
  }

  lemma SubLeadingBlock(mode: Mode, ip: seq<nat>, id: seq<nat>, s: nat, u: Vec)
    requires |ip| == |id| && Increasing(ip) && Increasing(id) && s <= |ip|
    requires Below(ip, MaxParity(mode)) && Below(id, RAID_DATA_MAX)
    requires InKernel(Sub(mode, ip, id), |ip|, s, u)
    ensures u == Zeros(s)
  {
    hide A, Dot, Increasing;
    var m, b := Sub(mode, ip, id), Sub(mode, ip[..s], id[..s]);
    PrefixIncreasing(ip, s);
    PrefixIncreasing(id, s);
    Mds(mode, ip[..s], id[..s]);
    forall i | 0 <= i < s ensures MatVec(b, u)[i] == ZERO {
      assert b[i] == m[i][..s];
      assert Dot(m[i][..s], u) == ZERO;
    }
    assert MatVec(b, u) == Zeros(s);
  }

  lemma PrefixIncreasing(s: seq<nat>, n: nat)
    requires Increasing(s) && n <= |s|
    ensures Increasing(s[..n])
  {}

  /** The coefficient matrix is set up and inverted; T[j][k] selects a multiplication table. */
  method InvertSub(mode: Mode, ip: seq<nat>, id: seq<nat>) returns (T: Mat)
    requires |ip| == |id| && Increasing(ip) && Increasing(id)
    requires Below(ip, MaxParity(mode)) && Below(id, RAID_DATA_MAX)
    ensures LeftInverse(T, Sub(mode, ip, id), |ip|) && Injective(T, |ip|)
  {
    hide A, LeftInverse, Injective, LeadingNonsingular, Increasing;
    var nr := |ip|;
    var G := new GF[nr * nr];
    var V := new GF[nr * nr];
    for j := 0 to nr
      invariant forall x | 0 <= x < j :: Rows(G[..], nr)[x] == Sub(mode, ip, id)[x]
    {
      ghost var s := G[..];
      ghost var row := Sub(mode, ip, id)[j];
      RowBounds(j, nr);
      for k := 0 to nr
        invariant forall x | 0 <= x < nr * nr && !(j * nr <= x < j * nr + k) :: G[x] == s[x]
        invariant forall x | j * nr <= x < j * nr + k :: G[x] == row[x - j * nr]
      {
        G[j * nr + k] := A(mode, ip[j], id[k]);
      }
      RowsUpdate(s, G[..], nr, j, row);
    }
    assert Rows(G[..], nr) == Sub(mode, ip, id);
    SubLeading(mode, ip, id);
    RaidInvert(G, V, nr);
    T := Rows(V[..], nr);
  }

  /** One row of the inverse times PD, table lookup by table lookup. */
  method RowTimes(row: Vec, PD: Vec) returns (b: GF)
    requires |row| == |PD|
    ensures b == Dot(row, PD)
  {
    hide Add, Mul, Dot;
    b := ZERO;
    assert Dot(row[..0], PD[..0]) == ZERO by { DotZeros(row[..0], PD[..0]); }
    for k := 0 to |row|
      invariant b == Dot(row[..k], PD[..k])
    {
      assert row[..k + 1] == row[..k] + [row[k]] && PD[..k + 1] == PD[..k] + [PD[k]];
      DotAppend(row[..k], [row[k]], PD[..k], [PD[k]]);
      Dot1([row[k]], [PD[k]]);
      b := Add(b, Mul(row[k], PD[k]));
    }
    assert row[..|row|] == row && PD[..|row|] == PD;
  }

  /** The deltas of the used parities are the coefficient matrix times the missing bytes. */
  lemma DeltaSystem(mode: Mode, ip: seq<nat>, id: seq<nat>, col: Vec, PD: Vec)
    requires Increasing(id) && Below(id, |col|) && |ip| == |id| == |PD|
    requires forall j | 0 <= j < |ip| :: PD[j] == Add(Parity(mode, ip[j], col), Parity(mode, ip[j], Zeroed(col, id)))
    ensures PD == MatVec(Sub(mode, ip, id), Select(col, id))
  {
    hide A, Dot, Parity, Add, Increasing;
    forall j | 0 <= j < |ip| ensures PD[j] == Dot(Sub(mode, ip, id)[j], Select(col, id)) {
      DeltaParity(mode, ip[j], col, id);
      RowOfSub(mode, ip, id, j);
    }
  }

  /** Solving the system gives the missing bytes back. */
  lemma Recovered(mode: Mode, ip: seq<nat>, id: seq<nat>, col: Vec, PD: Vec, v: Mat, j: nat)
    requires Increasing(id) && Below(id, |col|) && |ip| == |id| == |PD| && j < |id|
    requires forall k | 0 <= k < |ip| :: PD[k] == Add(Parity(mode, ip[k], col), Parity(mode, ip[k], Zeroed(col, id)))
    requires LeftInverse(v, Sub(mode, ip, id), |ip|)
    ensures IsMat(v, |ip|, |ip|) && Dot(v[j], PD) == col[id[j]]
  {
    hide A, Dot, Parity, Add, Increasing, MatVec, Sub;
    DeltaSystem(mode, ip, id, col, PD);
    SolveRow(v, Sub(mode, ip, id), |ip|, Select(col, id), j);
  }

  /** raid_rec1of1: the parity stands in for the missing block. */
  lemma XorRecovers(mode: Mode, col: Vec, x: nat)
    requires x < |col|
    ensures Parity(mode, 0, col[x := Parity(mode, 0, col)]) == col[x]
  {
    hide Add, Mul, Dot;
    var row := GenRow(mode, 0, |col|);
    var p := Parity(mode, 0, col);
    DotClear(row, col, x);
    DotClear(row, col[x := p], x);
    assert col[x := p][x := ZERO] == col[x := ZERO];
    MulOneLeft(col[x]);
    MulOneLeft(p);
    AddCancel(Dot(row, col[x := ZERO]), col[x]);
  }

  /** raid_rec2of2_int8: Dy = Pd/(2^(y-x) + 1) + Qd/(2^x + 2^y) and Dx = Pd + Dy. */
  lemma PairRecovers(x: nat, y: nat, Dx: GF, Dy: GF, Pd: GF, Qd: GF)
    requires x < y < RAID_DATA_MAX
    requires Pd == Add(Dx, Dy) && Qd == Add(Mul(Pow2(x), Dx), Mul(Pow2(y), Dy))
    ensures Add(Pow2(y - x), ONE) != ZERO && Add(Pow2(x), Pow2(y)) != ZERO
    ensures Add(Mul(Inv(Add(Pow2(y - x), ONE)), Pd), Mul(Inv(Add(Pow2(x), Pow2(y))), Qd)) == Dy
    ensures Add(Pd, Dy) == Dx
  {
    hide Add, Mul, Inv, Pow;
    var g, gx, gy := Pow2(y - x), Pow2(x), Pow2(y);
    var s, t := Add(g, ONE), Add(gx, gy);
    Pow2Differ(y - x, 0);
    PowZero(TWO);
    AddNonzero(g, ONE);
    Pow2Differ(x, y);
    AddNonzero(gx, gy);
    AddCancel(Dx, Dy);
    PowAdd(TWO, x, y - x);
    calc {
      t;
      { MulOneRight(gx); }
      Add(Mul(gx, ONE), Mul(gx, g));
      { MulAddRight(gx, ONE, g); AddComm(ONE, g); }
      Mul(gx, s);
    }
    var e := Add(Mul(Inv(s), Pd), Mul(Inv(t), Qd));
    // t * e == t * Dy
    calc {
      Mul(t, e);
      { MulAddRight(t, Mul(Inv(s), Pd), Mul(Inv(t), Qd)); }
      Add(Mul(t, Mul(Inv(s), Pd)), Mul(t, Mul(Inv(t), Qd)));
      { MulAssoc(t, Inv(t), Qd); MulInv(t); MulOneLeft(Qd); }
      Add(Mul(t, Mul(Inv(s), Pd)), Qd);
      { MulAssoc(gx, s, Mul(Inv(s), Pd)); MulAssoc(s, Inv(s), Pd); MulInv(s); MulOneLeft(Pd); }
      Add(Mul(gx, Pd), Qd);
      { MulAddRight(gx, Dx, Dy); AddFirst(Mul(gx, Dx), Mul(gx, Dy), Mul(gy, Dy)); }
      Add(Mul(gx, Dy), Mul(gy, Dy));
      { MulAddLeft(gx, gy, Dy); }
      Mul(t, Dy);
    }
    Cancel(t, e, Dy);
  }

  lemma AddFirst(a: GF, b: GF, c: GF)
    ensures Add(Add(a, b), Add(a, c)) == Add(b, c)
  {
    hide Add;
    Add4(a, b, a, c);
    AddZero(a);
    AddZero(Add(b, c));
  }
}
