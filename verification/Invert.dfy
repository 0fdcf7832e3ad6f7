/** raid_invert(): in-place Gauss-Jordan elimination without pivoting. */
module Invert {
  import opened Gf
  import opened LinAlg
  import opened Generator

  // ----------------------------------------------- flat row-major storage

  lemma RowBounds(i: nat, n: nat)
    requires i < n
    ensures 0 <= i * n <= i * n + n <= n * n
  {
    assert (i + 1) * n <= n * n;
  }

  lemma RowOrder(i: nat, k: nat, n: nat)
    requires i < k
    ensures i * n + n <= k * n
  {
    assert (i + 1) * n <= k * n;
  }

  function RowOf(s: seq<GF>, i: nat, n: nat): (r: Vec)
    requires i < n && |s| == n * n
    ensures |r| == n
  {
    RowBounds(i, n);
    s[i * n..i * n + n]
  }

  /** The matrix stored in a flat buffer of n * n bytes. */
  function Rows(s: seq<GF>, n: nat): (m: Mat)
    requires |s| == n * n
    ensures IsMat(m, n, n)
  {
    seq(n, i requires 0 <= i < n => RowOf(s, i, n))
  }

  lemma RowsUpdate(s: seq<GF>, t: seq<GF>, n: nat, k: nat, row: Vec)
    requires |s| == |t| == n * n && k < n && |row| == n && RowOf(t, k, n) == row
    requires forall x | 0 <= x < n * n && !(k * n <= x < k * n + n) :: t[x] == s[x]
    ensures Rows(t, n) == Rows(s, n)[k := row]
  {
    forall i | 0 <= i < n && i != k ensures RowOf(t, i, n) == RowOf(s, i, n) {
      RowBounds(i, n);
      if i < k { RowOrder(i, k, n); } else { RowOrder(k, i, n); }
    }
  }

  // ------------------------------------------------------- row operations

  /** M[k] and V[k] times f. */
  method ScaleRow(M: array<GF>, k: nat, n: nat, f: GF)
    requires k < n && M.Length == n * n
    modifies M
    ensures Rows(M[..], n) == old(Rows(M[..], n)[k := Scale(f, Rows(M[..], n)[k])])
  {
    hide Mul;
    ghost var s := M[..];
    RowBounds(k, n);
    for j := 0 to n
      invariant forall x | 0 <= x < n * n && !(k * n <= x < k * n + j) :: M[x] == s[x]
      invariant forall x | k * n <= x < k * n + j :: M[x] == Mul(f, s[x])
    {
      M[k * n + j] := Mul(f, M[k * n + j]);
    }
    RowsUpdate(s, M[..], n, k, Scale(f, RowOf(s, k, n)));
  }

  method AddRange(M: array<GF>, to: nat, fro: nat, n: nat, f: GF)
    requires to + n <= M.Length && fro + n <= M.Length && (to + n <= fro || fro + n <= to)
    modifies M
    ensures forall x | 0 <= x < M.Length && !(to <= x < to + n) :: M[x] == old(M[x])
    ensures forall x | to <= x < to + n :: M[x] == Add(old(M[x]), Mul(f, old(M[x - to + fro])))
  {
    hide Mul, Add;
    for j := 0 to n
      invariant forall x | 0 <= x < M.Length && !(to <= x < to + j) :: M[x] == old(M[x])
      invariant forall x | to <= x < to + j :: M[x] == Add(old(M[x]), Mul(f, old(M[x - to + fro])))
    {
      M[to + j] := Add(M[to + j], Mul(f, M[fro + j]));
    }
  }

  /** M[i] plus f times M[k]. */
  method AddRow(M: array<GF>, i: nat, k: nat, n: nat, f: GF)
    requires i < n && k < n && i != k && M.Length == n * n
    modifies M
    ensures Rows(M[..], n) == old(Rows(M[..], n)[i := VAdd(Rows(M[..], n)[i], Scale(f, Rows(M[..], n)[k]))])
  {
    hide Mul, Add;
    ghost var s := M[..];
    RowBounds(i, n);
    RowBounds(k, n);
    if i < k { RowOrder(i, k, n); } else { RowOrder(k, i, n); }
    var to, fro := i * n, k * n;
    AddRange(M, to, fro, n, f);
    RowsUpdate(s, M[..], n, i, VAdd(RowOf(s, i, n), Scale(f, RowOf(s, k, n))));
  }

  // ------------------------------------------------ what elimination keeps

  /** Columns below k are those of the identity. */
  predicate Reduced(m: Mat, n: nat, k: nat)
    requires IsMat(m, n, n) && k <= n
  {
    forall i, j | 0 <= i < n && 0 <= j < k :: m[i][j] == (if i == j then ONE else ZERO)
  }

  /** Row k is scaled and column k is cleared in the rows below i. */
  predicate Cleared(m: Mat, n: nat, k: nat, i: nat)
    requires IsMat(m, n, n) && k < n
  {
    m[k][k] == ONE && forall x | 0 <= x < i && x < n && x != k :: m[x][k] == ZERO
  }

  /** Every row of m is the combination of the original rows that v says it is. */
  predicate Tracks(v: Mat, m: Mat, m0: Mat, n: nat)
  {
    IsMat(v, n, n) && IsMat(m, n, n) && IsMat(m0, n, n) && forall i | 0 <= i < n :: m[i] == Comb(v[i], m0, n)
  }

  predicate InKernel(m: Mat, n: nat, s: nat, u: Vec)
    requires IsMat(m, n, n) && s <= n
  {
    |u| == s && forall i | 0 <= i < s :: Dot(m[i][..s], u) == ZERO
  }

  /** Leading blocks of order above k have no kernel vector that m0 lacks. */
  ghost predicate KeepsKernels(m: Mat, m0: Mat, n: nat, k: nat)
    requires IsMat(m, n, n) && IsMat(m0, n, n)
  {
    forall s: nat, u: Vec | k < s <= n && InKernel(m, n, s, u) :: InKernel(m0, n, s, u)
  }

  /** No leading square block has a nonzero kernel vector. */
  ghost predicate LeadingNonsingular(m: Mat, n: nat)
    requires IsMat(m, n, n)
  {
    forall s: nat, u: Vec | 0 < s <= n && InKernel(m, n, s, u) :: u == Zeros(s)
  }

  /** v maps no nonzero vector to zero. */
  ghost predicate Injective(v: Mat, n: nat)
    requires IsMat(v, n, n)
  {
    forall u: Vec | InKernel(v, n, n, u) :: u == Zeros(n)
  }

  // ------------------------------------------------------- one pivot step

  lemma DotPrefixUnit(row: Vec, k: nat, i: nat, u: Vec)
    requires k < |row| && |u| == k + 1 && i < k
    requires forall j | 0 <= j < k :: row[j] == (if i == j then ONE else ZERO)
    ensures Dot(row[..k + 1], u) == Add(u[i], Mul(row[k], u[k]))
  {
    hide Add, Mul, Dot;
    assert row[..k + 1] == Unit(i, k) + [row[k]] && u == u[..k] + [u[k]];
    DotAppend(Unit(i, k), [row[k]], u[..k], [u[k]]);
    DotUnit(i, k, u[..k]);
    Dot1([row[k]], [u[k]]);
  }

  /** The kernel vector a zero pivot would give the leading block of order k + 1. */
  function PivotVector(m: Mat, n: nat, k: nat): (u: Vec)
    requires IsMat(m, n, n) && k < n
    ensures |u| == k + 1
  {
    seq(k, i requires 0 <= i < k => m[i][k]) + [ONE]
  }

  lemma PivotKernel(m: Mat, n: nat, k: nat)
    requires IsMat(m, n, n) && k < n && Reduced(m, n, k) && m[k][k] == ZERO
    ensures InKernel(m, n, k + 1, PivotVector(m, n, k)) && PivotVector(m, n, k) != Zeros(k + 1)
  {
    hide Add, Mul, Dot;
    var u := PivotVector(m, n, k);
    forall i | 0 <= i < k + 1 ensures Dot(m[i][..k + 1], u) == ZERO {
      if i < k {
        DotPrefixUnit(m[i], k, i, u);
        MulOneRight(m[i][k]);
        AddZero(m[i][k]);
      } else {
        assert m[k][..k + 1] == Zeros(k + 1);
        DotZeros(m[k][..k + 1], u);
      }
    }
    assert u[k] == ONE && Zeros(k + 1)[k] == ZERO;
  }

  lemma PivotNonzero(m: Mat, m0: Mat, n: nat, k: nat)
    requires IsMat(m, n, n) && IsMat(m0, n, n) && k < n
    requires Reduced(m, n, k) && KeepsKernels(m, m0, n, k) && LeadingNonsingular(m0, n)
    ensures m[k][k] != ZERO
  {
    hide Add, Mul, Dot, Reduced, InKernel;
    if m[k][k] == ZERO {
      PivotKernel(m, n, k);
    }
  }

  lemma ScalePrefix(f: GF, row: Vec, s: nat, u: Vec)
    requires s <= |row| && |u| == s
    ensures Dot(Scale(f, row)[..s], u) == Mul(f, Dot(row[..s], u))
  {
    hide Add, Mul, Dot;
    assert Scale(f, row)[..s] == Scale(f, row[..s]);
    DotScaleLeft(f, row[..s], u);
  }

  lemma AddPrefix(row: Vec, row': Vec, s: nat, u: Vec)
    requires s <= |row| == |row'| && |u| == s
    ensures Dot(VAdd(row, row')[..s], u) == Add(Dot(row[..s], u), Dot(row'[..s], u))
  {
    hide Add, Mul, Dot;
    assert VAdd(row, row')[..s] == VAdd(row[..s], row'[..s]);
    DotAddLeft(row[..s], row'[..s], u);
  }

  lemma ScaleKernel(m: Mat, n: nat, k: nat, f: GF, s: nat, u: Vec)
    requires IsMat(m, n, n) && k < s <= n && f != ZERO
    requires InKernel(m[k := Scale(f, m[k])], n, s, u)
    ensures InKernel(m, n, s, u)
  {
    hide Mul, Dot;
    var m' := m[k := Scale(f, m[k])];
    forall i | 0 <= i < s ensures Dot(m[i][..s], u) == ZERO {
      assert Dot(m'[i][..s], u) == ZERO;
      if i == k {
        ScalePrefix(f, m[k], s, u);
        NoZeroDivisors(f, Dot(m[k][..s], u));
      }
    }
  }

  lemma AddKernel(m: Mat, n: nat, i: nat, k: nat, f: GF, s: nat, u: Vec)
    requires IsMat(m, n, n) && i < n && k < s <= n && i != k
    requires InKernel(m[i := VAdd(m[i], Scale(f, m[k]))], n, s, u)
    ensures InKernel(m, n, s, u)
  {
    hide Mul, Dot, Add;
    var m' := m[i := VAdd(m[i], Scale(f, m[k]))];
    assert Dot(m'[k][..s], u) == ZERO;
    forall x | 0 <= x < s ensures Dot(m[x][..s], u) == ZERO {
      assert Dot(m'[x][..s], u) == ZERO;
      if x == i {
        AddPrefix(m[i], Scale(f, m[k]), s, u);
        ScalePrefix(f, m[k], s, u);
        MulZeroRight(f);
        AddZero(Dot(m[i][..s], u));
      }
    }
  }

  lemma ScaleStep(m: Mat, v: Mat, m0: Mat, n: nat, k: nat)
    requires k < n && Tracks(v, m, m0, n) && Reduced(m, n, k) && KeepsKernels(m, m0, n, k) && m[k][k] != ZERO
    ensures var f := Inv(m[k][k]); var m', v' := m[k := Scale(f, m[k])], v[k := Scale(f, v[k])];
      Tracks(v', m', m0, n) && Reduced(m', n, k) && KeepsKernels(m', m0, n, k) && Cleared(m', n, k, 0)
  {
    hide Mul, Inv, Comb, InKernel;
    var f := Inv(m[k][k]);
    var m' := m[k := Scale(f, m[k])];
    CombScale(f, v[k], m0, n);
    MulInv(m[k][k]);
    MulZeroRight(f);
    InvNonzero(m[k][k]);
    forall s: nat, u: Vec | k < s <= n && InKernel(m', n, s, u) ensures InKernel(m0, n, s, u) {
      ScaleKernel(m, n, k, f, s, u);
    }
  }

  lemma AddStep(m: Mat, v: Mat, m0: Mat, n: nat, k: nat, i: nat)
    requires k < n && i < n && i != k && Tracks(v, m, m0, n)
    requires Reduced(m, n, k) && KeepsKernels(m, m0, n, k) && Cleared(m, n, k, i)
    ensures var f := m[i][k]; var m', v' := m[i := VAdd(m[i], Scale(f, m[k]))], v[i := VAdd(v[i], Scale(f, v[k]))];
      Tracks(v', m', m0, n) && Reduced(m', n, k) && KeepsKernels(m', m0, n, k) && Cleared(m', n, k, i + 1)
  {
    hide Mul, Add, Comb, InKernel;
    var f := m[i][k];
    var m' := m[i := VAdd(m[i], Scale(f, m[k]))];
    CombAdd(v[i], Scale(f, v[k]), m0, n);
    CombScale(f, v[k], m0, n);
    MulZeroRight(f);
    MulOneRight(f);
    AddZero(f);
    forall j | 0 <= j < k ensures m'[i][j] == m[i][j] { AddZero(m[i][j]); }
    forall s: nat, u: Vec | k < s <= n && InKernel(m', n, s, u) ensures InKernel(m0, n, s, u) {
      AddKernel(m, n, i, k, f, s, u);
    }
  }

  lemma ScaleInjective(v: Mat, n: nat, k: nat, f: GF)
    requires IsMat(v, n, n) && k < n && f != ZERO && Injective(v, n)
    ensures Injective(v[k := Scale(f, v[k])], n)
  {
    hide Mul, InKernel;
    var w := v[k := Scale(f, v[k])];
    forall u: Vec | InKernel(w, n, n, u) ensures u == Zeros(n) { ScaleKernel(v, n, k, f, n, u); }
  }

  lemma AddInjective(v: Mat, n: nat, i: nat, k: nat, f: GF)
    requires IsMat(v, n, n) && i < n && k < n && i != k && Injective(v, n)
    ensures Injective(v[i := VAdd(v[i], Scale(f, v[k]))], n)
  {
    hide Mul, Add, InKernel;
    var w := v[i := VAdd(v[i], Scale(f, v[k]))];
    forall u: Vec | InKernel(w, n, n, u) ensures u == Zeros(n) { AddKernel(v, n, i, k, f, n, u); }
  }

  lemma IdentityInjective(v: Mat, n: nat)
    requires IsMat(v, n, n) && forall i | 0 <= i < n :: v[i] == Unit(i, n)
    ensures Injective(v, n)
  {
    hide Mul, Add, Dot, Unit;
    forall u: Vec | InKernel(v, n, n, u) ensures u == Zeros(n) {
      forall i | 0 <= i < n ensures u[i] == ZERO {
        assert v[i][..n] == v[i];
        DotUnit(i, n, u);
      }
    }
  }

  /** A left inverse that is injective is also a right inverse. */
  lemma RightInverse(v: Mat, m: Mat, n: nat, p: Vec)
    requires LeftInverse(v, m, n) && Injective(v, n) && |p| == n
    ensures MatVec(m, MatVec(v, p)) == p
  {
    hide Mul, Add, Dot, Comb;
    var d := MatVec(v, p);
    var q := VAdd(MatVec(m, d), p);
    forall i | 0 <= i < n ensures Dot(v[i][..n], q) == ZERO {
      assert v[i][..n] == v[i];
      DotComm(v[i], q);
      DotAddLeft(MatVec(m, d), p, v[i]);
      DotComm(MatVec(m, d), v[i]);
      DotComm(p, v[i]);
      SolveRow(v, m, n, d, i);
      AddZero(d[i]);
    }
    assert InKernel(v, n, n, q);
    forall i | 0 <= i < n ensures MatVec(m, d)[i] == p[i] {
      assert q[i] == ZERO;
      AddEqZero(MatVec(m, d)[i], p[i]);
    }
  }

  lemma IdentityTracks(m: Mat, v: Mat, n: nat)
    requires IsMat(m, n, n) && IsMat(v, n, n) && forall i | 0 <= i < n :: v[i] == Unit(i, n)
    ensures Tracks(v, m, m, n) && Reduced(m, n, 0) && KeepsKernels(m, m, n, 0)
  {
    forall i | 0 <= i < n ensures m[i] == Comb(v[i], m, n) { CombUnit(i, n, m, n); }
  }

  lemma ReducedIsIdentity(m: Mat, v: Mat, m0: Mat, n: nat)
    requires Tracks(v, m, m0, n) && Reduced(m, n, n)
    ensures LeftInverse(v, m0, n) && forall i | 0 <= i < n :: m[i] == Unit(i, n)
  {
    hide Comb;
    forall i | 0 <= i < n ensures m[i] == Unit(i, n) {}
  }

  /** V is set to the identity. */
  method SetIdentity(V: array<GF>, n: nat)
    requires V.Length == n * n
    modifies V
    ensures forall i | 0 <= i < n :: Rows(V[..], n)[i] == Unit(i, n)
  {
    for i := 0 to n
      invariant forall x | 0 <= x < i :: Rows(V[..], n)[x] == Unit(x, n)
    {
      ghost var s := V[..];
      RowBounds(i, n);
      for j := 0 to n
        invariant forall x | 0 <= x < n * n && !(i * n <= x < i * n + j) :: V[x] == s[x]
        invariant forall x | i * n <= x < i * n + j :: V[x] == Unit(i, n)[x - i * n]
      {
        V[i * n + j] := if i == j then ONE else ZERO;
      }
      RowsUpdate(s, V[..], n, i, Unit(i, n));
    }
  }

  /**
   * raid_invert. The zero-pivot check is unreachable when no leading block of
   * M has a nonzero kernel vector; V ends as the inverse and M as the identity.
   */
  method RaidInvert(M: array<GF>, V: array<GF>, n: nat)
    requires M.Length == V.Length == n * n && M != V
    requires LeadingNonsingular(Rows(M[..], n), n)
    modifies M, V
    ensures LeftInverse(Rows(V[..], n), old(Rows(M[..], n)), n) && Injective(Rows(V[..], n), n)
    ensures forall i | 0 <= i < n :: Rows(M[..], n)[i] == Unit(i, n)
  {
    hide Rows, Mul, Add, Inv, Comb, Tracks, Reduced, KeepsKernels, LeadingNonsingular, LeftInverse, Unit, Injective;
    ghost var m0 := Rows(M[..], n);
    SetIdentity(V, n);
    IdentityTracks(m0, Rows(V[..], n), n);
    IdentityInjective(Rows(V[..], n), n);
    for k := 0 to n
      invariant Tracks(Rows(V[..], n), Rows(M[..], n), m0, n) && Injective(Rows(V[..], n), n)
      invariant Reduced(Rows(M[..], n), n, k) && KeepsKernels(Rows(M[..], n), m0, n, k)
    {
      RowBounds(k, n);
      PivotNonzero(Rows(M[..], n), m0, n, k);
      EntryOf(M[..], n, k, k);
      assert M[k * n + k] != ZERO;
      var f := Inv(M[k * n + k]);
      ScaleStep(Rows(M[..], n), Rows(V[..], n), m0, n, k);
      InvNonzero(M[k * n + k]);
      ScaleInjective(Rows(V[..], n), n, k, f);
      ScaleRow(M, k, n, f);
      ScaleRow(V, k, n, f);
      for i := 0 to n
        invariant Tracks(Rows(V[..], n), Rows(M[..], n), m0, n) && Injective(Rows(V[..], n), n)
        invariant Reduced(Rows(M[..], n), n, k) && KeepsKernels(Rows(M[..], n), m0, n, k)
        invariant Cleared(Rows(M[..], n), n, k, i)
      {
        if i != k {
          RowBounds(i, n);
          EntryOf(M[..], n, i, k);
          f := M[i * n + k];
          AddStep(Rows(M[..], n), Rows(V[..], n), m0, n, k, i);
          AddInjective(Rows(V[..], n), n, i, k, f);
          AddRow(M, i, k, n, f);
          AddRow(V, i, k, n, f);
        }
      }
      NextColumn(Rows(M[..], n), m0, n, k);
    }
    ReducedIsIdentity(Rows(M[..], n), Rows(V[..], n), m0, n);
  }

  lemma EntryOf(s: seq<GF>, n: nat, i: nat, j: nat)
    requires |s| == n * n && i < n && j < n
    ensures 0 <= i * n + j < n * n && s[i * n + j] == Rows(s, n)[i][j]
  {
    RowBounds(i, n);
  }

  lemma NextColumn(m: Mat, m0: Mat, n: nat, k: nat)
    requires IsMat(m, n, n) && IsMat(m0, n, n) && k < n
    requires Reduced(m, n, k) && Cleared(m, n, k, n) && KeepsKernels(m, m0, n, k)
    ensures Reduced(m, n, k + 1) && KeepsKernels(m, m0, n, k + 1)
  {}
}
