/** raid_check(): can the blocks in ir alone explain what the stripe holds? */
module Check {
  import opened Gf
  import opened LinAlg
  import opened Generator
  import opened Invert
  import opened Stripe
  import opened Solve
  import opened Rec
  import opened RaidRec

  /** col with the entries at id replaced by D. */
  function Patch(col: Vec, id: seq<nat>, D: Vec): (r: Vec)
    requires |id| == |D| && Below(id, |col|)
    ensures |r| == |col|
  {
    if |id| == 0 then col
    else
      var n := |id| - 1;
      Patch(col, id[..n], D[..n])[id[n] := D[n]]
  }

  lemma {:induction false} PatchAt(col: Vec, id: seq<nat>, D: Vec, d: nat)
    requires |id| == |D| && Below(id, |col|) && Increasing(id) && d < |col|
    ensures d !in id ==> Patch(col, id, D)[d] == col[d]
    ensures forall k | 0 <= k < |id| && id[k] == d :: Patch(col, id, D)[d] == D[k]
    decreases |id|
  {
    if |id| > 0 {
      var n := |id| - 1;
      PatchAt(col, id[..n], D[..n], d);
      forall k | 0 <= k < |id| && id[k] == d ensures Patch(col, id, D)[d] == D[k] {
        if k < n {
          assert id[..n][k] == d;
          assert id[k] < id[n];
        }
      }
      assert id == id[..n] + [id[n]];
    }
  }

  lemma PatchZeroed(col: Vec, id: seq<nat>, D: Vec)
    requires |id| == |D| && Below(id, |col|) && Increasing(id)
    ensures Zeroed(Patch(col, id, D), id) == Zeroed(col, id) && Select(Patch(col, id, D), id) == D
  {
    hide Patch, Increasing;
    forall d | 0 <= d < |col| && d !in id ensures Patch(col, id, D)[d] == col[d] { PatchAt(col, id, D, d); }
    forall k | 0 <= k < |id| ensures Patch(col, id, D)[id[k]] == D[k] { PatchAt(col, id, D, id[k]); }
  }

  /** Parity of a patched column: what the kept bytes give plus what D gives. */
  lemma PatchParity(mode: Mode, p: nat, col: Vec, id: seq<nat>, D: Vec)
    requires |id| == |D| && Below(id, |col|) && Increasing(id)
    ensures Parity(mode, p, Patch(col, id, D)) == Add(Parity(mode, p, Zeroed(col, id)), Dot(Sub(mode, [p], id)[0], D))
  {
    hide Parity, Add, Dot, Patch, Sub, Zeroed, Increasing;
    PatchZeroed(col, id, D);
    DeltaParity(mode, p, Patch(col, id, D), id);
    AddCancel(Parity(mode, p, Patch(col, id, D)), Parity(mode, p, Zeroed(col, id)));
    AddComm(Dot(Sub(mode, [p], id)[0], D), Parity(mode, p, Zeroed(col, id)));
    AddCancel2(Parity(mode, p, Patch(col, id, D)), Parity(mode, p, Zeroed(col, id)), Dot(Sub(mode, [p], id)[0], D));
  }

  lemma AddCancel2(a: GF, b: GF, c: GF)
    requires Add(a, b) == c
    ensures a == Add(b, c)
  {
    hide Add;
    AddCancel(b, a);
    AddComm(a, b);
  }

  /** D makes the byte column satisfy the parities ip, whose bytes are par. */
  ghost predicate Solves(mode: Mode, col: Vec, par: Vec, id: seq<nat>, ip: seq<nat>, D: Vec)
    requires Below(id, |col|) && |par| == |ip|
  {
    |D| == |id| && forall l | 0 <= l < |ip| :: par[l] == Parity(mode, ip[l], Patch(col, id, D))
  }

  ghost predicate Solvable(mode: Mode, col: Vec, par: Vec, id: seq<nat>, ip: seq<nat>)
    requires Below(id, |col|) && |par| == |ip|
  {
    exists D: Vec :: Solves(mode, col, par, id, ip, D)
  }

  /** p[l] is the delta of parity ip[l] over the blocks that are kept. */
  ghost predicate KeptDelta(mode: Mode, col: Vec, par: Vec, id: seq<nat>, ip: seq<nat>, p: Vec)
    requires |par| == |ip|
  {
    |p| == |ip| && forall l | 0 <= l < |ip| :: p[l] == Add(par[l], Parity(mode, ip[l], Zeroed(col, id)))
  }

  /** The reconstruction is the only candidate, and it always meets the first nr parities. */
  lemma OnlyCandidate(mode: Mode, col: Vec, par: Vec, id: seq<nat>, ip: seq<nat>, p: Vec, T: Mat, D: Vec, D0: Vec)
    requires Below(id, |col|) && |par| == |ip| && Increasing(id) && |id| <= |ip| && |D| == |id|
    requires KeptDelta(mode, col, par, id, ip, p)
    requires LeftInverse(T, Sub(mode, ip[..|id|], id), |id|) && D0 == MatVec(T, p[..|id|])
    requires forall l | 0 <= l < |id| :: par[l] == Parity(mode, ip[l], Patch(col, id, D))
    ensures D == D0
  {
    hide Parity, Add, Dot, Patch, Sub, Zeroed, Increasing, LeftInverse, MatVec;
    var nr := |id|;
    var m := Sub(mode, ip[..nr], id);
    LeftInverseShape(T, m, nr);
    DeltaOfSolution(mode, col, par, id, ip, p, D);
    forall j | 0 <= j < nr ensures D0[j] == D[j] {
      SolveRow(T, m, nr, D, j);
      MatVecAt(T, MatVec(m, D), j);
    }
  }

  lemma MatVecAt(m: Mat, u: Vec, j: nat)
    requires IsMat(m, |m|, |u|) && j < |m|
    ensures MatVec(m, u)[j] == Dot(m[j], u)
  {}

  lemma LeftInverseShape(v: Mat, m: Mat, n: nat)
    requires LeftInverse(v, m, n)
    ensures IsMat(v, n, n) && IsMat(m, n, n)
  {}

  lemma DeltaOfSolution(mode: Mode, col: Vec, par: Vec, id: seq<nat>, ip: seq<nat>, p: Vec, D: Vec)
    requires Below(id, |col|) && |par| == |ip| && Increasing(id) && |id| <= |ip| && |D| == |id|
    requires KeptDelta(mode, col, par, id, ip, p)
    requires forall l | 0 <= l < |id| :: par[l] == Parity(mode, ip[l], Patch(col, id, D))
    ensures p[..|id|] == MatVec(Sub(mode, ip[..|id|], id), D)
  {
    hide Parity, Add, Dot, Patch, Sub, Zeroed, Increasing;
    var nr := |id|;
    var m := Sub(mode, ip[..nr], id);
    forall l | 0 <= l < nr ensures p[l] == Dot(m[l], D) {
      PatchParity(mode, ip[l], col, id, D);
      RowOfSub(mode, ip[..nr], id, l);
      AddCancel(Parity(mode, ip[l], Zeroed(col, id)), Dot(m[l], D));
      AddComm(par[l], Parity(mode, ip[l], Zeroed(col, id)));
    }
  }

  lemma CandidateMeets(mode: Mode, col: Vec, par: Vec, id: seq<nat>, ip: seq<nat>, p: Vec, T: Mat, D0: Vec, l: nat)
    requires Below(id, |col|) && |par| == |ip| && Increasing(id) && |id| <= |ip| && l < |id|
    requires KeptDelta(mode, col, par, id, ip, p)
    requires LeftInverse(T, Sub(mode, ip[..|id|], id), |id|) && Injective(T, |id|) && D0 == MatVec(T, p[..|id|])
    ensures par[l] == Parity(mode, ip[l], Patch(col, id, D0))
  {
    hide Parity, Add, Dot, Patch, Sub, Zeroed, Increasing, LeftInverse, Injective;
    var nr := |id|;
    var m := Sub(mode, ip[..nr], id);
    LeftInverseShape(T, m, nr);
    RightInverse(T, m, nr, p[..nr]);
    MatVecAt(m, D0, l);
    RowOfSub(mode, ip[..nr], id, l);
    PatchParity(mode, ip[l], col, id, D0);
    AddComm(par[l], Parity(mode, ip[l], Zeroed(col, id)));
    AddCancel(Parity(mode, ip[l], Zeroed(col, id)), par[l]);
  }

  /** Parity p of the first d bytes. */
  function ParityTo(mode: Mode, p: nat, col: Vec, d: nat): GF
    requires d <= |col|
  {
    Dot(GenRow(mode, p, |col|)[..d], col[..d])
  }

  lemma ParityToStep(mode: Mode, p: nat, col: Vec, d: nat)
    requires d < |col|
    ensures ParityTo(mode, p, col, d + 1) == Add(ParityTo(mode, p, col, d), Mul(col[d], A(mode, p, d)))
  {
    hide Add, Mul, A, Dot;
    var row := GenRow(mode, p, |col|);
    assert row[..d + 1] == row[..d] + [row[d]] && col[..d + 1] == col[..d] + [col[d]];
    DotAppend(row[..d], [row[d]], col[..d], [col[d]]);
    Dot1([row[d]], [col[d]]);
    MulComm(row[d], col[d]);
  }

  lemma ParityToEnds(mode: Mode, p: nat, col: Vec)
    ensures ParityTo(mode, p, col, 0) == ZERO && ParityTo(mode, p, col, |col|) == Parity(mode, p, col)
  {
    assert GenRow(mode, p, |col|)[..|col|] == GenRow(mode, p, |col|) && col[..|col|] == col;
  }

  /** p ^= b times the generator column j, for the parities from index lo on. */
  function AddColumn(mode: Mode, p: Vec, ip: seq<nat>, lo: nat, b: GF, j: nat): (r: Vec)
    requires |p| == |ip|
    ensures |r| == |p|
    ensures forall l | 0 <= l < |p| :: r[l] == if l < lo then p[l] else Add(p[l], Mul(b, A(mode, ip[l], j)))
  {
    seq(|p|, l requires 0 <= l < |p| => if l < lo then p[l] else Add(p[l], Mul(b, A(mode, ip[l], j))))
  }

  /** The first loop of raid_validate: deltas over the blocks that are not broken. */
  method KeptDeltas(mode: Mode, col: Vec, par: Vec, id: seq<nat>, ip: seq<nat>) returns (p: Vec)
    requires Below(id, |col|) && |par| == |ip| && Increasing(id)
    ensures KeptDelta(mode, col, par, id, ip, p)
  {
    hide Parity, ParityTo, Add, Mul, A, AddColumn;
    ghost var z := Zeroed(col, id);
    p := par;
    forall l | 0 <= l < |ip| ensures par[l] == Add(par[l], ParityTo(mode, ip[l], z, 0)) {
      ParityToEnds(mode, ip[l], z);
      AddZero(par[l]);
    }
    var k := 0;
    for j := 0 to |col|
      invariant |p| == |ip| && 0 <= k <= |id|
      invariant forall x | 0 <= x < k :: id[x] < j
      invariant forall x | k <= x < |id| :: j <= id[x]
      invariant forall l | 0 <= l < |ip| :: p[l] == Add(par[l], ParityTo(mode, ip[l], z, j))
    {
      if k < |id| && id[k] == j {
        forall l | 0 <= l < |ip| ensures ParityTo(mode, ip[l], z, j + 1) == ParityTo(mode, ip[l], z, j) {
          ParityToStep(mode, ip[l], z, j);
          MulComm(ZERO, A(mode, ip[l], j));
          MulZeroRight(A(mode, ip[l], j));
          AddZero(ParityTo(mode, ip[l], z, j));
        }
        forall x | k + 1 <= x < |id| ensures j + 1 <= id[x] { assert id[k] < id[x]; }
        k := k + 1;
      } else {
        forall x | k <= x < |id| ensures j + 1 <= id[x] { assert id[k] <= id[x]; }
        assert j !in id;
        var b := col[j];
        forall l | 0 <= l < |ip| ensures Add(p[l], Mul(b, A(mode, ip[l], j))) == Add(par[l], ParityTo(mode, ip[l], z, j + 1)) {
          ParityToStep(mode, ip[l], z, j);
          AddAssoc(par[l], ParityTo(mode, ip[l], z, j), Mul(b, A(mode, ip[l], j)));
        }
        p := AddColumn(mode, p, ip, 0, b, j);
      }
    }
    forall l | 0 <= l < |ip| ensures ParityTo(mode, ip[l], z, |z|) == Parity(mode, ip[l], z) { ParityToEnds(mode, ip[l], z); }
  }

  /** The remaining delta of parity ip[l] once the first j reconstructed bytes are added. */
  lemma AddReconstructed(mode: Mode, p: nat, id: seq<nat>, D: Vec, j: nat)
    requires |D| == |id| && j < |id|
    ensures Dot(Sub(mode, [p], id)[0][..j + 1], D[..j + 1]) == Add(Dot(Sub(mode, [p], id)[0][..j], D[..j]), Mul(D[j], A(mode, p, id[j])))
  {
    hide Add, Mul, A, Dot;
    var row := Sub(mode, [p], id)[0];
    assert row[..j + 1] == row[..j] + [row[j]] && D[..j + 1] == D[..j] + [D[j]];
    DotAppend(row[..j], [row[j]], D[..j], [D[j]]);
    Dot1([row[j]], [D[j]]);
    MulComm(row[j], D[j]);
  }

  /** The second loop: reconstructed bytes are added to the spare parities. */
  method SpareDeltas(mode: Mode, id: seq<nat>, ip: seq<nat>, p0: Vec, T: Mat) returns (p: Vec, ghost D0: Vec)
    requires |id| <= |ip| == |p0| && IsMat(T, |id|, |id|)
    ensures D0 == MatVec(T, p0[..|id|]) && |p| == |ip|
    ensures forall l | |id| <= l < |ip| :: p[l] == Add(p0[l], Dot(Sub(mode, [ip[l]], id)[0], D0))
  {
    hide Add, Mul, A, Dot, Sub, AddColumn, MatVec;
    var nr := |id|;
    p := p0;
    D0 := MatVec(T, p0[..nr]);
    forall l | 0 <= l < |ip| ensures p0[l] == Add(p0[l], Dot(Sub(mode, [ip[l]], id)[0][..0], D0[..0])) {
      DotZeros(Sub(mode, [ip[l]], id)[0][..0], D0[..0]);
      AddZero(p0[l]);
    }
    for j := 0 to nr
      invariant |p| == |ip| && p[..nr] == p0[..nr]
      invariant forall l | nr <= l < |ip| :: p[l] == Add(p0[l], Dot(Sub(mode, [ip[l]], id)[0][..j], D0[..j]))
    {
      var b := RowTimes(T[j], p[..nr]);
      MatVecAt(T, p0[..nr], j);
      forall l | nr <= l < |ip|
        ensures Add(p[l], Mul(b, A(mode, ip[l], id[j]))) == Add(p0[l], Dot(Sub(mode, [ip[l]], id)[0][..j + 1], D0[..j + 1]))
      {
        AddReconstructed(mode, ip[l], id, D0, j);
        AddAssoc(p0[l], Dot(Sub(mode, [ip[l]], id)[0][..j], D0[..j]), Mul(b, A(mode, ip[l], id[j])));
      }
      p := AddColumn(mode, p, ip, nr, b, id[j]);
    }
    forall l | nr <= l < |ip| ensures Sub(mode, [ip[l]], id)[0][..nr] == Sub(mode, [ip[l]], id)[0] {}
    assert D0[..nr] == D0;
  }

  /** One byte of raid_validate. */
  method ValidateAt(mode: Mode, col: Vec, par: Vec, id: seq<nat>, ip: seq<nat>, T: Mat) returns (ok: bool)
    requires Below(id, |col|) && |par| == |ip| && Increasing(id) && |id| <= |ip|
    requires LeftInverse(T, Sub(mode, ip[..|id|], id), |id|) && Injective(T, |id|)
    ensures ok <==> Solvable(mode, col, par, id, ip)
  {
    hide *;
    var nr := |id|;
    LeftInverseShape(T, Sub(mode, ip[..nr], id), nr);
    var p0 := KeptDeltas(mode, col, par, id, ip);
    KeptDeltaShape(mode, col, par, id, ip, p0);
    var p, D0 := SpareDeltas(mode, id, ip, p0, T);
    ok := true;
    for l := nr to |ip|
      invariant ok <==> forall x | nr <= x < l :: p[x] == ZERO
    {
      if p[l] != ZERO { ok := false; }
    }
    Verdict(mode, col, par, id, ip, p0, p, T, D0);
  }

  lemma KeptDeltaShape(mode: Mode, col: Vec, par: Vec, id: seq<nat>, ip: seq<nat>, p: Vec)
    requires |par| == |ip| && KeptDelta(mode, col, par, id, ip, p)
    ensures |p| == |ip|
  {}

  /** A spare parity ends at zero exactly when the candidate satisfies it. */
  lemma SpareMeets(mode: Mode, col: Vec, par: Vec, id: seq<nat>, ip: seq<nat>, p0: Vec, p: Vec, D0: Vec, l: nat)
    requires Below(id, |col|) && |par| == |ip| == |p| && Increasing(id) && |D0| == |id| && l < |ip|
    requires KeptDelta(mode, col, par, id, ip, p0) && p[l] == Add(p0[l], Dot(Sub(mode, [ip[l]], id)[0], D0))
    ensures p[l] == ZERO <==> par[l] == Parity(mode, ip[l], Patch(col, id, D0))
  {
    hide Parity, Add, Dot, Patch, Sub, Zeroed, Increasing;
    PatchParity(mode, ip[l], col, id, D0);
    AddAssoc(par[l], Parity(mode, ip[l], Zeroed(col, id)), Dot(Sub(mode, [ip[l]], id)[0], D0));
    AddZero(par[l]);
    if p[l] == ZERO { AddEqZero(par[l], Parity(mode, ip[l], Patch(col, id, D0))); }
  }

  lemma Verdict(mode: Mode, col: Vec, par: Vec, id: seq<nat>, ip: seq<nat>, p0: Vec, p: Vec, T: Mat, D0: Vec)
    requires Below(id, |col|) && |par| == |ip| == |p| && Increasing(id) && |id| <= |ip|
    requires KeptDelta(mode, col, par, id, ip, p0)
    requires LeftInverse(T, Sub(mode, ip[..|id|], id), |id|) && Injective(T, |id|) && D0 == MatVec(T, p0[..|id|])
    requires forall l | |id| <= l < |ip| :: p[l] == Add(p0[l], Dot(Sub(mode, [ip[l]], id)[0], D0))
    ensures (forall l | |id| <= l < |ip| :: p[l] == ZERO) <==> Solvable(mode, col, par, id, ip)
  {
    hide Parity, Add, Dot, Patch, Sub, Zeroed, Increasing, LeftInverse, Injective, KeptDelta, MatVec;
    LeftInverseShape(T, Sub(mode, ip[..|id|], id), |id|);
    forall l | |id| <= l < |ip| ensures p[l] == ZERO <==> par[l] == Parity(mode, ip[l], Patch(col, id, D0)) {
      SpareMeets(mode, col, par, id, ip, p0, p, D0, l);
    }
    forall l | 0 <= l < |id| ensures par[l] == Parity(mode, ip[l], Patch(col, id, D0)) {
      CandidateMeets(mode, col, par, id, ip, p0, T, D0, l);
    }
    if forall l | |id| <= l < |ip| :: p[l] == ZERO {
      assert Solves(mode, col, par, id, ip, D0);
    }
    if Solvable(mode, col, par, id, ip) {
      var D: Vec :| Solves(mode, col, par, id, ip, D);
      OnlyCandidate(mode, col, par, id, ip, p0, T, D, D0);
    }
  }

  // ------------------------------------------------------ the whole stripe

  function ParityBytes(cur: Blocks, nd: nat, ip: seq<nat>, size: nat, i: nat): (r: Vec)
    requires Sized(cur, size) && i < size && forall l | 0 <= l < |ip| :: nd + ip[l] < |cur|
    ensures |r| == |ip|
  {
    seq(|ip|, l requires 0 <= l < |ip| => cur[nd + ip[l]][i])
  }

  ghost predicate SolvableAt(mode: Mode, cur: Blocks, nd: nat, size: nat, id: seq<nat>, ip: seq<nat>, i: nat)
    requires nd <= |cur| && Sized(cur, size) && i < size && Below(id, nd) && forall l | 0 <= l < |ip| :: nd + ip[l] < |cur|
  {
    Solvable(mode, Column(cur[..nd], size, i), ParityBytes(cur, nd, ip, size, i), id, ip)
  }

  /** raid_validate. */
  method RaidValidate(mode: Mode, id: seq<nat>, ip: seq<nat>, nd: nat, size: nat, cur: Blocks) returns (ok: bool)
    requires nd <= |cur| && Sized(cur, size) && |id| < |ip| && Increasing(id) && Increasing(ip)
    requires Below(id, nd) && nd <= RAID_DATA_MAX && Below(ip, MaxParity(mode)) && forall l | 0 <= l < |ip| :: nd + ip[l] < |cur|
    ensures ok <==> forall i | 0 <= i < size :: SolvableAt(mode, cur, nd, size, id, ip, i)
  {
    hide A, LeftInverse, Injective, Solvable, Increasing, Sub;
    PrefixIncreasing(ip, |id|);
    var T := InvertSub(mode, ip[..|id|], id);
    for i := 0 to size
      invariant forall x | 0 <= x < i :: SolvableAt(mode, cur, nd, size, id, ip, x)
    {
      var good := ValidateAt(mode, Column(cur[..nd], size, i), ParityBytes(cur, nd, ip, size, i), id, ip, T);
      if !good {
        assert !SolvableAt(mode, cur, nd, size, id, ip, i);
        return false;
      }
    }
    return true;
  }

  /** cur and orig have the same blocks outside ir. */
  ghost predicate Agrees(cur: Blocks, orig: Blocks, ir: seq<nat>) {
    |cur| == |orig| && forall x | 0 <= x < |cur| && x !in ir :: cur[x] == orig[x]
  }

  /** Some valid stripe has the blocks of cur outside ir. */
  ghost predicate Correctable(mode: Mode, cur: Blocks, nd: nat, np: nat, size: nat, ir: seq<nat>) {
    exists orig: Blocks :: ValidStripe(mode, orig, nd, np, size) && Agrees(cur, orig, ir)
  }

  /** id are the data blocks in ir and ip the parities outside it. */
  ghost predicate Splits(ir: seq<nat>, id: seq<nat>, ip: seq<nat>, nd: nat, np: nat) {
    && Increasing(id) && Below(id, nd) && GoodParities(ip, ir, nd, np)
    && (forall d | 0 <= d < nd :: d in id <==> d in ir)
  }

  lemma ColumnFromStripe(mode: Mode, cur: Blocks, orig: Blocks, nd: nat, np: nat, size: nat, ir: seq<nat>, id: seq<nat>, ip: seq<nat>, i: nat)
    requires ValidStripe(mode, orig, nd, np, size) && Agrees(cur, orig, ir) && Splits(ir, id, ip, nd, np) && Sized(cur, size) && i < size
    ensures SolvableAt(mode, cur, nd, size, id, ip, i)
  {
    hide Parity, Increasing, Patch;
    var col, oc := Column(cur[..nd], size, i), Column(orig[..nd], size, i);
    var par := ParityBytes(cur, nd, ip, size, i);
    var D := Select(oc, id);
    forall d | 0 <= d < nd ensures Patch(col, id, D)[d] == oc[d] {
      PatchAt(col, id, D, d);
    }
    assert Patch(col, id, D) == oc;
    forall l | 0 <= l < |ip| ensures par[l] == Parity(mode, ip[l], oc) {
      StripeColumn(mode, orig, nd, np, size, ip[l], i);
    }
    assert Solves(mode, col, par, id, ip, D);
  }

  ghost function Chosen(mode: Mode, cur: Blocks, nd: nat, size: nat, id: seq<nat>, ip: seq<nat>, i: nat): (D: Vec)
    requires nd <= |cur| && Sized(cur, size) && i < size && Below(id, nd) && forall l | 0 <= l < |ip| :: nd + ip[l] < |cur|
    requires SolvableAt(mode, cur, nd, size, id, ip, i)
    ensures Solves(mode, Column(cur[..nd], size, i), ParityBytes(cur, nd, ip, size, i), id, ip, D)
  {
    var D :| Solves(mode, Column(cur[..nd], size, i), ParityBytes(cur, nd, ip, size, i), id, ip, D);
    D
  }

  ghost predicate AllSolvable(mode: Mode, cur: Blocks, nd: nat, size: nat, id: seq<nat>, ip: seq<nat>) {
    && nd <= |cur| && Sized(cur, size) && Below(id, nd) && (forall l | 0 <= l < |ip| :: nd + ip[l] < |cur|)
    && forall i | 0 <= i < size :: SolvableAt(mode, cur, nd, size, id, ip, i)
  }

  /** The data column that explains byte i. */
  ghost function Explained(mode: Mode, cur: Blocks, nd: nat, size: nat, id: seq<nat>, ip: seq<nat>, i: nat): (r: Vec)
    requires AllSolvable(mode, cur, nd, size, id, ip) && i < size
    ensures |r| == nd
  {
    Patch(Column(cur[..nd], size, i), id, Chosen(mode, cur, nd, size, id, ip, i))
  }

  ghost function ExplainedBlock(mode: Mode, cur: Blocks, nd: nat, size: nat, id: seq<nat>, ip: seq<nat>, x: nat): (r: seq<GF>)
    requires AllSolvable(mode, cur, nd, size, id, ip)
    ensures |r| == size
  {
    seq(size, i requires 0 <= i < size =>
      var c := Explained(mode, cur, nd, size, id, ip, i);
      if x < nd then c[x] else Parity(mode, x - nd, c))
  }

  ghost function ExplainedStripe(mode: Mode, cur: Blocks, nd: nat, np: nat, size: nat, id: seq<nat>, ip: seq<nat>): (r: Blocks)
    requires AllSolvable(mode, cur, nd, size, id, ip)
    ensures |r| == nd + np && Sized(r, size)
  {
    seq(nd + np, x requires 0 <= x < nd + np => ExplainedBlock(mode, cur, nd, size, id, ip, x))
  }

  lemma ExplainedValid(mode: Mode, cur: Blocks, nd: nat, np: nat, size: nat, id: seq<nat>, ip: seq<nat>)
    requires AllSolvable(mode, cur, nd, size, id, ip)
    ensures ValidStripe(mode, ExplainedStripe(mode, cur, nd, np, size, id, ip), nd, np, size)
  {
    hide Parity, AllSolvable, Explained;
    var orig := ExplainedStripe(mode, cur, nd, np, size, id, ip);
    forall p, i | 0 <= p < np && 0 <= i < size ensures Codeword(mode, orig, nd, size, p, i) {
      assert Column(orig[..nd], size, i) == Explained(mode, cur, nd, size, id, ip, i);
    }
  }

  lemma ExplainedAgrees(mode: Mode, cur: Blocks, nd: nat, np: nat, size: nat, ir: seq<nat>, id: seq<nat>, ip: seq<nat>, x: nat)
    requires AllSolvable(mode, cur, nd, size, id, ip) && |cur| == nd + np && Splits(ir, id, ip, nd, np)
    requires x < nd + np && x !in ir
    ensures cur[x] == ExplainedBlock(mode, cur, nd, size, id, ip, x)
  {
    hide Parity, Increasing, Patch;
    var b := ExplainedBlock(mode, cur, nd, size, id, ip, x);
    forall i | 0 <= i < size ensures cur[x][i] == b[i] {
      var col := Column(cur[..nd], size, i);
      var D := Chosen(mode, cur, nd, size, id, ip, i);
      if x < nd {
        PatchAt(col, id, D, x);
      } else {
        assert Listed(x - nd, ip, ir, nd);
        var l :| 0 <= l < |ip| && ip[l] == x - nd;
        assert ParityBytes(cur, nd, ip, size, i)[l] == cur[x][i];
      }
    }
  }

  /** Every byte can be explained exactly when one valid stripe explains them all. */
  lemma CheckMeaning(mode: Mode, cur: Blocks, nd: nat, np: nat, size: nat, ir: seq<nat>, id: seq<nat>, ip: seq<nat>)
    requires |cur| == nd + np && Sized(cur, size) && Splits(ir, id, ip, nd, np)
    ensures (forall l | 0 <= l < |ip| :: nd + ip[l] < |cur|)
    ensures (forall i | 0 <= i < size :: SolvableAt(mode, cur, nd, size, id, ip, i)) <==> Correctable(mode, cur, nd, np, size, ir)
  {
    hide Parity, Increasing, SolvableAt, ValidStripe, ExplainedBlock;
    if Correctable(mode, cur, nd, np, size, ir) {
      var orig: Blocks :| ValidStripe(mode, orig, nd, np, size) && Agrees(cur, orig, ir);
      forall i | 0 <= i < size ensures SolvableAt(mode, cur, nd, size, id, ip, i) {
        ColumnFromStripe(mode, cur, orig, nd, np, size, ir, id, ip, i);
      }
    }
    if forall i | 0 <= i < size :: SolvableAt(mode, cur, nd, size, id, ip, i) {
      assert AllSolvable(mode, cur, nd, size, id, ip);
      var orig := ExplainedStripe(mode, cur, nd, np, size, id, ip);
      ExplainedValid(mode, cur, nd, np, size, id, ip);
      forall x | 0 <= x < nd + np && x !in ir ensures cur[x] == orig[x] {
        ExplainedAgrees(mode, cur, nd, np, size, ir, id, ip, x);
      }
      assert Agrees(cur, orig, ir);
    }
  }

  lemma SplitOf(ir: seq<nat>, nrd: nat, ip: seq<nat>, nd: nat, np: nat)
    requires Increasing(ir) && nrd <= |ir| && Below(ir[..nrd], nd) && (forall k | nrd <= k < |ir| :: nd <= ir[k])
    requires GoodParities(ip, ir, nd, np)
    ensures Splits(ir, ir[..nrd], ip, nd, np)
  {
    var id := ir[..nrd];
    forall d | 0 <= d < nd ensures d in id <==> d in ir {
      if d in ir {
        assert ir == id + ir[nrd..];
        assert forall y | y in ir[nrd..] :: nd <= y;
      }
    }
  }

  /** raid_check. */
  method RaidCheck(mode: Mode, ir: seq<nat>, nd: nat, np: nat, size: nat, cur: Blocks) returns (ok: bool)
    requires |cur| == nd + np && Sized(cur, size) && nd <= RAID_DATA_MAX && |ir| < np <= MaxParity(mode)
    requires Increasing(ir) && Below(ir, nd + np)
    ensures ok <==> Correctable(mode, cur, nd, np, size, ir)
  {
    hide *;
    var rd := CountData(ir, nd);
    var ip := PickParities(ir, rd, nd, np);
    GoodTotal(ir, rd, nd, np);
    SplitOf(ir, rd, ip, nd, np);
    SplitParts(mode, ir, ir[..rd], ip, nd, np);
    CheckMeaning(mode, cur, nd, np, size, ir, ir[..rd], ip);
    ok := RaidValidate(mode, ir[..rd], ip, nd, size, cur);
  }

  lemma SplitParts(mode: Mode, ir: seq<nat>, id: seq<nat>, ip: seq<nat>, nd: nat, np: nat)
    requires Splits(ir, id, ip, nd, np) && np <= MaxParity(mode)
    ensures Increasing(id) && Increasing(ip) && Below(id, nd) && Below(ip, MaxParity(mode))
  {}
}
