/** Recovery of lost blocks: raid_rec() and the functions it forwards to. */
module Rec {
  import opened Gf
  import opened LinAlg
  import opened Generator
  import opened Invert
  import opened Stripe
  import opened Gen
  import opened Delta
  import opened Solve

  /** nd data blocks followed by np parities of them. */
  ghost predicate ValidStripe(mode: Mode, orig: Blocks, nd: nat, np: nat, size: nat) {
    && |orig| == nd + np && Sized(orig, size)
    && forall p, i | 0 <= p < np && 0 <= i < size :: Codeword(mode, orig, nd, size, p, i)
  }

  ghost predicate Codeword(mode: Mode, orig: Blocks, nd: nat, size: nat, p: nat, i: nat)
    requires nd + p < |orig| && Sized(orig, size) && i < size
  {
    orig[nd + p][i] == Parity(mode, p, Column(orig[..nd], size, i))
  }

  /** The parity blocks ip hold what they should. */
  ghost predicate ParityHeld(vs: seq<Block>, orig: Blocks, nd: nat, ip: seq<nat>, size: nat)
    requires Sized(orig, size)
    reads vs
  {
    forall k | 0 <= k < |ip| :: nd + ip[k] < |vs| && nd + ip[k] < |orig| && Same(vs[nd + ip[k]], orig[nd + ip[k]])
  }

  ghost predicate Same(b: Block, s: seq<GF>)
    reads b
  {
    b.Length == |s| && forall i | 0 <= i < |s| :: b[i] == s[i]
  }

  /** What a recovery call may be asked: distinct buffers, a zero block, a job within the stripe. */
  ghost predicate RecReady(mode: Mode, vs: seq<Block>, zero: Block, id: seq<nat>, ip: seq<nat>, nd: nat, np: nat, size: nat, orig: Blocks)
    reads vs, zero
  {
    && Job(id, ip, nd) && Below(ip, np) && np <= MaxParity(mode) && nd <= RAID_DATA_MAX && nd + np <= |vs| && size % 64 == 0
    && AllDistinct(vs) && zero !in vs && ZeroBlock(zero, size)
    && ValidStripe(mode, orig, nd, np, size)
    && HoldsOutside(vs, nd, orig[..nd], id) && ParityHeld(vs, orig, nd, ip, size)
  }

  ghost predicate Restored(vs: seq<Block>, orig: Blocks, id: seq<nat>)
    reads vs
  {
    forall k | 0 <= k < |id| :: id[k] < |vs| && id[k] < |orig| && Same(vs[id[k]], orig[id[k]])
  }

  /** Byte i is ready to be solved: true parities in p, partial parities in the buffers pa. */
  ghost predicate ReadyAt(mode: Mode, p: seq<Block>, pa: seq<Block>, id: seq<nat>, ip: seq<nat>, nd: nat, size: nat, orig: Blocks, i: nat)
    requires |id| == |ip| == |p| == |pa| && Below(id, nd) && nd <= |orig| && Sized(orig, size) && i < size
    reads p, pa
  {
    forall k | 0 <= k < |id| ::
      && p[k].Length == pa[k].Length == size
      && p[k][i] == Parity(mode, ip[k], Column(orig[..nd], size, i))
      && pa[k][i] == Parity(mode, ip[k], Zeroed(Column(orig[..nd], size, i), id))
  }

  ghost predicate IsDelta(mode: Mode, PD: seq<GF>, ip: seq<nat>, id: seq<nat>, col: Vec) {
    |PD| == |ip| && forall k | 0 <= k < |ip| :: PD[k] == Add(Parity(mode, ip[k], col), Parity(mode, ip[k], Zeroed(col, id)))
  }

  method Deltas(mode: Mode, id: seq<nat>, ip: seq<nat>, nd: nat, size: nat, p: seq<Block>, pa: seq<Block>, i: nat, ghost orig: Blocks)
    returns (PD: seq<GF>)
    requires Job(id, ip, nd) && |p| == |pa| == |id| && nd <= |orig| && Sized(orig, size) && i < size
    requires ReadyAt(mode, p, pa, id, ip, nd, size, orig, i)
    ensures IsDelta(mode, PD, ip, id, Column(orig[..nd], size, i))
  {
    hide Parity, Add, Zeroed;
    ghost var col := Column(orig[..nd], size, i);
    PD := [];
    for k := 0 to |id|
      invariant |PD| == k
      invariant forall x | 0 <= x < k :: PD[x] == Add(Parity(mode, ip[x], col), Parity(mode, ip[x], Zeroed(col, id)))
    {
      PD := PD + [Add(p[k][i], pa[k][i])];
    }
  }

  method RecoverByte(mode: Mode, id: seq<nat>, ip: seq<nat>, nd: nat, size: nat, T: Mat, PD: seq<GF>, j: nat, i: nat, ghost orig: Blocks)
    returns (b: GF)
    requires Job(id, ip, nd) && nd <= |orig| && Sized(orig, size) && i < size && j < |id|
    requires LeftInverse(T, Sub(mode, ip, id), |ip|)
    requires IsDelta(mode, PD, ip, id, Column(orig[..nd], size, i))
    ensures b == orig[id[j]][i]
  {
    hide Parity, LeftInverse, Dot, Add, Sub, Zeroed;
    Recovered(mode, ip, id, Column(orig[..nd], size, i), PD, T, j);
    b := RowTimes(T[j], PD);
  }

  /** One byte of raid_recX_int8: all deltas first, then all recovered bytes. */
  method RecXAt(mode: Mode, id: seq<nat>, ip: seq<nat>, nd: nat, size: nat, p: seq<Block>, pa: seq<Block>, T: Mat, i: nat,
                ghost orig: Blocks, ghost bufs: set<Block>)
    requires Job(id, ip, nd) && |p| == |pa| == |id| && nd <= |orig| && Sized(orig, size) && i < size
    requires AllDistinct(pa) && (forall k | 0 <= k < |pa| :: pa[k] in bufs && pa[k].Length == size)
    requires ReadyAt(mode, p, pa, id, ip, nd, size, orig, i)
    requires LeftInverse(T, Sub(mode, ip, id), |ip|)
    modifies bufs
    ensures forall k | 0 <= k < |id| :: pa[k].Length == size && pa[k][i] == orig[id[k]][i]
    ensures forall b: Block, x | b in bufs && 0 <= x < b.Length && x != i :: b[x] == old(b[x])
  {
    hide Parity, LeftInverse, Dot, Add, Sub, Zeroed, IsDelta, ReadyAt, Increasing;
    var PD := Deltas(mode, id, ip, nd, size, p, pa, i, orig);
    for j := 0 to |id|
      invariant forall k | 0 <= k < j :: pa[k][i] == orig[id[k]][i]
      invariant forall b: Block, x | b in bufs && 0 <= x < b.Length && x != i :: b[x] == old(b[x])
    {
      var b := RecoverByte(mode, id, ip, nd, size, T, PD, j, i, orig);
      pa[j][i] := b;
    }
  }

  /** From byte i on, p holds true parities and pa partial ones. */
  ghost predicate ReadyFrom(mode: Mode, p: seq<Block>, pa: seq<Block>, id: seq<nat>, ip: seq<nat>, nd: nat, size: nat, orig: Blocks, i: nat)
    requires |id| == |ip| == |p| == |pa| && Below(id, nd) && nd <= |orig| && Sized(orig, size)
    reads p, pa
  {
    && (forall k | 0 <= k < |id| :: p[k].Length == pa[k].Length == size)
    && (forall k, x | 0 <= k < |id| && i <= x < size :: p[k][x] == Parity(mode, ip[k], Column(orig[..nd], size, x)))
    && (forall k, x | 0 <= k < |id| && i <= x < size ::
          pa[k][x] == Parity(mode, ip[k], Zeroed(Column(orig[..nd], size, x), id)))
  }

  lemma ReadyFromAt(mode: Mode, p: seq<Block>, pa: seq<Block>, id: seq<nat>, ip: seq<nat>, nd: nat, size: nat, orig: Blocks, i: nat)
    requires |id| == |ip| == |p| == |pa| && Below(id, nd) && nd <= |orig| && Sized(orig, size) && i < size
    requires ReadyFrom(mode, p, pa, id, ip, nd, size, orig, i)
    ensures ReadyAt(mode, p, pa, id, ip, nd, size, orig, i)
  {
    hide Parity, Zeroed;
  }

  /** The byte loop of raid_recX_int8. */
  method RecXLoop(mode: Mode, id: seq<nat>, ip: seq<nat>, nd: nat, size: nat, p: seq<Block>, pa: seq<Block>, T: Mat,
                  ghost orig: Blocks, ghost bufs: set<Block>)
    requires Job(id, ip, nd) && |p| == |pa| == |id| && nd <= |orig| && Sized(orig, size)
    requires AllDistinct(pa) && (forall k | 0 <= k < |pa| :: pa[k] in bufs && p[k] !in bufs)
    requires ReadyFrom(mode, p, pa, id, ip, nd, size, orig, 0)
    requires LeftInverse(T, Sub(mode, ip, id), |ip|)
    modifies bufs
    ensures forall k | 0 <= k < |id| :: Same(pa[k], orig[id[k]])
  {
    hide Parity, LeftInverse, Sub, Zeroed, Increasing, ReadyAt, Column;
    for i := 0 to size
      invariant ReadyFrom(mode, p, pa, id, ip, nd, size, orig, i)
      invariant forall k, x | 0 <= k < |id| && 0 <= x < i :: pa[k][x] == orig[id[k]][x]
    {
      ReadyFromAt(mode, p, pa, id, ip, nd, size, orig, i);
      RecXAt(mode, id, ip, nd, size, p, pa, T, i, orig, bufs);
    }
  }

  /** Only missing blocks sit in the recovery buffers. */
  lemma OutsideBuffers(vs: seq<Block>, id: seq<nat>, x: nat)
    requires Below(id, |vs|) && AllDistinct(vs) && x < |vs| && x !in id
    ensures vs[x] !in Buffers(vs, id)
  {}

  lemma ParityOutside(vs: seq<Block>, id: seq<nat>, ip: seq<nat>, nd: nat, np: nat)
    requires Below(id, nd) && Below(ip, np) && nd + np <= |vs| && AllDistinct(vs)
    ensures forall k | 0 <= k < |ip| :: nd + ip[k] < |vs| && vs[nd + ip[k]] !in Buffers(vs, id)
  {
    forall k | 0 <= k < |ip| ensures nd + ip[k] < |vs| && vs[nd + ip[k]] !in Buffers(vs, id) {
      OutsideBuffers(vs, id, nd + ip[k]);
    }
  }

  function Pick(vs: seq<Block>, id: seq<nat>): (r: seq<Block>)
    requires Below(id, |vs|)
    ensures |r| == |id| && forall k | 0 <= k < |id| :: r[k] == vs[id[k]]
  {
    seq(|id|, k requires 0 <= k < |id| => vs[id[k]])
  }

  function PickParity(vs: seq<Block>, ip: seq<nat>, nd: nat): (r: seq<Block>)
    requires forall k | 0 <= k < |ip| :: nd + ip[k] < |vs|
    ensures |r| == |ip| && forall k | 0 <= k < |ip| :: r[k] == vs[nd + ip[k]]
  {
    seq(|ip|, k requires 0 <= k < |ip| => vs[nd + ip[k]])
  }

  lemma PickDistinct(vs: seq<Block>, id: seq<nat>)
    requires Below(id, |vs|) && AllDistinct(vs) && Increasing(id)
    ensures AllDistinct(Pick(vs, id))
  {}

  lemma StripeColumn(mode: Mode, orig: Blocks, nd: nat, np: nat, size: nat, p: nat, i: nat)
    requires ValidStripe(mode, orig, nd, np, size) && p < np && i < size
    ensures orig[nd + p][i] == Parity(mode, p, Column(orig[..nd], size, i))
  {
    hide Parity;
    assert Codeword(mode, orig, nd, size, p, i);
  }

  lemma ReadyFromDelta(mode: Mode, vs: seq<Block>, id: seq<nat>, ip: seq<nat>, nd: nat, np: nat, size: nat, orig: Blocks)
    requires Job(id, ip, nd) && Below(ip, np) && nd + np <= |vs| && ValidStripe(mode, orig, nd, np, size)
    requires forall d | 0 <= d < nd :: vs[d].Length == size
    requires PartialParity(mode, vs, id, ip, nd, size, orig[..nd]) && ParityHeld(vs, orig, nd, ip, size)
    ensures ReadyFrom(mode, PickParity(vs, ip, nd), Pick(vs, id), id, ip, nd, size, orig, 0)
  {
    hide Parity, Zeroed;
    forall k, x | 0 <= k < |id| && 0 <= x < size
      ensures vs[nd + ip[k]][x] == Parity(mode, ip[k], Column(orig[..nd], size, x))
    {
      StripeColumn(mode, orig, nd, np, size, ip[k], x);
      assert Same(vs[nd + ip[k]], orig[nd + ip[k]]);
    }
  }

  lemma RestoredFrom(vs: seq<Block>, orig: Blocks, id: seq<nat>)
    requires Below(id, |vs|) && Below(id, |orig|)
    requires forall k | 0 <= k < |id| :: Same(Pick(vs, id)[k], orig[id[k]])
    ensures Restored(vs, orig, id)
  {
    hide Same;
  }

  /** The blocks p hold the parities ip of the stripe. */
  ghost predicate HeldIn(p: seq<Block>, orig: Blocks, nd: nat, ip: seq<nat>)
    reads p
  {
    |p| == |ip| && forall k | 0 <= k < |p| :: nd + ip[k] < |orig| && Same(p[k], orig[nd + ip[k]])
  }

  lemma HeldInOf(vs: seq<Block>, orig: Blocks, nd: nat, ip: seq<nat>, size: nat)
    requires Sized(orig, size) && forall k | 0 <= k < |ip| :: nd + ip[k] < |vs|
    ensures ParityHeld(vs, orig, nd, ip, size) ==> HeldIn(PickParity(vs, ip, nd), orig, nd, ip)
    ensures HeldIn(PickParity(vs, ip, nd), orig, nd, ip) ==> ParityHeld(vs, orig, nd, ip, size)
  {
    hide Same;
    var p := PickParity(vs, ip, nd);
    assert forall k | 0 <= k < |ip| :: p[k] == vs[nd + ip[k]];
  }

  lemma ParityDisjoint(vs: seq<Block>, id: seq<nat>, ip: seq<nat>, nd: nat, np: nat)
    requires Below(id, nd) && Below(ip, np) && nd + np <= |vs| && AllDistinct(vs)
    ensures forall k | 0 <= k < |ip| :: nd + ip[k] < |vs|
    ensures forall b | b in PickParity(vs, ip, nd) :: b !in Buffers(vs, id)
  {
    ParityOutside(vs, id, ip, nd, np);
  }

  /** Deltas are computed: the buffers of id hold partial parities, nothing else changed. */
  method DeltaPhase(mode: Mode, id: seq<nat>, ip: seq<nat>, nd: nat, size: nat, v: array<Block>, zero: Block, ghost np: nat, ghost orig: Blocks)
    requires RecReady(mode, v[..], zero, id, ip, nd, np, size, orig)
    modifies v, Buffers(v[..], id)
    ensures v[..] == old(v[..])
    ensures Sized(orig, size) && nd <= |orig| && nd + np <= v.Length && Below(id, v.Length)
    ensures forall k | 0 <= k < |ip| :: nd + ip[k] < v.Length
    ensures ReadyFrom(mode, PickParity(v[..], ip, nd), Pick(v[..], id), id, ip, nd, size, orig, 0)
  {
    hide *;
    ghost var vs := v[..];
    RecParts(mode, vs, zero, id, ip, nd, np, size, orig);
    ParityDisjoint(vs, id, ip, nd, np);
    HeldInOf(vs, orig, nd, ip, size);
    RaidDeltaGen(mode, id, ip, nd, size, v, zero, orig[..nd]);
    HeldInOf(vs, orig, nd, ip, size);
    ReadyFromDelta(mode, vs, id, ip, nd, np, size, orig);
  }

  lemma RecParts(mode: Mode, vs: seq<Block>, zero: Block, id: seq<nat>, ip: seq<nat>, nd: nat, np: nat, size: nat, orig: Blocks)
    requires RecReady(mode, vs, zero, id, ip, nd, np, size, orig)
    ensures Job(id, ip, nd) && |id| == |ip| > 0 && Below(ip, np) && Below(id, nd) && nd + np <= |vs| && size % 64 == 0
    ensures AllDistinct(vs) && zero !in vs && ZeroBlock(zero, size)
    ensures ValidStripe(mode, orig, nd, np, size)
    ensures |orig| == nd + np && Sized(orig, size) && Sized(orig[..nd], size)
    ensures HoldsOutside(vs, nd, orig[..nd], id) && ParityHeld(vs, orig, nd, ip, size)
    ensures forall d | 0 <= d < nd :: vs[d].Length == size
    ensures Below(id, RAID_DATA_MAX) && Below(ip, MaxParity(mode)) && nd + ip[|ip| - 1] + 1 <= |vs| && Below(id, |vs|)
    ensures Below(id, |orig|)
    ensures forall k | 0 <= k < |ip| :: nd + ip[k] < |vs|
    ensures Increasing(id) && Increasing(ip)
  {
    hide Parity;
  }

  /** raid_recX_int8; raid_rec2_int8 is the same with two blocks. */
  method RecX(mode: Mode, id: seq<nat>, ip: seq<nat>, nd: nat, size: nat, v: array<Block>, zero: Block, ghost np: nat, ghost orig: Blocks)
    requires RecReady(mode, v[..], zero, id, ip, nd, np, size, orig)
    modifies v, Buffers(v[..], id)
    ensures v[..] == old(v[..]) && Restored(v[..], orig, id)
  {
    hide *;
    ghost var vs := v[..];
    RecParts(mode, vs, zero, id, ip, nd, np, size, orig);
    var T := InvertSub(mode, ip, id);
    DeltaPhase(mode, id, ip, nd, size, v, zero, np, orig);
    ParityOutside(vs, id, ip, nd, np);
    var p, pa := PickParity(v[..], ip, nd), Pick(v[..], id);
    PickDistinct(vs, id);
    RecXLoop(mode, id, ip, nd, size, p, pa, T, orig, Buffers(vs, id));
    RestoredFrom(vs, orig, id);
  }

  /** No coefficient is zero. */
  lemma EntryNonzero(mode: Mode, q: nat, x: nat)
    requires q < MaxParity(mode) && x < RAID_DATA_MAX
    ensures A(mode, q, x) != ZERO
  {
    hide Mul, Add, Inv, Pow;
    PowNonzero(TWO, x);
    InvNonzero(Pow2(x));
    if q >= 2 && mode.Cauchy? {
      var s, t := Add(ONE, RowPoint(q)), Add(ColPoint(x), RowPoint(q));
      RowFactor(q);
      PointsApart(x, q);
      AddNonzero(ColPoint(x), RowPoint(q));
      InvNonzero(t);
      if Mul(s, Inv(t)) == ZERO { NoZeroDivisors(s, Inv(t)); }
    }
  }

  /** A 1x1 coefficient is inverted by inv(). */
  lemma SingleInverse(mode: Mode, q: nat, x: nat)
    requires q < MaxParity(mode) && x < RAID_DATA_MAX
    ensures A(mode, q, x) != ZERO
    ensures LeftInverse([[Inv(A(mode, q, x))]], Sub(mode, [q], [x]), 1)
  {
    hide Mul, Add, Inv, A, Comb;
    EntryNonzero(mode, q, x);
    MulInv(A(mode, q, x));
    SingleComb(Inv(A(mode, q, x)), Sub(mode, [q], [x]));
  }

  lemma SingleComb(f: GF, m: Mat)
    requires IsMat(m, 1, 1) && Mul(f, m[0][0]) == ONE
    ensures Comb([f], m, 1) == Unit(0, 1)
  {
    hide Mul, Add;
    AddZero(ONE);
    assert Comb([], m[1..], 1) == Zeros(1);
    assert [f][1..] == [];
  }

  /** The stripe with the parity standing in for data block x. */
  lemma StandIn(mode: Mode, orig: Blocks, nd: nat, np: nat, size: nat, x: nat, i: nat)
    requires ValidStripe(mode, orig, nd, np, size) && x < nd && 0 < np && i < size
    ensures Sized(orig[..nd][x := orig[nd]], size)
    ensures Parity(mode, 0, Column(orig[..nd][x := orig[nd]], size, i)) == orig[x][i]
  {
    hide Parity;
    var data := orig[..nd];
    var col := Column(data, size, i);
    StripeColumn(mode, orig, nd, np, size, 0, i);
    assert Column(data[x := orig[nd]], size, i) == col[x := Parity(mode, 0, col)];
    XorRecovers(mode, col, x);
  }

  lemma StandInReady(vs: seq<Block>, id: seq<nat>, ip: seq<nat>, mode: Mode, zero: Block, nd: nat, np: nat, size: nat, orig: Blocks)
    requires RecReady(mode, vs, zero, id, ip, nd, np, size, orig) && |id| == 1 && ip[0] == 0
    ensures |orig| == nd + np && 0 < np && 0 < nd && id[0] < nd < |vs| && vs[id[0]] != vs[nd] && size % 64 == 0
    ensures Sized(orig[..nd][id[0] := orig[nd]], size) && vs[id[0]].Length == size && 1 <= MaxParity(mode)
    ensures vs[id[0]] in Buffers(vs, id)
    ensures var x := id[0]; GenReady(vs[x := vs[nd]][nd := vs[x]], nd, 1, size, orig[..nd][x := orig[nd]])
    ensures ValidStripe(mode, orig, nd, np, size)
  {
    hide Parity;
    assert Same(vs[nd + ip[0]], orig[nd + ip[0]]);
    var x := id[0];
    var ws := vs[x := vs[nd]][nd := vs[x]];
    var data := orig[..nd][x := orig[nd]];
    forall d, i | 0 <= d < nd && 0 <= i < |data[d]| ensures ws[d][i] == data[d][i] {}
  }

  /** raid_rec1of1. */
  method Rec1of1(mode: Mode, id: seq<nat>, ghost ip: seq<nat>, nd: nat, size: nat, v: array<Block>, ghost zero: Block, ghost np: nat, ghost orig: Blocks)
    requires RecReady(mode, v[..], zero, id, ip, nd, np, size, orig) && |id| == 1 && ip[0] == 0
    modifies v, Buffers(v[..], id)
    ensures v[..] == old(v[..]) && Restored(v[..], orig, id)
  {
    hide *;
    ghost var vs := v[..];
    StandInReady(vs, id, ip, mode, zero, nd, np, size, orig);
    var x := id[0];
    ghost var data := orig[..nd][x := orig[nd]];
    var p := v[nd];
    var pa := v[x];
    v[x] := p;
    v[nd] := pa;
    ghost var ws := vs[x := vs[nd]][nd := vs[x]];
    assert v[..] == ws;
    SingleOutput(ws, nd);
    RaidGen(mode, v[..], nd, 1, size, data);
    v[x] := pa;
    v[nd] := p;
    assert v[..] == vs;
    StandInDone(mode, ws, vs, id, nd, np, size, orig);
  }

  lemma SingleOutput(ws: seq<Block>, nd: nat)
    requires nd + 1 <= |ws|
    ensures Outputs(ws, nd, 1) == {ws[nd]}
  {}

  lemma StandInDone(mode: Mode, ws: seq<Block>, vs: seq<Block>, id: seq<nat>, nd: nat, np: nat, size: nat, orig: Blocks)
    requires ValidStripe(mode, orig, nd, np, size) && 0 < np && |id| == 1 && id[0] < nd < |vs|
    requires ws == vs[id[0] := vs[nd]][nd := vs[id[0]]] && ws[nd].Length == size
    requires Sized(orig[..nd][id[0] := orig[nd]], size)
    requires Written(mode, ws, nd, 1, size, orig[..nd][id[0] := orig[nd]], size)
    ensures Restored(vs, orig, id)
  {
    hide Parity;
    var x := id[0];
    assert Last(ws, nd, 1, nd);
    forall i | 0 <= i < size ensures vs[x][i] == orig[x][i] {
      StandIn(mode, orig, nd, np, size, x, i);
      assert ws[nd][i] == Parity(mode, nd - nd, Column(orig[..nd][x := orig[nd]], size, i));
    }
  }

  /** raid_rec1_int8. */
  method Rec1(mode: Mode, id: seq<nat>, ip: seq<nat>, nd: nat, size: nat, v: array<Block>, zero: Block, ghost np: nat, ghost orig: Blocks)
    requires RecReady(mode, v[..], zero, id, ip, nd, np, size, orig) && |id| == 1
    modifies v, Buffers(v[..], id)
    ensures v[..] == old(v[..]) && Restored(v[..], orig, id)
  {
    hide *;
    ghost var vs := v[..];
    RecParts(mode, vs, zero, id, ip, nd, np, size, orig);
    if ip[0] == 0 {
      Rec1of1(mode, id, ip, nd, size, v, zero, np, orig);
      return;
    }
    FirstBelow(mode, id, ip);
    SingleInverse(mode, ip[0], id[0]);
    var T := [[Inv(A(mode, ip[0], id[0]))]];
    DeltaPhase(mode, id, ip, nd, size, v, zero, np, orig);
    ParityOutside(vs, id, ip, nd, np);
    var p, pa := PickParity(v[..], ip, nd), Pick(v[..], id);
    PickDistinct(vs, id);
    assert id == [id[0]] && ip == [ip[0]];
    RecXLoop(mode, id, ip, nd, size, p, pa, T, orig, Buffers(vs, id));
    RestoredFrom(vs, orig, id);
  }

  lemma FirstBelow(mode: Mode, id: seq<nat>, ip: seq<nat>)
    requires |id| > 0 && |ip| > 0 && Below(id, RAID_DATA_MAX) && Below(ip, MaxParity(mode))
    ensures id[0] < RAID_DATA_MAX && ip[0] < MaxParity(mode)
  {}

  /** The two equations of a P+Q recovery at byte i. */
  lemma PairSystem(mode: Mode, id: seq<nat>, col: Vec, Pd: GF, Qd: GF)
    requires |id| == 2 && Increasing(id) && Below(id, |col|)
    requires Pd == Add(Parity(mode, 0, col), Parity(mode, 0, Zeroed(col, id)))
    requires Qd == Add(Parity(mode, 1, col), Parity(mode, 1, Zeroed(col, id)))
    ensures Pd == Add(col[id[0]], col[id[1]])
    ensures Qd == Add(Mul(Pow2(id[0]), col[id[0]]), Mul(Pow2(id[1]), col[id[1]]))
  {
    hide Parity, Add, Mul, Zeroed, Pow2, Dot;
    DeltaParity(mode, 0, col, id);
    DeltaParity(mode, 1, col, id);
    Dot2(Sub(mode, [0], id)[0], Select(col, id));
    Dot2(Sub(mode, [1], id)[0], Select(col, id));
    MulOneLeft(col[id[0]]);
    MulOneLeft(col[id[1]]);
  }

  /** One byte of raid_rec2of2_int8. */
  method PairAt(mode: Mode, id: seq<nat>, ip: seq<nat>, nd: nat, size: nat, p: seq<Block>, pa: seq<Block>, t0: GF, t1: GF, i: nat, ghost orig: Blocks)
    requires Job(id, ip, nd) && ip == [0, 1] && |p| == |pa| == 2 && nd <= |orig| && nd <= RAID_DATA_MAX && Sized(orig, size) && i < size
    requires pa[0] != pa[1] && pa[0].Length == pa[1].Length == size
    requires t0 == Inv(Add(Pow2(id[1] - id[0]), ONE)) && t1 == Inv(Add(Pow2(id[0]), Pow2(id[1])))
    requires ReadyAt(mode, p, pa, id, ip, nd, size, orig, i)
    modifies pa[0], pa[1]
    ensures pa[0][i] == orig[id[0]][i] && pa[1][i] == orig[id[1]][i]
    ensures forall x | 0 <= x < size && x != i :: pa[0][x] == old(pa[0][x]) && pa[1][x] == old(pa[1][x])
  {
    hide Parity, Add, Mul, Inv, Zeroed, Pow2, Increasing, IsDelta, ReadyAt;
    ghost var col := Column(orig[..nd], size, i);
    PairIds(id, nd);
    var PD := Deltas(mode, id, ip, nd, size, p, pa, i, orig);
    PairDeltas(mode, PD, ip, id, col);
    var Pd, Qd := PD[0], PD[1];
    PairSystem(mode, id, col, Pd, Qd);
    PairRecovers(id[0], id[1], col[id[0]], col[id[1]], Pd, Qd);
    var Dy := Add(Mul(t0, Pd), Mul(t1, Qd));
    var Dx := Add(Pd, Dy);
    pa[0][i] := Dx;
    pa[1][i] := Dy;
  }

  lemma PairIds(id: seq<nat>, nd: nat)
    requires |id| == 2 && Increasing(id) && Below(id, nd)
    ensures id[0] < id[1] < nd
  {}

  lemma PairDeltas(mode: Mode, PD: seq<GF>, ip: seq<nat>, id: seq<nat>, col: Vec)
    requires IsDelta(mode, PD, ip, id, col) && ip == [0, 1]
    ensures |PD| == 2
    ensures PD[0] == Add(Parity(mode, 0, col), Parity(mode, 0, Zeroed(col, id)))
    ensures PD[1] == Add(Parity(mode, 1, col), Parity(mode, 1, Zeroed(col, id)))
  {
    hide Parity, Add, Zeroed;
  }

  method PairLoop(mode: Mode, id: seq<nat>, ip: seq<nat>, nd: nat, size: nat, p: seq<Block>, pa: seq<Block>, t0: GF, t1: GF, ghost orig: Blocks)
    requires Job(id, ip, nd) && ip == [0, 1] && |p| == |pa| == 2 && nd <= |orig| && nd <= RAID_DATA_MAX && Sized(orig, size)
    requires pa[0] != pa[1] && p[0] != pa[0] && p[0] != pa[1] && p[1] != pa[0] && p[1] != pa[1]
    requires t0 == Inv(Add(Pow2(id[1] - id[0]), ONE)) && t1 == Inv(Add(Pow2(id[0]), Pow2(id[1])))
    requires ReadyFrom(mode, p, pa, id, ip, nd, size, orig, 0)
    modifies pa[0], pa[1]
    ensures forall k | 0 <= k < |id| :: Same(pa[k], orig[id[k]])
  {
    hide Parity, Add, Inv, Zeroed, Pow2, Increasing, ReadyAt, Column;
    for i := 0 to size
      invariant ReadyFrom(mode, p, pa, id, ip, nd, size, orig, i)
      invariant forall x | 0 <= x < i :: pa[0][x] == orig[id[0]][x] && pa[1][x] == orig[id[1]][x]
    {
      ReadyFromAt(mode, p, pa, id, ip, nd, size, orig, i);
      PairAt(mode, id, ip, nd, size, p, pa, t0, t1, i, orig);
    }
  }

  /** raid_rec2of2_int8. */
  method Rec2of2(mode: Mode, id: seq<nat>, ip: seq<nat>, nd: nat, size: nat, v: array<Block>, zero: Block, ghost np: nat, ghost orig: Blocks)
    requires RecReady(mode, v[..], zero, id, ip, nd, np, size, orig) && ip == [0, 1] && nd <= RAID_DATA_MAX
    modifies v, Buffers(v[..], id)
    ensures v[..] == old(v[..]) && Restored(v[..], orig, id)
  {
    hide *;
    ghost var vs := v[..];
    RecParts(mode, vs, zero, id, ip, nd, np, size, orig);
    PairIds(id, nd);
    var t0 := Inv(Add(Pow2(id[1] - id[0]), ONE));
    var t1 := Inv(Add(Pow2(id[0]), Pow2(id[1])));
    DeltaPhase(mode, id, ip, nd, size, v, zero, np, orig);
    ParityOutside(vs, id, ip, nd, np);
    var p, pa := PickParity(v[..], ip, nd), Pick(v[..], id);
    PickDistinct(vs, id);
    PairApart(vs, id, p, pa);
    PairLoop(mode, id, ip, nd, size, p, pa, t0, t1, orig);
    RestoredFrom(vs, orig, id);
  }

  lemma PairApart(vs: seq<Block>, id: seq<nat>, p: seq<Block>, pa: seq<Block>)
    requires Below(id, |vs|) && |id| == 2 && pa == Pick(vs, id) && AllDistinct(pa) && |p| == 2
    requires p[0] !in Buffers(vs, id) && p[1] !in Buffers(vs, id)
    ensures pa[0] in Buffers(vs, id) && pa[1] in Buffers(vs, id)
    ensures pa[0] != pa[1] && p[0] != pa[0] && p[0] != pa[1] && p[1] != pa[0] && p[1] != pa[1]
  {}

  /** The forwarder for |id| missing blocks, with raid_rec2_int8's shortcut for P and Q. */
  method RecForward(mode: Mode, id: seq<nat>, ip: seq<nat>, nd: nat, size: nat, v: array<Block>, zero: Block, ghost np: nat, ghost orig: Blocks)
    requires RecReady(mode, v[..], zero, id, ip, nd, np, size, orig) && nd <= RAID_DATA_MAX
    modifies v, Buffers(v[..], id)
    ensures v[..] == old(v[..]) && Restored(v[..], orig, id)
  {
    hide *;
    if |id| == 1 {
      Rec1(mode, id, ip, nd, size, v, zero, np, orig);
    } else if ip == [0, 1] {
      Rec2of2(mode, id, ip, nd, size, v, zero, np, orig);
    } else {
      RecX(mode, id, ip, nd, size, v, zero, np, orig);
    }
  }
}
