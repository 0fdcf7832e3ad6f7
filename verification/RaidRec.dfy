/** raid_rec() and raid_data(): the entry points of recovery. */
module RaidRec {
  import opened Gf
  import opened LinAlg
  import opened Generator
  import opened Stripe
  import opened Gen
  import opened Delta
  import opened Rec

  /** Every block outside ir holds the stripe; the blocks in ir hold anything. */
  ghost predicate HoldsExcept(vs: seq<Block>, orig: Blocks, ir: seq<nat>)
    requires |orig| <= |vs|
    reads vs
  {
    forall x | 0 <= x < |orig| :: vs[x].Length == |orig[x]| && (x !in ir ==> Same(vs[x], orig[x]))
  }

  /** What raid_rec may be asked. */
  ghost predicate RecInput(mode: Mode, vs: seq<Block>, zero: Block, ir: seq<nat>, nd: nat, np: nat, size: nat, orig: Blocks)
    reads vs, zero
  {
    && 0 < nd <= RAID_DATA_MAX && |ir| <= np <= MaxParity(mode) && nd + np <= |vs| && size % 64 == 0
    && Increasing(ir) && Below(ir, nd + np)
    && AllDistinct(vs) && zero !in vs && ZeroBlock(zero, size)
    && ValidStripe(mode, orig, nd, np, size) && HoldsExcept(vs, orig, ir)
  }

  method CountData(ir: seq<nat>, nd: nat) returns (nrd: nat)
    requires Increasing(ir)
    ensures nrd <= |ir| && Below(ir[..nrd], nd) && forall k | nrd <= k < |ir| :: nd <= ir[k]
  {
    nrd := 0;
    while nrd < |ir| && ir[nrd] < nd
      invariant nrd <= |ir| && Below(ir[..nrd], nd)
    {
      nrd := nrd + 1;
    }
    forall k | nrd <= k < |ir| ensures nd <= ir[k] {
      assert nrd < k ==> ir[nrd] < ir[k];
    }
  }

  /** The parities that are not to be recovered, in order. */
  ghost predicate GoodParities(ip: seq<nat>, ir: seq<nat>, nd: nat, n: nat) {
    && Increasing(ip) && Below(ip, n) && (forall k | 0 <= k < |ip| :: nd + ip[k] !in ir)
    && (forall p | 0 <= p < n :: Listed(p, ip, ir, nd))
  }

  predicate Listed(p: nat, ip: seq<nat>, ir: seq<nat>, nd: nat) {
    nd + p in ir || p in ip
  }

  /** The parities below n that are not in ir. */
  function GoodPart(ir: seq<nat>, nd: nat, n: nat): (ip: seq<nat>)
    ensures GoodParities(ip, ir, nd, n)
  {
    if n == 0 then []
    else GoodStep(GoodPart(ir, nd, n - 1), ir, nd, n - 1)
  }

  function GoodStep(ip: seq<nat>, ir: seq<nat>, nd: nat, i: nat): (r: seq<nat>)
    requires GoodParities(ip, ir, nd, i)
    ensures GoodParities(r, ir, nd, i + 1)
  {
    GoodNext(ip, ir, nd, i);
    if nd + i in ir then ip else ip + [i]
  }

  lemma GoodNext(ip: seq<nat>, ir: seq<nat>, nd: nat, i: nat)
    requires GoodParities(ip, ir, nd, i)
    ensures GoodParities(if nd + i in ir then ip else ip + [i], ir, nd, i + 1)
  {
    var r := if nd + i in ir then ip else ip + [i];
    forall p | 0 <= p < i + 1 ensures Listed(p, r, ir, nd) {
      assert p < i ==> Listed(p, ip, ir, nd);
      assert p == i && nd + i !in ir ==> r[|ip|] == i;
    }
  }

  /** Position j of ir, past its data blocks, is the first at or after parity i. */
  predicate Cursor(ir: seq<nat>, nrd: nat, nd: nat, i: nat, j: nat) {
    && nrd + j <= |ir|
    && (forall k | 0 <= k < nrd + j :: ir[k] < nd + i)
    && (forall k | nrd + j <= k < |ir| :: nd + i <= ir[k])
  }

  lemma CursorHit(ir: seq<nat>, nrd: nat, nd: nat, i: nat, j: nat)
    requires Increasing(ir) && Cursor(ir, nrd, nd, i, j)
    ensures nd + i in ir <==> nrd + j < |ir| && ir[nrd + j] == nd + i
    ensures Cursor(ir, nrd, nd, i + 1, if nd + i in ir then j + 1 else j)
  {
    if nrd + j < |ir| {
      forall k | nrd + j < k < |ir| ensures ir[nrd + j] < ir[k] {}
    }
  }

  method PickParities(ir: seq<nat>, nrd: nat, nd: nat, np: nat) returns (ip: seq<nat>)
    requires Increasing(ir) && nrd <= |ir|
    requires Below(ir[..nrd], nd) && forall k | nrd <= k < |ir| :: nd <= ir[k]
    ensures ip == GoodPart(ir, nd, np)
  {
    var nrp := |ir| - nrd;
    assert forall k | 0 <= k < nrd :: ir[k] == ir[..nrd][k];
    ip := [];
    var j := 0;
    for i := 0 to np
      invariant 0 <= j <= nrp && ip == GoodPart(ir, nd, i) && Cursor(ir, nrd, nd, i, j)
    {
      CursorHit(ir, nrd, nd, i, j);
      if j < nrp && ir[nrd + j] == nd + i {
        j := j + 1;
      } else {
        ip := ip + [i];
      }
    }
  }

  /** As many parities are good as are not in ir. */
  lemma {:induction false} GoodCount(ir: seq<nat>, nrd: nat, nd: nat, n: nat, j: nat)
    requires Increasing(ir) && Cursor(ir, nrd, nd, n, j)
    requires forall k | 0 <= k < |ir| :: k < nrd <==> ir[k] < nd
    ensures j <= n && |GoodPart(ir, nd, n)| == n - j
    decreases n
  {
    if n == 0 {
      assert nrd < |ir| ==> nd <= ir[nrd];
    } else if j > 0 && ir[nrd + j - 1] == nd + (n - 1) {
      CursorBack(ir, nrd, nd, n, j);
      GoodCount(ir, nrd, nd, n - 1, j - 1);
    } else {
      CursorBack(ir, nrd, nd, n, j);
      GoodCount(ir, nrd, nd, n - 1, j);
    }
  }

  lemma CursorBack(ir: seq<nat>, nrd: nat, nd: nat, n: nat, j: nat)
    requires Increasing(ir) && Cursor(ir, nrd, nd, n, j) && n > 0
    requires forall k | 0 <= k < |ir| :: k < nrd <==> ir[k] < nd
    ensures nd + (n - 1) in ir <==> j > 0 && ir[nrd + j - 1] == nd + (n - 1)
    ensures j > 0 && ir[nrd + j - 1] == nd + (n - 1) ==> Cursor(ir, nrd, nd, n - 1, j - 1)
    ensures nd + (n - 1) !in ir ==> Cursor(ir, nrd, nd, n - 1, j)
  {
    if j > 0 {
      forall k | 0 <= k < nrd + j - 1 ensures ir[k] < ir[nrd + j - 1] {}
    }
  }

  lemma GoodTotal(ir: seq<nat>, nrd: nat, nd: nat, np: nat)
    requires Increasing(ir) && Below(ir, nd + np) && nrd <= |ir|
    requires Below(ir[..nrd], nd) && forall k | nrd <= k < |ir| :: nd <= ir[k]
    ensures |ir| - nrd <= np && |GoodPart(ir, nd, np)| == np - (|ir| - nrd)
  {
    assert forall k | 0 <= k < nrd :: ir[k] == ir[..nrd][k];
    GoodCount(ir, nrd, nd, np, |ir| - nrd);
  }

  // ------------------------------------------------------- what stays put

  /** The indexes below n that are not in ir, in order. */
  function Others(ir: seq<nat>, n: nat): (r: seq<nat>)
    ensures Complement(r, ir, n)
  {
    if n == 0 then [] else Others(ir, n - 1) + (if n - 1 in ir then [] else [n - 1])
  }

  /** Block p[k] holds block idx[k] of the stripe. */
  ghost predicate HeldAt(p: seq<Block>, orig: Blocks, idx: seq<nat>)
    reads p
  {
    |p| == |idx| && forall k | 0 <= k < |p| :: idx[k] < |orig| && Same(p[k], orig[idx[k]])
  }

  ghost predicate Complement(idx: seq<nat>, ir: seq<nat>, n: nat) {
    Below(idx, n) && (forall x | 0 <= x < n && x !in ir :: x in idx) && (forall x | x in idx :: x !in ir)
  }

  lemma HeldAtOthers(vs: seq<Block>, orig: Blocks, ir: seq<nat>, idx: seq<nat>)
    requires |orig| <= |vs| && forall x | 0 <= x < |orig| && x !in ir :: Same(vs[x], orig[x])
    requires Complement(idx, ir, |orig|)
    ensures Below(idx, |vs|) && HeldAt(Pick(vs, idx), orig, idx)
  {
    hide Same;
    forall k | 0 <= k < |idx| ensures Same(vs[idx[k]], orig[idx[k]]) { assert idx[k] in idx; }
  }

  lemma OthersHeldAt(vs: seq<Block>, orig: Blocks, ir: seq<nat>, idx: seq<nat>, x: nat)
    requires |orig| <= |vs| && x < |orig| && x !in ir && Below(idx, |vs|)
    requires Complement(idx, ir, |orig|) && HeldAt(Pick(vs, idx), orig, idx)
    ensures Same(vs[x], orig[x])
  {
    hide Same;
    var k :| 0 <= k < |idx| && idx[k] == x;
    assert Pick(vs, idx)[k] == vs[x];
  }

  lemma OthersDisjoint(vs: seq<Block>, id: seq<nat>, ir: seq<nat>, idx: seq<nat>, n: nat)
    requires Below(id, |vs|) && AllDistinct(vs) && n <= |vs| && (forall x | x in id :: x in ir)
    requires Complement(idx, ir, n)
    ensures Below(idx, |vs|)
    ensures forall b | b in Pick(vs, idx) :: b !in Buffers(vs, id)
  {
    hide Buffers;
    forall b | b in Pick(vs, idx) ensures b !in Buffers(vs, id) {
      var k :| 0 <= k < |idx| && vs[idx[k]] == b;
      assert idx[k] in idx;
      OutsideBuffers(vs, id, idx[k]);
    }
  }

  // ------------------------------------------------------- the two phases

  lemma DataReady(mode: Mode, vs: seq<Block>, zero: Block, ir: seq<nat>, nrd: nat, ip: seq<nat>, nd: nat, np: nat, size: nat, orig: Blocks)
    requires RecInput(mode, vs, zero, ir, nd, np, size, orig) && 0 < nrd <= |ir| && nrd <= |ip|
    requires Below(ir[..nrd], nd) && forall k | nrd <= k < |ir| :: nd <= ir[k]
    requires GoodParities(ip, ir, nd, np)
    ensures RecReady(mode, vs, zero, ir[..nrd], ip[..nrd], nd, np, size, orig)
    ensures forall x | x in ir[..nrd] :: x in ir
  {
    hide Same, ValidStripe, ZeroBlock;
    StripeShape(mode, orig, nd, np, size);
    var id := ir[..nrd];
    forall d | 0 <= d < nd && d !in id ensures d !in ir {
      forall k | 0 <= k < |ir| ensures ir[k] != d { assert k < nrd ==> id[k] in id; }
    }
    forall d, i | 0 <= d < nd && 0 <= i < |orig[..nd][d]| && d !in id ensures vs[d][i] == orig[..nd][d][i] {
      SameAt(vs[d], orig[d], i);
    }
  }

  lemma StripeShape(mode: Mode, orig: Blocks, nd: nat, np: nat, size: nat)
    requires ValidStripe(mode, orig, nd, np, size)
    ensures |orig| == nd + np && Sized(orig, size)
  {}

  lemma SameAt(b: Block, s: seq<GF>, i: nat)
    requires Same(b, s) && i < |s|
    ensures b.Length == |s| && b[i] == s[i]
  {}

  /** Every block that is not a parity in ir holds the stripe again. */
  method DataPhase(mode: Mode, ir: seq<nat>, nrd: nat, ip: seq<nat>, nd: nat, np: nat, size: nat, v: array<Block>, zero: Block, ghost orig: Blocks)
    requires RecInput(mode, v[..], zero, ir, nd, np, size, orig) && 0 < nrd <= |ir| && nrd <= |ip|
    requires Below(ir[..nrd], nd) && forall k | nrd <= k < |ir| :: nd <= ir[k]
    requires GoodParities(ip, ir, nd, np)
    requires Below(ir[..nrd], v.Length)
    modifies v, Buffers(v[..], ir[..nrd])
    ensures v[..] == old(v[..]) && |orig| == nd + np <= v.Length
    ensures forall x | 0 <= x < |orig| && x !in ir[nrd..] :: Same(v[x], orig[x])
  {
    hide *;
    ghost var vs := v[..];
    DataReady(mode, vs, zero, ir, nrd, ip, nd, np, size, orig);
    InputParts(mode, vs, zero, ir, nd, np, size, orig);
    ghost var idx := Others(ir, |orig|);
    HeldAtOthers(vs, orig, ir, idx);
    OthersDisjoint(vs, ir[..nrd], ir, idx, |orig|);
    ghost var good := Pick(vs, idx);
    assert HeldAt(good, orig, idx);
    RecForward(mode, ir[..nrd], ip[..nrd], nd, size, v, zero, np, orig);
    assert forall b | b in good :: b !in Buffers(vs, ir[..nrd]);
    assert HeldAt(good, orig, idx);
    forall x | 0 <= x < |orig| && x !in ir[nrd..] ensures Same(vs[x], orig[x]) {
      if x in ir {
        RestoredAt(vs, orig, ir, nrd, x);
      } else {
        OthersHeldAt(vs, orig, ir, idx, x);
      }
    }
  }

  lemma InputParts(mode: Mode, vs: seq<Block>, zero: Block, ir: seq<nat>, nd: nat, np: nat, size: nat, orig: Blocks)
    requires RecInput(mode, vs, zero, ir, nd, np, size, orig)
    ensures |orig| == nd + np <= |vs| && AllDistinct(vs) && 0 < nd <= RAID_DATA_MAX && size % 64 == 0 && Sized(orig, size)
    ensures |ir| <= np <= MaxParity(mode) && Increasing(ir) && Below(ir, nd + np) && ValidStripe(mode, orig, nd, np, size)
    ensures forall x | 0 <= x < |orig| :: vs[x].Length == size
    ensures forall x | 0 <= x < |orig| && x !in ir :: Same(vs[x], orig[x])
  {
    hide Same, ZeroBlock, Parity;
  }

  lemma RestoredAt(vs: seq<Block>, orig: Blocks, ir: seq<nat>, nrd: nat, x: nat)
    requires nrd <= |ir| && x in ir && x !in ir[nrd..] && Restored(vs, orig, ir[..nrd])
    ensures x < |vs| && x < |orig| && Same(vs[x], orig[x])
  {
    hide Same;
    var k :| 0 <= k < |ir| && ir[k] == x;
    assert ir == ir[..nrd] + ir[nrd..];
    var m :| 0 <= m < nrd && ir[..nrd][m] == x;
  }

  lemma RegenReady(vs: seq<Block>, orig: Blocks, nd: nat, n: nat, size: nat)
    requires nd + n <= |orig| <= |vs| && Sized(orig, size) && AllDistinct(vs)
    requires forall x | 0 <= x < |orig| :: vs[x].Length == size
    requires forall x | 0 <= x < nd :: Same(vs[x], orig[x])
    ensures Sized(orig[..nd], size) && GenReady(vs, nd, n, size, orig[..nd])
  {
    forall d, i | 0 <= d < nd && 0 <= i < size ensures vs[d][i] == orig[..nd][d][i] { SameAt(vs[d], orig[d], i); }
  }

  lemma RegenDone(mode: Mode, vs: seq<Block>, orig: Blocks, nd: nat, np: nat, n: nat, size: nat, x: nat)
    requires ValidStripe(mode, orig, nd, np, size) && n <= np && nd + np <= |vs| && AllDistinct(vs) && nd <= x < nd + n
    requires Sized(orig[..nd], size) && forall y | nd <= y < nd + n :: vs[y].Length == size
    requires Written(mode, vs, nd, n, size, orig[..nd], size)
    ensures Same(vs[x], orig[x])
  {
    hide Parity;
    assert Last(vs, nd, n, x);
    forall i | 0 <= i < size ensures vs[x][i] == orig[x][i] {
      StripeColumn(mode, orig, nd, np, size, x - nd, i);
    }
  }

  lemma OutputsAre(vs: seq<Block>, nd: nat, n: nat, x: nat)
    requires nd + n <= |vs| && AllDistinct(vs) && x < |vs| && !(nd <= x < nd + n)
    ensures vs[x] !in Outputs(vs, nd, n)
  {}

  function Range(a: nat, n: nat): (r: seq<nat>)
    ensures forall x: nat :: x in r <==> a <= x < a + n
  {
    if n == 0 then [] else Range(a, n - 1) + [a + n - 1]
  }

  /** Parities are recomputed up to the last bad one. */
  method ParityPhase(mode: Mode, ghost bad: seq<nat>, nd: nat, ghost np: nat, n: nat, size: nat, v: array<Block>, ghost orig: Blocks)
    requires ValidStripe(mode, orig, nd, np, size) && 0 < nd && 1 <= n <= np <= MaxParity(mode) && nd + np <= v.Length && size % 64 == 0
    requires AllDistinct(v[..]) && (forall x | 0 <= x < nd + np :: v[x].Length == size) && |orig| == nd + np
    requires forall x | 0 <= x < nd + np && x !in bad :: Same(v[x], orig[x])
    requires forall x | x in bad :: nd <= x < nd + n
    modifies Outputs(v[..], nd, n)
    ensures forall x | 0 <= x < nd + np :: Same(v[x], orig[x])
  {
    hide *;
    ghost var vs := v[..];
    StripeShape(mode, orig, nd, np, size);
    RegenReady(vs, orig, nd, n, size);
    ghost var tail := Range(nd, n);
    ghost var idx := Others(tail, |orig|);
    HeldAtOthers(vs, orig, tail, idx);
    OthersApart(vs, tail, idx, nd, n, nd + np);
    ghost var good := Pick(vs, idx);
    assert HeldAt(good, orig, idx);
    RaidGen(mode, v[..], nd, n, size, orig[..nd]);
    assert forall b | b in good :: b !in Outputs(vs, nd, n);
    assert HeldAt(good, orig, idx);
    forall x | 0 <= x < nd + np ensures Same(vs[x], orig[x]) {
      if nd <= x < nd + n {
        RegenDone(mode, vs, orig, nd, np, n, size, x);
      } else {
        OthersHeldAt(vs, orig, tail, idx, x);
      }
    }
  }

  lemma OthersApart(vs: seq<Block>, ir: seq<nat>, idx: seq<nat>, nd: nat, n: nat, m: nat)
    requires nd + n <= m <= |vs| && AllDistinct(vs) && forall x | nd <= x < nd + n :: x in ir
    requires Complement(idx, ir, m)
    ensures Below(idx, |vs|)
    ensures forall b | b in Pick(vs, idx) :: b !in Outputs(vs, nd, n)
  {
    hide Outputs;
    forall b | b in Pick(vs, idx) ensures b !in Outputs(vs, nd, n) {
      var k :| 0 <= k < |idx| && vs[idx[k]] == b;
      assert idx[k] in idx;
      OutputsAre(vs, nd, n, idx[k]);
    }
  }

  /** The blocks raid_rec may write: all of the stripe's. */
  ghost function StripeBlocks(vs: seq<Block>, n: nat): (r: set<Block>)
    requires n <= |vs|
    ensures forall x | 0 <= x < n :: vs[x] in r
  {
    set x | 0 <= x < n :: vs[x]
  }

  lemma BuffersInStripe(vs: seq<Block>, id: seq<nat>, nd: nat, k: nat, n: nat)
    requires Below(id, n) && nd + k <= n <= |vs|
    ensures Buffers(vs, id) <= StripeBlocks(vs, n) && Outputs(vs, nd, k) <= StripeBlocks(vs, n)
  {}

  lemma LastBad(ir: seq<nat>, nrd: nat, nd: nat, np: nat)
    requires Increasing(ir) && Below(ir, nd + np) && nrd < |ir| && forall k | nrd <= k < |ir| :: nd <= ir[k]
    ensures nd <= ir[|ir| - 1] < nd + np
    ensures forall x | x in ir[nrd..] :: nd <= x < nd + (ir[|ir| - 1] - nd + 1)
  {
    forall x | x in ir[nrd..] ensures nd <= x <= ir[|ir| - 1] {
      var k :| 0 <= k < |ir| - nrd && ir[nrd..][k] == x;
      assert ir[nrd + k] == x;
    }
  }

  lemma NoData(ir: seq<nat>, nrd: nat)
    requires nrd == 0
    ensures ir[nrd..] == ir
  {}

  /**
   * raid_rec. Whatever the blocks in ir held, every block of the stripe holds its
   * original contents again, and the vector of buffers is as it was.
   */
  method RaidRec(mode: Mode, ir: seq<nat>, nd: nat, np: nat, size: nat, v: array<Block>, zero: Block, ghost orig: Blocks)
    requires RecInput(mode, v[..], zero, ir, nd, np, size, orig)
    requires nd + np <= v.Length
    modifies v, StripeBlocks(v[..], nd + np)
    ensures v[..] == old(v[..])
    ensures |orig| == nd + np && forall x | 0 <= x < nd + np :: Same(v[x], orig[x])
  {
    hide *;
    ghost var vs := v[..];
    InputParts(mode, vs, zero, ir, nd, np, size, orig);
    var nrd := CountData(ir, nd);
    var nrp := |ir| - nrd;
    if nrd != 0 {
      var ip := PickParities(ir, nrd, nd, np);
      GoodTotal(ir, nrd, nd, np);
      BuffersInStripe(vs, ir[..nrd], nd, 0, nd + np) by { PrefixBelow(ir, nrd, nd, nd + np); }
      PrefixBelow(ir, nrd, nd, v.Length);
      DataPhase(mode, ir, nrd, ip, nd, np, size, v, zero, orig);
    } else {
      NoData(ir, nrd);
    }
    assert forall x | 0 <= x < nd + np && x !in ir[nrd..] :: Same(v[x], orig[x]);
    if nrp != 0 {
      LastBad(ir, nrd, nd, np);
      var n := ir[|ir| - 1] - nd + 1;
      BuffersInStripe(vs, [], nd, n, nd + np) by { NothingBelow(nd + np); }
      ParityPhase(mode, ir[nrd..], nd, np, n, size, v, orig);
    } else {
      assert ir[nrd..] == [];
    }
  }

  lemma PrefixBelow(ir: seq<nat>, nrd: nat, nd: nat, n: nat)
    requires nrd <= |ir| && Below(ir[..nrd], nd) && nd <= n
    ensures Below(ir[..nrd], n)
  {}

  lemma NothingBelow(n: nat)
    ensures Below([], n)
  {}

  /** raid_data: the data blocks in id, from the parities the caller names. */
  method RaidData(mode: Mode, id: seq<nat>, ip: seq<nat>, nd: nat, size: nat, v: array<Block>, zero: Block, ghost np: nat, ghost orig: Blocks)
    requires id != [] ==> RecReady(mode, v[..], zero, id, ip, nd, np, size, orig) && nd <= RAID_DATA_MAX
    modifies v, if id == [] then {} else Buffers(v[..], id)
    ensures v[..] == old(v[..]) && Restored(v[..], orig, id)
  {
    if id != [] {
      RecForward(mode, id, ip, nd, size, v, zero, np, orig);
    }
  }
}
