/** raid_delta_gen(): partial parities computed into the buffers of the missing blocks. */
module Delta {
  import opened Gf
  import opened LinAlg
  import opened Generator
  import opened Stripe
  import opened Gen

  predicate AllDistinct(vs: seq<Block>) {
    forall i, j | 0 <= i < j < |vs| :: vs[i] != vs[j]
  }

  /** The missing blocks id and the parities ip used to recover them. */
  predicate Job(id: seq<nat>, ip: seq<nat>, nd: nat) {
    0 < |id| == |ip| && Increasing(id) && Increasing(ip) && Below(id, nd)
  }

  /** The missing block whose buffer takes parity i: its own if used, else the last. */
  function Owner(ip: seq<nat>, i: nat): (k: nat)
    requires |ip| > 0
    ensures k < |ip|
  {
    OwnerFrom(ip, i, 0)
  }

  function OwnerFrom(ip: seq<nat>, i: nat, from: nat): (k: nat)
    requires from < |ip|
    ensures from <= k < |ip| && (k == |ip| - 1 || ip[k] == i)
    decreases |ip| - from
  {
    if from == |ip| - 1 || ip[from] == i then from else OwnerFrom(ip, i, from + 1)
  }

  lemma {:induction false} OwnerOfUsed(ip: seq<nat>, j: nat, from: nat)
    requires Increasing(ip) && from <= j < |ip|
    ensures OwnerFrom(ip, ip[j], from) == j
    decreases j - from
  {
    if from < j { OwnerOfUsed(ip, j, from + 1); }
  }

  lemma {:induction false} OwnerOfUnused(ip: seq<nat>, i: nat, from: nat)
    requires from < |ip| && forall k | 0 <= k < |ip| - 1 :: ip[k] != i
    ensures OwnerFrom(ip, i, from) == |ip| - 1
    decreases |ip| - from
  {
    if from < |ip| - 1 { OwnerOfUnused(ip, i, from + 1); }
  }

  /** What the vector of buffers holds once parities below i, of which j are used, are redirected. */
  ghost predicate Redirected(vs: seq<Block>, vs0: seq<Block>, zero: Block, id: seq<nat>, ip: seq<nat>, nd: nat, i: nat, j: nat)
    requires Job(id, ip, nd) && j <= |id| && nd + i <= |vs| == |vs0|
  {
    && (forall d | 0 <= d < nd :: vs[d] == if d in id[..j] then zero else vs0[d])
    && (forall x | nd <= x < nd + i :: vs[x] == vs0[id[Owner(ip, x - nd)]])
    && (forall k | 0 <= k < j :: ip[k] < i)
    && (forall k | j <= k < |ip| :: i <= ip[k])
    && (forall x | nd + i <= x < |vs| :: vs[x] == vs0[x])
  }

  lemma NotYet(id: seq<nat>, j: nat)
    requires Increasing(id) && j < |id|
    ensures id[j] !in id[..j]
  {}

  /** A used parity goes to the buffer of the block it recovers. */
  lemma RedirectUsed(vs: seq<Block>, vs0: seq<Block>, zero: Block, id: seq<nat>, ip: seq<nat>, nd: nat, i: nat, j: nat)
    requires Job(id, ip, nd) && j < |id| && nd + i < |vs| == |vs0| && ip[j] == i
    requires Redirected(vs, vs0, zero, id, ip, nd, i, j)
    ensures vs[id[j]] == vs0[id[j]]
    ensures Redirected(vs[id[j] := zero][nd + i := vs0[id[j]]], vs0, zero, id, ip, nd, i + 1, j + 1)
  {
    NotYet(id, j);
    OwnerOfUsed(ip, j, 0);
    assert id[..j + 1] == id[..j] + [id[j]];
    forall k | j + 1 <= k < |ip| ensures i + 1 <= ip[k] { assert ip[j] < ip[k]; }
  }

  /** An unused parity shares the buffer that the last used one will overwrite. */
  lemma RedirectUnused(vs: seq<Block>, vs0: seq<Block>, zero: Block, id: seq<nat>, ip: seq<nat>, nd: nat, i: nat, j: nat)
    requires Job(id, ip, nd) && j < |id| && nd + i < |vs| == |vs0| && ip[j] != i
    requires Redirected(vs, vs0, zero, id, ip, nd, i, j)
    ensures Redirected(vs[nd + i := vs0[id[|id| - 1]]], vs0, zero, id, ip, nd, i + 1, j)
  {
    forall k | j <= k < |ip| ensures i + 1 <= ip[k] { assert ip[j] <= ip[k]; }
    forall k | 0 <= k < |ip| - 1 ensures ip[k] != i { assert k < j || i < ip[k]; }
    OwnerOfUnused(ip, i, 0);
  }

  lemma RedirectNone(vs: seq<Block>, zero: Block, id: seq<nat>, ip: seq<nat>, nd: nat)
    requires Job(id, ip, nd) && nd <= |vs|
    ensures Redirected(vs, vs, zero, id, ip, nd, 0, 0)
  {}

  method UseParity(v: array<Block>, zero: Block, id: seq<nat>, ip: seq<nat>, nd: nat, i: nat, j: nat, ghost vs0: seq<Block>)
    requires Job(id, ip, nd) && j < |id| && nd + i < v.Length == |vs0| && ip[j] == i
    requires Redirected(v[..], vs0, zero, id, ip, nd, i, j)
    modifies v
    ensures Redirected(v[..], vs0, zero, id, ip, nd, i + 1, j + 1)
  {
    hide Redirected, Increasing;
    ghost var vs: seq<Block> := v[..];
    RedirectUsed(vs, vs0, zero, id, ip, nd, i, j);
    var pa := v[id[j]];
    v[id[j]] := zero;
    v[nd + i] := pa;
    assert v[..] == vs[id[j] := zero][nd + i := pa];
  }

  method SkipParity(v: array<Block>, zero: Block, id: seq<nat>, ip: seq<nat>, nd: nat, i: nat, j: nat, latest: Block, ghost vs0: seq<Block>)
    requires Job(id, ip, nd) && j < |id| && nd + i < v.Length == |vs0| && ip[j] != i
    requires Redirected(v[..], vs0, zero, id, ip, nd, i, j) && latest == vs0[id[|id| - 1]]
    modifies v
    ensures Redirected(v[..], vs0, zero, id, ip, nd, i + 1, j)
  {
    hide Redirected, Increasing;
    ghost var vs: seq<Block> := v[..];
    RedirectUnused(vs, vs0, zero, id, ip, nd, i, j);
    v[nd + i] := latest;
    assert v[..] == vs[nd + i := latest];
  }

  method Redirect(v: array<Block>, zero: Block, id: seq<nat>, ip: seq<nat>, nd: nat) returns (p: seq<Block>, pa: seq<Block>)
    requires Job(id, ip, nd) && nd + ip[|ip| - 1] + 1 <= v.Length
    modifies v
    ensures Redirected(v[..], old(v[..]), zero, id, ip, nd, ip[|ip| - 1] + 1, |ip|)
    ensures |p| == ip[|ip| - 1] + 1 && p == old(v[nd..nd + |p|])
    ensures |pa| == |id| && forall k | 0 <= k < |pa| :: pa[k] == old(v[id[k]])
  {
    hide Redirected, Increasing;
    ghost var vs0 := v[..];
    RedirectNone(v[..], zero, id, ip, nd);
    var nr := |id|;
    var np := ip[nr - 1] + 1;
    var latest := v[id[nr - 1]];
    p, pa := [], [];
    var i, j := 0, 0;
    while i < np
      invariant 0 <= i <= np && 0 <= j <= nr && p == vs0[nd..nd + i] && |pa| == j
      invariant Redirected(v[..], vs0, zero, id, ip, nd, i, j)
      invariant forall k | 0 <= k < j :: pa[k] == vs0[id[k]]
    {
      JobLeft(v[..], vs0, zero, id, ip, nd, i, j);
      assert j < nr;
      p := p + [v[nd + i]];
      if ip[j] == i {
        RedirectUsed(v[..], vs0, zero, id, ip, nd, i, j);
        pa := pa + [v[id[j]]];
        UseParity(v, zero, id, ip, nd, i, j, vs0);
        j := j + 1;
      } else {
        SkipParity(v, zero, id, ip, nd, i, j, latest, vs0);
      }
      i := i + 1;
    }
    JobDone(v[..], vs0, zero, id, ip, nd, i, j);
    assert j == nr;
  }

  lemma JobLeft(vs: seq<Block>, vs0: seq<Block>, zero: Block, id: seq<nat>, ip: seq<nat>, nd: nat, i: nat, j: nat)
    requires Job(id, ip, nd) && j <= |id| && nd + i < |vs| == |vs0| && i <= ip[|ip| - 1]
    requires Redirected(vs, vs0, zero, id, ip, nd, i, j)
    ensures j < |id| && vs[nd + i] == vs0[nd + i]
  {
    assert j > 0 ==> ip[j - 1] < i;
  }

  lemma JobDone(vs: seq<Block>, vs0: seq<Block>, zero: Block, id: seq<nat>, ip: seq<nat>, nd: nat, i: nat, j: nat)
    requires Job(id, ip, nd) && j <= |id| && nd + i <= |vs| == |vs0| && i == ip[|ip| - 1] + 1
    requires Redirected(vs, vs0, zero, id, ip, nd, i, j)
    ensures j == |id|
  {
    var last := ip[|ip| - 1];
  }

  /** The original vector is put back. */
  method Restore(v: array<Block>, ghost vs0: seq<Block>, ghost zero: Block, id: seq<nat>, ghost ip: seq<nat>, nd: nat,
                 p: seq<Block>, pa: seq<Block>)
    requires Job(id, ip, nd) && |p| == ip[|ip| - 1] + 1 && nd + |p| <= v.Length == |vs0| && |pa| == |id|
    requires Redirected(v[..], vs0, zero, id, ip, nd, |p|, |ip|)
    requires p == vs0[nd..nd + |p|] && forall k | 0 <= k < |pa| :: pa[k] == vs0[id[k]]
    modifies v
    ensures v[..] == vs0
  {
    for j := 0 to |id|
      invariant forall d | 0 <= d < nd && (d !in id || d in id[..j]) :: v[d] == vs0[d]
      invariant forall x | nd + |p| <= x < v.Length :: v[x] == vs0[x]
    {
      v[id[j]] := pa[j];
      assert id[..j + 1] == id[..j] + [id[j]];
    }
    assert id[..|id|] == id;
    for i := 0 to |p|
      invariant forall x | 0 <= x < nd + i :: v[x] == vs0[x]
      invariant forall x | nd + |p| <= x < v.Length :: v[x] == vs0[x]
    {
      v[nd + i] := p[i];
    }
  }

  /** The data with the missing blocks blanked. */
  function Blanked(data: Blocks, size: nat, id: seq<nat>): (r: Blocks)
    requires Sized(data, size)
    ensures |r| == |data| && Sized(r, size)
  {
    seq(|data|, d requires 0 <= d < |data| => if d in id then Zeros(size) else data[d])
  }

  lemma BlankedColumn(data: Blocks, size: nat, id: seq<nat>, i: nat)
    requires Sized(data, size) && i < size
    ensures Column(Blanked(data, size, id), size, i) == Zeroed(Column(data, size, i), id)
  {}

  /** Blocks outside id hold data. */
  ghost predicate HoldsOutside(vs: seq<Block>, nd: nat, data: Blocks, id: seq<nat>)
    requires nd <= |vs| && nd <= |data|
    reads vs
  {
    && (forall d | 0 <= d < nd :: vs[d].Length == |data[d]|)
    && (forall d, i | 0 <= d < nd && 0 <= i < |data[d]| && d !in id :: vs[d][i] == data[d][i])
  }

  ghost predicate ZeroBlock(zero: Block, size: nat)
    reads zero
  {
    zero.Length == size && forall i | 0 <= i < size :: zero[i] == ZERO
  }

  ghost function Buffers(vs: seq<Block>, id: seq<nat>): (r: set<Block>)
    requires Below(id, |vs|)
    ensures forall k | 0 <= k < |id| :: vs[id[k]] in r
    ensures forall b | b in r :: exists k :: 0 <= k < |id| && vs[id[k]] == b
  {
    set k | 0 <= k < |id| :: vs[id[k]]
  }

  /** Redirected outputs are buffers of missing blocks. */
  lemma OutputIsBuffer(vs: seq<Block>, vs0: seq<Block>, zero: Block, id: seq<nat>, ip: seq<nat>, nd: nat, np: nat, x: nat)
    requires Job(id, ip, nd) && np == ip[|ip| - 1] + 1 && nd + np <= |vs| == |vs0| && nd <= x < nd + np
    requires Redirected(vs, vs0, zero, id, ip, nd, np, |id|)
    ensures vs[x] in Buffers(vs0, id)
  {}

  lemma RedirectReady(vs: seq<Block>, vs0: seq<Block>, zero: Block, id: seq<nat>, ip: seq<nat>, nd: nat, np: nat, size: nat, data: Blocks)
    requires Job(id, ip, nd) && np == ip[|ip| - 1] + 1 && nd + np <= |vs| == |vs0|
    requires AllDistinct(vs0) && zero !in vs0 && |data| == nd && Sized(data, size)
    requires Redirected(vs, vs0, zero, id, ip, nd, np, |id|)
    requires HoldsOutside(vs0, nd, data, id) && ZeroBlock(zero, size)
    ensures GenReady(vs, nd, np, size, Blanked(data, size, id))
    ensures Outputs(vs, nd, np) <= Buffers(vs0, id)
  {
    assert id[..|id|] == id;
    forall x | nd <= x < nd + np ensures vs[x] in Buffers(vs0, id) && vs[x].Length == size {
      OutputIsBuffer(vs, vs0, zero, id, ip, nd, np, x);
    }
    forall d, x | 0 <= d < nd <= x < nd + np ensures vs[d] != vs[x] {
      assert vs[x] in Buffers(vs0, id);
    }
  }

  /** The buffer of a used parity is written for the last time by that parity. */
  lemma RedirectLast(vs: seq<Block>, vs0: seq<Block>, zero: Block, id: seq<nat>, ip: seq<nat>, nd: nat, np: nat, k: nat)
    requires Job(id, ip, nd) && np == ip[|ip| - 1] + 1 && nd + np <= |vs| == |vs0| && k < |id|
    requires AllDistinct(vs0) && Redirected(vs, vs0, zero, id, ip, nd, np, |id|)
    ensures ip[k] < np && vs[nd + ip[k]] == vs0[id[k]] && Last(vs, nd, np, nd + ip[k])
  {
    hide Increasing;
    OwnerOfUsed(ip, k, 0);
    IncreasingPair(ip, k, |ip| - 1);
    forall y | nd + ip[k] < y < nd + np ensures vs[y] != vs0[id[k]] {
      var m := Owner(ip, y - nd);
      IncreasingPair(id, k, m);
    }
  }

  lemma IncreasingPair(s: seq<nat>, i: nat, j: nat)
    requires Increasing(s) && i < |s| && j < |s|
    ensures (i < j ==> s[i] < s[j]) && (j < i ==> s[j] < s[i])
  {}

  /** The buffer of missing block id[k] holds parity ip[k] of the blanked data. */
  ghost predicate PartialParity(mode: Mode, vs: seq<Block>, id: seq<nat>, ip: seq<nat>, nd: nat, size: nat, data: Blocks)
    requires Job(id, ip, nd) && nd <= |vs| && |data| == nd && Sized(data, size)
    requires forall d | 0 <= d < nd :: vs[d].Length == size
    reads vs
  {
    forall k, i | 0 <= k < |id| && 0 <= i < size ::
      vs[id[k]][i] == Parity(mode, ip[k], Zeroed(Column(data, size, i), id))
  }

  lemma PartialFromWritten(mode: Mode, vs: seq<Block>, vs0: seq<Block>, zero: Block, id: seq<nat>, ip: seq<nat>,
                           nd: nat, np: nat, size: nat, data: Blocks)
    requires Job(id, ip, nd) && np == ip[|ip| - 1] + 1 && nd + np <= |vs| == |vs0| && |data| == nd && Sized(data, size)
    requires AllDistinct(vs0) && Redirected(vs, vs0, zero, id, ip, nd, np, |id|)
    requires forall x | nd <= x < nd + np :: vs[x].Length == size
    requires forall d | 0 <= d < nd :: vs0[d].Length == size
    requires Written(mode, vs, nd, np, size, Blanked(data, size, id), size)
    ensures PartialParity(mode, vs0, id, ip, nd, size, data)
  {
    hide Parity, Redirected;
    forall k, i | 0 <= k < |id| && 0 <= i < size
      ensures vs0[id[k]][i] == Parity(mode, ip[k], Zeroed(Column(data, size, i), id))
    {
      RedirectLast(vs, vs0, zero, id, ip, nd, np, k);
      BlankedColumn(data, size, id, i);
      var x := nd + ip[k];
      assert vs[x][i] == Parity(mode, x - nd, Column(Blanked(data, size, id), size, i));
    }
  }

  /**
   * raid_delta_gen. Only the buffers of the missing blocks change: v itself is
   * restored and no other block, used or unused parity included, is written.
   */
  method RaidDeltaGen(mode: Mode, id: seq<nat>, ip: seq<nat>, nd: nat, size: nat, v: array<Block>, zero: Block, ghost data: Blocks)
    requires Job(id, ip, nd) && Below(ip, MaxParity(mode)) && nd + ip[|ip| - 1] + 1 <= v.Length && size % 64 == 0
    requires AllDistinct(v[..]) && zero !in v[..] && |data| == nd && Sized(data, size)
    requires HoldsOutside(v[..], nd, data, id) && ZeroBlock(zero, size)
    modifies v, Buffers(v[..], id)
    ensures v[..] == old(v[..])
    ensures PartialParity(mode, v[..], id, ip, nd, size, data)
  {
    hide Parity, Redirected, Written, GenReady, HoldsOutside, ZeroBlock, Buffers, Outputs, PartialParity, Increasing;
    ghost var vs0 := v[..];
    var np := ip[|ip| - 1] + 1;
    assert id[0] < nd;
    assert forall d | 0 <= d < nd :: vs0[d].Length == size by { LengthsOutside(vs0, nd, data, size, id); }
    var p, pa := Redirect(v, zero, id, ip, nd);
    ghost var vs: seq<Block> := v[..];
    RedirectReady(vs, vs0, zero, id, ip, nd, np, size, data);
    ReadyLengths(vs, nd, np, size, Blanked(data, size, id));
    RaidGen(mode, v[..], nd, np, size, Blanked(data, size, id));
    PartialFromWritten(mode, vs, vs0, zero, id, ip, nd, np, size, data);
    Restore(v, vs0, zero, id, ip, nd, p, pa);
  }

  lemma LengthsOutside(vs: seq<Block>, nd: nat, data: Blocks, size: nat, id: seq<nat>)
    requires nd <= |vs| && nd == |data| && Sized(data, size) && HoldsOutside(vs, nd, data, id)
    ensures forall d | 0 <= d < nd :: vs[d].Length == size
  {}

  lemma ReadyLengths(vs: seq<Block>, nd: nat, np: nat, size: nat, data: Blocks)
    requires GenReady(vs, nd, np, size, data)
    ensures nd + np <= |vs| && forall x | nd <= x < nd + np :: vs[x].Length == size
  {}
}
