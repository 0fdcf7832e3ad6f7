/** raid_scan(): the smallest set of blocks that explains a damaged stripe. */
module Scan {
  import opened Gf
  import opened LinAlg
  import opened Generator
  import opened Stripe
  import opened Rec
  import opened RaidRec
  import opened Check
  import opened Combo

  // -------------------------------------------------- distance of the code

  lemma {:induction false} DataCount(ir: seq<nat>, nd: nat) returns (nrd: nat)
    requires Increasing(ir)
    ensures nrd <= |ir| && Below(ir[..nrd], nd) && forall k | nrd <= k < |ir| :: nd <= ir[k]
    decreases |ir|
  {
    if |ir| == 0 {
      nrd := 0;
    } else {
      var n := |ir| - 1;
      nrd := DataCount(ir[..n], nd);
      if ir[n] < nd {
        assert forall k | 0 <= k < n :: ir[k] < ir[n];
        nrd := |ir|;
      } else {
        assert ir[..n][..nrd] == ir[..nrd];
        assert forall k | nrd <= k < n :: ir[k] == ir[..n][k];
      }
    }
  }

  lemma MissingEqual(mode: Mode, a: Vec, b: Vec, id: seq<nat>, ip: seq<nat>, k: nat)
    requires |a| == |b| && |id| == |ip| && Increasing(id) && Below(id, |a|) && k < |ip|
    requires Zeroed(a, id) == Zeroed(b, id) && Parity(mode, ip[k], a) == Parity(mode, ip[k], b)
    ensures Dot(Sub(mode, ip, id)[k], VAdd(Select(a, id), Select(b, id))) == ZERO
  {
    hide Parity, Add, Dot, Increasing, A, Sub, Zeroed, Select;
    var row, sa, sb := Sub(mode, ip, id)[k], Select(a, id), Select(b, id);
    DeltaParity(mode, ip[k], a, id);
    DeltaParity(mode, ip[k], b, id);
    RowOfSub(mode, ip, id, k);
    DotComm(row, VAdd(sa, sb));
    DotAddLeft(sa, sb, row);
    DotComm(row, sa);
    DotComm(row, sb);
    AddZero(Dot(row, sa));
  }

  lemma KernelOfDifference(m: Mat, n: nat, a: Vec, b: Vec)
    requires Nonsingular(m, n) && |a| == |b| == n && forall k | 0 <= k < n :: Dot(m[k], VAdd(a, b)) == ZERO
    ensures a == b
  {
    hide Add, Dot;
    var u := VAdd(a, b);
    assert MatVec(m, u) == Zeros(n);
    assert u == Zeros(n);
    forall k | 0 <= k < n ensures a[k] == b[k] {
      assert u[k] == ZERO;
      AddEqZero(a[k], b[k]);
    }
  }

  /** Two columns that agree off id and on enough parities are the same. */
  lemma ColumnsEqual(mode: Mode, a: Vec, b: Vec, id: seq<nat>, ip: seq<nat>)
    requires |a| == |b| <= RAID_DATA_MAX && |id| == |ip| && Increasing(id) && Increasing(ip) && Below(id, |a|) && Below(ip, MaxParity(mode))
    requires forall d | 0 <= d < |a| && d !in id :: a[d] == b[d]
    requires forall k | 0 <= k < |ip| :: Parity(mode, ip[k], a) == Parity(mode, ip[k], b)
    ensures a == b
  {
    hide Parity, Add, Dot, Increasing, A, Sub, Nonsingular, VAdd;
    assert Zeroed(a, id) == Zeroed(b, id);
    forall k | 0 <= k < |ip| ensures Dot(Sub(mode, ip, id)[k], VAdd(Select(a, id), Select(b, id))) == ZERO {
      MissingEqual(mode, a, b, id, ip, k);
    }
    Mds(mode, ip, id);
    KernelOfDifference(Sub(mode, ip, id), |id|, Select(a, id), Select(b, id));
    forall d | 0 <= d < |a| ensures a[d] == b[d] {
      if d in id {
        var k :| 0 <= k < |id| && id[k] == d;
        assert Select(a, id)[k] == Select(b, id)[k];
      }
    }
  }

  lemma {:induction false} PrefixParity(mode: Mode, a: Blocks, b: Blocks, nd: nat, np: nat, size: nat, ir: seq<nat>, ip: seq<nat>, i: nat, k: nat)
    requires ValidStripe(mode, a, nd, np, size) && ValidStripe(mode, b, nd, np, size) && Agrees(a, b, ir) && i < size
    requires GoodParities(ip, ir, nd, np) && k < |ip|
    ensures Parity(mode, ip[k], Column(a[..nd], size, i)) == Parity(mode, ip[k], Column(b[..nd], size, i))
  {
    hide Parity, Increasing;
    StripeColumn(mode, a, nd, np, size, ip[k], i);
    StripeColumn(mode, b, nd, np, size, ip[k], i);
  }

  /** Valid stripes that agree outside np blocks are equal. */
  lemma DataEqual(mode: Mode, a: Blocks, b: Blocks, nd: nat, np: nat, size: nat, ir: seq<nat>, i: nat)
    requires ValidStripe(mode, a, nd, np, size) && ValidStripe(mode, b, nd, np, size) && Agrees(a, b, ir)
    requires IsCombo(ir, nd + np) && |ir| <= np <= MaxParity(mode) && nd <= RAID_DATA_MAX && i < size
    ensures Column(a[..nd], size, i) == Column(b[..nd], size, i)
  {
    hide Parity;
    var nrd := DataCount(ir, nd);
    GoodTotal(ir, nrd, nd, np);
    var ip := GoodPart(ir, nd, np);
    SplitOf(ir, nrd, ip, nd, np);
    var id, jp := ir[..nrd], ip[..nrd];
    forall k | 0 <= k < nrd ensures Parity(mode, jp[k], Column(a[..nd], size, i)) == Parity(mode, jp[k], Column(b[..nd], size, i)) {
      PrefixParity(mode, a, b, nd, np, size, ir, ip, i, k);
    }
    ColumnsEqual(mode, Column(a[..nd], size, i), Column(b[..nd], size, i), id, jp);
  }

  lemma BlockEqual(mode: Mode, a: Blocks, b: Blocks, nd: nat, np: nat, size: nat, ir: seq<nat>, x: nat)
    requires ValidStripe(mode, a, nd, np, size) && ValidStripe(mode, b, nd, np, size) && Agrees(a, b, ir)
    requires IsCombo(ir, nd + np) && |ir| <= np <= MaxParity(mode) && nd <= RAID_DATA_MAX && x < nd + np
    ensures a[x] == b[x]
  {
    hide Parity, IsCombo;
    forall i | 0 <= i < size ensures a[x][i] == b[x][i] {
      DataEqual(mode, a, b, nd, np, size, ir, i);
      if x < nd {
        assert Column(a[..nd], size, i)[x] == Column(b[..nd], size, i)[x];
      } else {
        StripeColumn(mode, a, nd, np, size, x - nd, i);
        StripeColumn(mode, b, nd, np, size, x - nd, i);
      }
    }
  }

  lemma Distance(mode: Mode, a: Blocks, b: Blocks, nd: nat, np: nat, size: nat, ir: seq<nat>)
    requires ValidStripe(mode, a, nd, np, size) && ValidStripe(mode, b, nd, np, size) && Agrees(a, b, ir)
    requires IsCombo(ir, nd + np) && |ir| <= np <= MaxParity(mode) && nd <= RAID_DATA_MAX
    ensures a == b
  {
    hide Parity, IsCombo;
    forall x | 0 <= x < nd + np ensures a[x] == b[x] { BlockEqual(mode, a, b, nd, np, size, ir, x); }
  }

  // --------------------------------------------------------- unique decoding

  /** The blocks in which cur departs from orig are exactly those in e. */
  ghost predicate DiffersExactly(cur: Blocks, orig: Blocks, e: seq<nat>) {
    |cur| == |orig| && IsCombo(e, |cur|) && forall x | 0 <= x < |cur| :: x in e <==> cur[x] != orig[x]
  }

  /** At most half as many damaged blocks as parities: no other set as small explains them. */
  lemma UniqueDecoding(mode: Mode, cur: Blocks, orig: Blocks, nd: nat, np: nat, size: nat, e: seq<nat>, s: seq<nat>)
    requires ValidStripe(mode, orig, nd, np, size) && DiffersExactly(cur, orig, e) && 2 * |e| <= np <= MaxParity(mode) && nd <= RAID_DATA_MAX
    requires IsCombo(s, nd + np) && |s| <= |e| && Correctable(mode, cur, nd, np, size, s)
    ensures s == e
  {
    hide ValidStripe;
    StripeShape(mode, orig, nd, np, size);
    var other: Blocks :| ValidStripe(mode, other, nd, np, size) && Agrees(cur, other, s);
    ElementsSize(s);
    ElementsSize(e);
    var u := Sorted(Elements(s) + Elements(e), nd + np);
    assert |u| <= np;
    assert Agrees(orig, other, u);
    Distance(mode, orig, other, nd, np, size, u);
    Contained(e, s);
  }

  lemma ExactCorrectable(mode: Mode, cur: Blocks, orig: Blocks, nd: nat, np: nat, size: nat, e: seq<nat>)
    requires ValidStripe(mode, orig, nd, np, size) && DiffersExactly(cur, orig, e)
    ensures Correctable(mode, cur, nd, np, size, e)
  {
    hide ValidStripe;
    assert Agrees(cur, orig, e);
  }

  // -------------------------------------------------------------- the search

  /** No set of k blocks explains cur. */
  ghost predicate NoneOf(mode: Mode, cur: Blocks, nd: nat, np: nat, size: nat, k: nat) {
    forall s: seq<nat> | |s| == k && IsCombo(s, nd + np) :: !Correctable(mode, cur, nd, np, size, s)
  }

  /** Every set that explains cur and has the size of c is c or comes after it. */
  ghost predicate NoneBefore(mode: Mode, cur: Blocks, nd: nat, np: nat, size: nat, c: seq<nat>) {
    forall s: seq<nat> | |s| == |c| && IsCombo(s, nd + np) && Correctable(mode, cur, nd, np, size, s) :: s == c || Less(c, s)
  }

  ghost predicate Found(mode: Mode, cur: Blocks, nd: nat, np: nat, size: nat, c: seq<nat>) {
    IsCombo(c, nd + np) && Correctable(mode, cur, nd, np, size, c) && NoneBefore(mode, cur, nd, np, size, c)
  }

  /** All combinations of r blocks. */
  method ScanSize(mode: Mode, r: nat, nd: nat, np: nat, size: nat, cur: Blocks, ir: array<nat>) returns (found: bool)
    requires |cur| == nd + np && Sized(cur, size) && nd <= RAID_DATA_MAX && 0 < r < np <= MaxParity(mode) && np <= ir.Length + 1
    modifies ir
    ensures found ==> Found(mode, cur, nd, np, size, ir[..r])
    ensures !found ==> NoneOf(mode, cur, nd, np, size, r)
  {
    hide Correctable, Increasing, Less, Rank;
    CombinationFirst(r, nd + np, ir);
    FirstIsCombo(ir[..r], nd + np);
    forall s: seq<nat> | |s| == r && IsCombo(s, nd + np) ensures s == ir[..r] || Less(ir[..r], s) { FirstLeast(ir[..r], s, nd + np); }
    while true
      invariant IsCombo(ir[..r], nd + np) && NoneBefore(mode, cur, nd, np, size, ir[..r])
      decreases Rank(ir[..r], nd + np)
    {
      var ok := RaidCheck(mode, ir[..r], nd, np, size, cur);
      if ok { return true; }
      ghost var c := ir[..r];
      var more := CombinationNext(r, nd + np, ir);
      if !more { return false; }
      RankLess(c, ir[..r], nd + np);
    }
  }

  lemma FirstIsCombo(c: seq<nat>, n: nat)
    requires |c| <= n && forall k | 0 <= k < |c| :: c[k] == k
    ensures IsCombo(c, n)
  {}

  /** raid_scan, with -1 for no solution. */
  method RaidScan(mode: Mode, nd: nat, np: nat, size: nat, cur: Blocks, ir: array<nat>) returns (r: int)
    requires |cur| == nd + np && Sized(cur, size) && nd <= RAID_DATA_MAX && np <= MaxParity(mode) && np <= ir.Length + 1
    modifies ir
    ensures r == -1 || 0 <= r < np
    ensures r >= 0 ==> Found(mode, cur, nd, np, size, ir[..r])
    ensures forall k: nat | k < (if r >= 0 then r else np) :: NoneOf(mode, cur, nd, np, size, k)
    ensures forall orig: Blocks, e: seq<nat> |
              ValidStripe(mode, orig, nd, np, size) && DiffersExactly(cur, orig, e) && 0 < np && 2 * |e| <= np ::
              r == |e| && ir[..r] == e
  {
    hide Correctable, IsCombo, Less, ValidStripe, NoneBefore, DiffersExactly;
    r := Search(mode, nd, np, size, cur, ir);
    forall orig: Blocks, e: seq<nat> | ValidStripe(mode, orig, nd, np, size) && DiffersExactly(cur, orig, e) && 0 < np && 2 * |e| <= np
      ensures r == |e| && ir[..r] == e
    {
      SearchFinds(mode, cur, orig, nd, np, size, e, r, if r >= 0 then ir[..r] else []);
    }
  }

  method Search(mode: Mode, nd: nat, np: nat, size: nat, cur: Blocks, ir: array<nat>) returns (r: int)
    requires |cur| == nd + np && Sized(cur, size) && nd <= RAID_DATA_MAX && np <= MaxParity(mode) && np <= ir.Length + 1
    modifies ir
    ensures r == -1 || 0 <= r < np
    ensures r >= 0 ==> Found(mode, cur, nd, np, size, ir[..r])
    ensures forall k: nat | k < (if r >= 0 then r else np) :: NoneOf(mode, cur, nd, np, size, k)
  {
    hide Correctable, Less;
    if np != 0 {
      var ok := RaidCheck(mode, [], nd, np, size, cur);
      if ok {
        assert ir[..0] == [];
        return 0;
      }
    }
    var k := 1;
    while k < np
      invariant 1 <= k && (k <= np || k == 1)
      invariant forall j: nat | j < k && j < np :: NoneOf(mode, cur, nd, np, size, j)
    {
      var found := ScanSize(mode, k, nd, np, size, cur, ir);
      if found { return k; }
      k := k + 1;
    }
    return -1;
  }

  lemma SearchFinds(mode: Mode, cur: Blocks, orig: Blocks, nd: nat, np: nat, size: nat, e: seq<nat>, r: int, c: seq<nat>)
    requires ValidStripe(mode, orig, nd, np, size) && DiffersExactly(cur, orig, e) && 0 < np && 2 * |e| <= np <= MaxParity(mode) && nd <= RAID_DATA_MAX
    requires r == -1 || r == |c| < np
    requires r >= 0 ==> Found(mode, cur, nd, np, size, c)
    requires forall k: nat | k < (if r >= 0 then r else np) :: NoneOf(mode, cur, nd, np, size, k)
    ensures r == |e| && c == e
  {
    hide Correctable, ValidStripe, NoneBefore;
    StripeShape(mode, orig, nd, np, size);
    ExactCorrectable(mode, cur, orig, nd, np, size, e);
    assert IsCombo(e, nd + np);
    assert !NoneOf(mode, cur, nd, np, size, |e|);
    UniqueDecoding(mode, cur, orig, nd, np, size, e, c);
  }
}
