/** The operations of c_src/ida.c on the tree, each under the allocator's lock. */
module IdaAlloc {
  import opened Arith
  import opened IdaTree

  datatype AllocResult = Id(id: nat) | EInval | ENoSpace | ENoMem | BugOn

  const INT_MAX: nat := 0x7fff_ffff

  /** The least free id in [min, max] among the ids h levels below position p. */
  ghost predicate LeastBelow(ns: seq<Word>, D: nat, h: nat, p: nat, min: nat, max: nat, id: nat) {
    && Up(id, h) == p && min <= id <= max && IsFree(ns, D, id)
    && forall x: nat | Up(x, h) == p && min <= x < id :: !IsFree(ns, D, x)
  }

  /** The least free id in [min, max] does not fit an int. */
  ghost predicate TooLargeBelow(ns: seq<Word>, D: nat, h: nat, p: nat, min: nat, max: nat) {
    exists id: nat :: LeastBelow(ns, D, h, p, min, max, id) && id > INT_MAX
  }

  ghost predicate NoneBelow(ns: seq<Word>, D: nat, h: nat, p: nat, min: nat, max: nat) {
    forall x: nat | Up(x, h) == p && min <= x <= max :: !IsFree(ns, D, x)
  }

  function Least(s: set<nat>): (r: nat)
    requires s != {}
    ensures r in s && forall x | x in s :: r <= x
    decreases |s|
  {
    HasLeast(s);
    var r :| r in s && forall x | x in s :: r <= x;
    r
  }

  lemma {:induction false} HasLeast(s: set<nat>)
    requires s != {}
    ensures exists r: nat :: r in s && forall x | x in s :: r <= x
    decreases |s|
  {
    var y :| y in s;
    var t := s - {y};
    if t == {} {
      assert s == {y};
    } else {
      HasLeast(t);
      var z :| z in t && forall x | x in t :: z <= x;
      assert forall x | x in s && x != y :: x in t;
      LeastOf(s, y, z);
    }
  }

  lemma LeastOf(s: set<nat>, y: nat, z: nat)
    requires y in s && z in s && forall x | x in s && x != y :: z <= x
    ensures exists r: nat :: r in s && forall x | x in s :: r <= x
  {
    var m := if y <= z then y else z;
    assert m in s;
  }

  /** ida_nodes_up_to_level. */
  method NodesUpToLevel(L: nat) returns (r: nat)
    ensures r == Nodes(L)
  {
    var p := 1;
    r := 0;
    for i := 0 to L
      invariant r == Nodes(i) && p == Pow64(i)
    {
      NodesSum(i);
      r := r + p;
      p := 64 * p;
    }
  }

  lemma DivMonotone(x: nat, y: nat, span: nat)
    requires span > 0 && x <= y
    ensures x / span <= y / span
  {
    var a, b := x / span, y / span;
    DivRange(x, span, a);
    DivRange(y, span, b);
    if b < a { MulLess(b + 1, a, span); }
  }

  lemma DivBelow(x: nat, span: nat, n: nat)
    requires span > 0 && x < n * span
    ensures x / span < n
  {
    DivRange(x, span, x / span);
    if n <= x / span { MulLess(n, x / span, span); }
  }

  /** Which span of a node starting at base holds x. */
  function SpanOf(base: nat, span: nat, x: nat): nat
    requires span > 0 && base <= x
  {
    (x - base) / span
  }

  predicate Inside(base: nat, k: nat, min: nat, max: nat) { min <= base + k <= max }

  /** The spans of a node starting at base that [min, max] meets. */
  ghost predicate Meets(base: nat, span: nat, min: nat, max: nat, lo: nat, hi: nat)
    requires span > 0
  {
    && lo <= hi < 64
    && (forall x: nat | base <= x < base + 64 * span && min <= x <= max :: lo <= SpanOf(base, span, x) <= hi)
    && (span == 1 ==> forall k: nat | lo <= k <= hi :: Inside(base, k, min, max))
  }

  /** The bounds as the code computes them. */
  predicate Bounds(base: nat, span: nat, min: nat, max: nat, lo: nat, hi: nat) {
    && span > 0 && base <= max
    && lo == (if min > base then (min - base) / span else 0)
    && hi == (if (max - base) / span < 64 then (max - base) / span else 63)
  }

  lemma MeetsAt(base: nat, span: nat, min: nat, max: nat, lo: nat, hi: nat, x: nat)
    requires Bounds(base, span, min, max, lo, hi) && base <= x < base + 64 * span && min <= x <= max
    ensures lo <= SpanOf(base, span, x) <= hi < 64
  {
    if min > base { DivMonotone(min - base, x - base, span); }
    DivMonotone(x - base, max - base, span);
    DivBelow(x - base, span, 64);
  }

  lemma DivOne(x: nat, span: nat)
    requires span == 1
    ensures x / span == x
  {}

  lemma MeetsUnit(base: nat, span: nat, min: nat, max: nat, lo: nat, hi: nat)
    requires Bounds(base, span, min, max, lo, hi) && span == 1
    ensures forall k: nat | lo <= k <= hi :: Inside(base, k, min, max)
  {
    DivOne(max - base, span);
    if min > base { DivOne(min - base, span); }
  }

  lemma MeetsAll(base: nat, span: nat, min: nat, max: nat, lo: nat, hi: nat)
    requires Bounds(base, span, min, max, lo, hi) && min <= max && min < base + 64 * span
    ensures Meets(base, span, min, max, lo, hi)
  {
    hide Bounds, SpanOf, Inside;
    BoundsParts(base, span, min, max, lo, hi);
    var x := if min > base then min else base;
    MeetsAt(base, span, min, max, lo, hi, x);
    if span == 1 { MeetsUnit(base, span, min, max, lo, hi); }
    forall x: nat | base <= x < base + 64 * span && min <= x <= max ensures lo <= SpanOf(base, span, x) <= hi {
      MeetsAt(base, span, min, max, lo, hi, x);
    }
  }

  lemma BoundsParts(base: nat, span: nat, min: nat, max: nat, lo: nat, hi: nat)
    requires Bounds(base, span, min, max, lo, hi)
    ensures span > 0 && base <= max
  {}

  /** ida_bit_range. */
  method BitRange(base: nat, span: nat, min: nat, max: nat) returns (any: bool, lo: nat, hi: nat)
    requires span > 0 && min <= max
    ensures any <==> base <= max && min < base + 64 * span
    ensures any ==> Meets(base, span, min, max, lo, hi)
  {
    hide Meets;
    if max < base || min >= base + span * 64 { return false, 0, 0; }
    lo := if min > base then (min - base) / span else 0;
    var offset := max - base;
    hi := if offset / span < 64 then offset / span else 63;
    MeetsAll(base, span, min, max, lo, hi);
    MeetsOrder(base, span, min, max, lo, hi);
    any := lo <= hi;
  }

  lemma MeetsOrder(base: nat, span: nat, min: nat, max: nat, lo: nat, hi: nat)
    requires span > 0 && Meets(base, span, min, max, lo, hi)
    ensures lo <= hi < 64
  {}


  // ------------------------------------------------------------ searching below a node

  /** Which child of its node h levels up leads to x. */
  function ChildBit(x: nat, h: nat): nat
    requires h > 0
  {
    Up(x, h - 1) % 64
  }

  lemma ChildUp(x: nat, h: nat, p: nat)
    requires h > 0 && Up(x, h) == p
    ensures Up(x, h - 1) == 64 * p + ChildBit(x, h)
  {}

  /** Where x lies below position p, in ids. */
  lemma ChildSpan(x: nat, h: nat, p: nat)
    requires h > 0 && Up(x, h) == p
    ensures Pow64(h) == 64 * Pow64(h - 1)
    ensures p * Pow64(h) <= x < p * Pow64(h) + 64 * Pow64(h - 1)
    ensures SpanOf(p * Pow64(h), Pow64(h - 1), x) == ChildBit(x, h)
  {
    var q, m, k := Up(x, h - 1), Pow64(h - 1), ChildBit(x, h);
    UpRange(x, h - 1, q);
    SpanMath(p, k, m, x);
  }

  lemma SpanMath(p: nat, k: nat, m: nat, x: nat)
    requires m > 0 && k < 64 && (64 * p + k) * m <= x < (64 * p + k + 1) * m
    ensures p * (64 * m) <= x < p * (64 * m) + 64 * m && (x - p * (64 * m)) / m == k
  {
    var b, c := (64 * p) * m, k * m;
    Regroup(p, m);
    Distribute(64 * p, k, m);
    Distribute(64 * p, k + 1, m);
    Distribute(k, 1, m);
    MulLess(k + 1, 64, m);
    DivRange(x - b, m, k);
  }


  lemma BelowRoot(x: nat, h: nat, p: nat, D: nat)
    requires 0 < h <= D && p < Pow64(D - h) && Up(x, h) == p
    ensures x < Pow64(D)
  {
    UpRange(x, h, p);
    MulLess(p + 1, Pow64(D - h), Pow64(h));
    PowAdd(D - h, h);
  }

  lemma {:induction false} PowAdd(a: nat, b: nat)
    ensures Pow64(a) * Pow64(b) == Pow64(a + b)
    decreases b
  {
    if b > 0 {
      PowAdd(a, b - 1);
      Regroup(Pow64(a), Pow64(b - 1));
      assert (64 * Pow64(a)) * Pow64(b - 1) == 64 * (Pow64(a) * Pow64(b - 1));
    }
  }

  lemma BitClear(ns: seq<Word>, D: nat, h: nat, p: nat, x: nat)
    requires Wf(ns, D) && 0 < h <= D && p < Pow64(D - h) && Up(x, h) == p && Nodes(D - h) + p < |ns|
    requires ChildBit(x, h) !in ns[Nodes(D - h) + p]
    ensures !IsFree(ns, D, x)
  {
    hide Wf, Pow64;
    BelowRoot(x, h, p, D);
    if h > 1 {
      UpBound(x, h - 1, D);
      NodeIndex(D - h + 1, Up(x, h - 1), D);
      NodeIndex(D - h, p, D - 1);
      var i := Nodes(D - h) + p;
      WfAt(ns, D, i, ChildBit(x, h));
      ChildUp(x, h, p);
      ZeroWord(ns, D, h - 1, x);
    } else {
      assert Up(x, 0) == x && Up(x, 1) == x / 64;
    }
  }

  /** Every free id in [min, max] below position p is below a child in usable. */
  ghost predicate Candidates(ns: seq<Word>, D: nat, h: nat, p: nat, min: nat, max: nat, usable: set<nat>)
    requires h > 0
  {
    forall x: nat | Up(x, h) == p && min <= x <= max && IsFree(ns, D, x) :: ChildBit(x, h) in usable
  }

  /** The bits lo to hi of a word. */
  function Masked(word: Word, lo: nat, hi: nat): set<nat> { set k | k in word && lo <= k <= hi }

  lemma StartCandidates(ns: seq<Word>, D: nat, h: nat, p: nat, min: nat, max: nat, lo: nat, hi: nat)
    requires Wf(ns, D) && 0 < h <= D && p < Pow64(D - h) && Nodes(D - h) + p < |ns| && Meets(p * Pow64(h), Pow64(h - 1), min, max, lo, hi)
    ensures Candidates(ns, D, h, p, min, max, Masked(ns[Nodes(D - h) + p], lo, hi))
  {
    hide Wf, IsFree, Up, Pow64, Nodes, SpanOf, ChildBit;
    forall x: nat | Up(x, h) == p && min <= x <= max && IsFree(ns, D, x)
      ensures ChildBit(x, h) in ns[Nodes(D - h) + p] && lo <= ChildBit(x, h) <= hi
    {
      if ChildBit(x, h) !in ns[Nodes(D - h) + p] { BitClear(ns, D, h, p, x); }
      ChildSpan(x, h, p);
    }
  }

  lemma NoCandidates(ns: seq<Word>, D: nat, h: nat, p: nat, min: nat, max: nat)
    requires h > 0 && Candidates(ns, D, h, p, min, max, {})
    ensures NoneBelow(ns, D, h, p, min, max)
  {}

  lemma OutOfRange(ns: seq<Word>, D: nat, h: nat, p: nat, min: nat, max: nat)
    requires h > 0 && !(p * Pow64(h) <= max && min < p * Pow64(h) + 64 * Pow64(h - 1))
    ensures NoneBelow(ns, D, h, p, min, max)
  {
    forall x: nat | Up(x, h) == p ensures p * Pow64(h) <= x < p * Pow64(h) + 64 * Pow64(h - 1) { ChildSpan(x, h, p); }
  }

  /** The least id below the least usable child is the least of all. */
  lemma LeastUp(ns: seq<Word>, D: nat, h: nat, p: nat, min: nat, max: nat, usable: set<nat>, bit: nat, id: nat)
    requires h > 0 && Candidates(ns, D, h, p, min, max, usable) && bit < 64 && (forall k | k in usable :: bit <= k)
    requires LeastBelow(ns, D, h - 1, 64 * p + bit, min, max, id)
    ensures LeastBelow(ns, D, h, p, min, max, id)
  {
    hide IsFree, Pow64;
    assert Up(id, h) == p;
    forall x: nat | Up(x, h) == p && min <= x < id ensures !IsFree(ns, D, x) {
      if IsFree(ns, D, x) {
        ChildUp(x, h, p);
        LaterChild(x, id, h - 1);
      }
    }
  }

  /** Ids below a later position are larger. */
  lemma {:induction false} LaterChild(x: nat, id: nat, h: nat)
    requires x <= id
    ensures Up(x, h) <= Up(id, h)
    decreases h
  {
    if h > 0 { LaterChild(x, id, h - 1); }
  }

  lemma NextChild(ns: seq<Word>, D: nat, h: nat, p: nat, min: nat, max: nat, usable: set<nat>, bit: nat)
    requires h > 0 && Candidates(ns, D, h, p, min, max, usable) && NoneBelow(ns, D, h - 1, 64 * p + bit, min, max)
    ensures Candidates(ns, D, h, p, min, max, usable - {bit})
  {
    hide IsFree;
    forall x: nat | Up(x, h) == p && min <= x <= max && IsFree(ns, D, x) ensures ChildBit(x, h) in usable - {bit} { ChildUp(x, h, p); }
  }

  lemma LeafIsLeast(ns: seq<Word>, D: nat, p: nat, min: nat, max: nat, usable: set<nat>, bit: nat)
    requires D > 0 && p < Pow64(D - 1) && Nodes(D - 1) + p < |ns| && bit < 64 && bit in ns[Nodes(D - 1) + p]
    requires Candidates(ns, D, 1, p, min, max, usable) && (forall k | k in usable :: bit <= k) && min <= 64 * p + bit <= max
    ensures LeastBelow(ns, D, 1, p, min, max, 64 * p + bit) && 64 * p + bit < Pow64(D)
  {
    var id := 64 * p + bit;
    assert Up(id, 0) == id;
    BelowRoot(id, 1, p, D);
    forall x: nat | Up(x, 1) == p && min <= x < id ensures !IsFree(ns, D, x) {
      assert Up(x, 0) == x;
    }
  }

  class Ida {
    var depth: nat
    var nodes: array<Word>

    ghost predicate Valid()
      reads this, nodes
    {
      Wf(nodes[..], depth) && depth <= 10
    }

    predicate Avail(id: nat)
      reads this, nodes
    {
      IsFree(nodes[..], depth, id)
    }

    /** ida_init. */
    constructor ()
      ensures Valid() && fresh(nodes) && depth == 0 && forall id: nat :: Avail(id)
    {
      depth := 0;
      nodes := new Word[0];
    }

    /** Clears the leaf bit of id and every parent bit that becomes stale. */
    method Take(id: nat)
      requires Valid() && depth > 0 && id < Pow64(depth) && Avail(id)
      modifies nodes
      ensures Valid() && Taken(old(nodes[..]), depth, nodes[..], depth, [id])
    {
      hide Wf, WfBut, ParentSays, Pow64, IsFree, Nodes, Taken;
      LeafIndex(depth, id);
      var leaf := Nodes(depth - 1) + id / 64;
      ghost var ns := nodes[..];
      WfLength(ns, depth);
      TakeLeaf(ns, depth, id);
      nodes[leaf] := nodes[leaf] - {id % 64};
      ghost var w := ns[leaf] - {id % 64};
      ghost var ns1 := ns[leaf := w];
      assert nodes[..] == ns1;
      PropagateFull(leaf, ns1);
      ghost var ns2 := nodes[..];
      TakeMeans(ns, ns1, ns2, depth, id, w);
    }

    method PropagateFull(leaf: nat, ghost ns1: seq<Word>)
      requires depth > 0 && nodes[..] == ns1 && WfBut(ns1, depth, leaf) && depth <= 10
      requires leaf < |ns1| && (leaf > 0 ==> ParentSays(ns1, leaf))
      modifies nodes
      ensures Valid() && nodes.Length == |ns1| && forall i | Nodes(depth - 1) <= i < |ns1| :: nodes[i] == ns1[i]
    {
      hide WfBut, ParentSays;
      var j: nat := leaf;
      while j > 0 && nodes[j] == {}
        invariant j < nodes.Length == |ns1| && WfBut(nodes[..], depth, j)
        invariant j > 0 ==> ParentSays(nodes[..], j)
        invariant forall i | Nodes(depth - 1) <= i < |ns1| :: nodes[i] == ns1[i]
        decreases j
      {
        ghost var ns := nodes[..];
        ClearStep(ns, depth, j);
        var p := Parent(j);
        nodes[p] := nodes[p] - {BitInParent(j)};
        assert nodes[..] == ns[p := ns[p] - {BitInParent(j)}];
        j := p;
      }
      ClearDone(nodes[..], depth, j);
    }

    /**
     * ida_alloc_descend on the node at position p of level L: takes the least free id in [min, max] below it.
     * BugOn is the BUG_ON for an id that does not fit an int.
     */
    method AllocDescend(i: nat, L: nat, base: nat, min: nat, max: nat, ghost p: nat) returns (r: AllocResult)
      requires Valid() && L < depth && p < Pow64(L) && i == Nodes(L) + p && base == p * Pow64(depth - L) && min <= max
      modifies nodes
      ensures Valid()
      ensures r.Id? || r == ENoSpace || r == BugOn
      ensures r == ENoSpace ==> nodes[..] == old(nodes[..]) && NoneBelow(nodes[..], depth, depth - L, p, min, max)
      ensures r == BugOn ==> nodes[..] == old(nodes[..]) && TooLargeBelow(nodes[..], depth, depth - L, p, min, max)
      ensures r.Id? ==> LeastBelow(old(nodes[..]), depth, depth - L, p, min, max, r.id) && r.id <= INT_MAX
      ensures r.Id? ==> Taken(old(nodes[..]), depth, nodes[..], depth, [r.id])
      decreases depth - L
    {
      hide Wf, IsFree, Pow64, Nodes, Up, Meets, Candidates, NoneBelow, LeastBelow, Taken;
      ghost var ns, h := nodes[..], depth - L;
      WfIndex(ns, depth, L, p);
      var span := Pow64(depth - L - 1);
      ChildWidth(h);
      var any, lo, hi := BitRange(base, span, min, max);
      if !any {
        OutOfRange(ns, depth, h, p, min, max);
        return ENoSpace;
      }
      var word := nodes[i];
      var usable := Masked(word, lo, hi);
      StartCandidates(ns, depth, h, p, min, max, lo, hi);
      while usable != {}
        invariant nodes[..] == ns && usable <= Masked(word, lo, hi) && Candidates(ns, depth, h, p, min, max, usable)
        decreases |usable|
      {
        var bit := Least(usable);
        MaskedBit(ns, depth, L, p, lo, hi, bit);
        var below := base + bit * span;
        if L == depth - 1 {
          LeafBase(p, h, span, bit, base);
          MeetsLeaf(base, span, min, max, lo, hi, bit);
          LeafIsLeast(ns, depth, p, min, max, usable, bit);
          if below > INT_MAX {
            assert LeastBelow(ns, depth, h, p, min, max, below);
            return BugOn;
          }
          LeastFree(ns, depth, h, p, min, max, below);
          Take(below);
          return Id(below);
        }
        var child := 64 * i + 1 + bit;
        ChildIndex(L, p, bit, h, base, span);
        r := AllocDescend(child, L + 1, below, min, max, 64 * p + bit);
        if r.Id? {
          LeastUp(ns, depth, h, p, min, max, usable, bit, r.id);
          return;
        }
        if r == BugOn {
          ghost var id: nat :| LeastBelow(ns, depth, h - 1, 64 * p + bit, min, max, id) && id > INT_MAX;
          LeastUp(ns, depth, h, p, min, max, usable, bit, id);
          return;
        }
        NextChild(ns, depth, h, p, min, max, usable, bit);
        usable := usable - {bit};
      }
      NoCandidates(ns, depth, h, p, min, max);
      return ENoSpace;
    }

    /** ida_grow; memory says whether the allocation succeeds. */
    method Grow(memory: bool) returns (ok: bool, err: AllocResult)
      requires Valid()
      modifies this
      ensures Valid()
      ensures ok <==> 6 * (old(depth) + 1) < 64 && memory
      ensures ok ==> depth == old(depth) + 1 && fresh(nodes) && Taken(old(nodes[..]), old(depth), nodes[..], depth, [])
      ensures !ok ==> depth == old(depth) && nodes == old(nodes) && err == if 6 * (old(depth) + 1) >= 64 then ENoSpace else ENoMem
    {
      if 6 * (depth + 1) >= 64 { return false, ENoSpace; }
      if !memory { return false, ENoMem; }
      hide Wf, IsFree, Grown, Taken;
      ghost var ns := nodes[..];
      WfLength(ns, depth);
      var m := CopyTree(nodes, depth);
      GrownWf(ns, depth, m[..]);
      GrownTaken(ns, depth, m[..]);
      depth := depth + 1;
      nodes := m;
      return true, ENoSpace;
    }

    /** ida_alloc_locked; at most granted allocations of a larger tree succeed. */
    method AllocLocked(min: nat, max: nat, granted: nat) returns (r: AllocResult)
      requires Valid() && max < 0x1_0000_0000
      modifies this, nodes
      ensures Valid() && (nodes == old(nodes) || fresh(nodes))
      ensures r == EInval <==> min > max
      ensures r.Id? ==> LeastIn(old(nodes[..]), old(depth), min, max, r.id) && r.id <= INT_MAX
      ensures Taken(old(nodes[..]), old(depth), nodes[..], depth, Ids(r))
      ensures r == ENoSpace ==> NoneIn(nodes[..], depth, min, max)
      ensures r == BugOn ==> TooLarge(old(nodes[..]), old(depth), min, max)
      ensures old(depth) <= depth <= old(depth) + granted && (depth > old(depth) ==> Needed(old(nodes[..]), old(depth), min, max, depth))
      ensures r == ENoMem ==> granted < 6 && depth == old(depth) + granted && Needed(old(nodes[..]), old(depth), min, max, depth + 1)
      ensures r != ENoMem && min <= max ==> (r == BugOn <==> TooLarge(old(nodes[..]), old(depth), min, max))
      ensures r != ENoMem && min <= max ==> (r == ENoSpace <==> NoneIn(old(nodes[..]), old(depth), min, max))
      ensures granted >= 6 ==> (r == BugOn <==> TooLarge(old(nodes[..]), old(depth), min, max))
      ensures granted >= 6 && min <= max ==> (r == ENoSpace <==> NoneIn(old(nodes[..]), old(depth), min, max))
    {
      if min > max { return EInval; }
      hide Wf, IsFree, LeastIn, TooLarge, NoneIn, Taken, Needed;
      ghost var ns, D := nodes[..], depth;
      NothingTaken(ns, D);
      NeededOne(ns, D, min, max);
      var left := granted;
      if depth == 0 {
        var ok, err := Grow(left > 0);
        if !ok { return err; }
        left := left - 1;
      }
      r := AllocLoop(min, max, left, granted, ns, D);
    }

    /** Its loop: descend, and grow while there is nothing free in range; ns and D are the tree at the start. */
    method AllocLoop(min: nat, max: nat, more: nat, ghost granted: nat, ghost ns: seq<Word>, ghost D: nat) returns (r: AllocResult)
      requires Valid() && min <= max < 0x1_0000_0000 && 0 < depth && D <= depth == D + granted - more
      requires Taken(ns, D, nodes[..], depth, []) && (depth > D ==> Needed(ns, D, min, max, depth))
      modifies this, nodes
      ensures Valid() && (nodes == old(nodes) || fresh(nodes)) && r != EInval
      ensures r.Id? ==> LeastIn(ns, D, min, max, r.id) && r.id <= INT_MAX
      ensures Taken(ns, D, nodes[..], depth, Ids(r))
      ensures r == ENoSpace ==> NoneIn(nodes[..], depth, min, max)
      ensures D <= depth <= D + granted && (depth > D ==> Needed(ns, D, min, max, depth))
      ensures r == ENoMem ==> granted < 6 && depth == D + granted && Needed(ns, D, min, max, depth + 1)
      ensures r != ENoMem ==> (r == BugOn <==> TooLarge(ns, D, min, max)) && (r == ENoSpace <==> NoneIn(ns, D, min, max))
      ensures r == BugOn ==> TooLarge(ns, D, min, max)
    {
      hide Wf, IsFree, LeastBelow, NoneBelow, TooLargeBelow, Pow64, LeastIn, TooLarge, NoneIn, Taken, Needed;
      var left := more;
      while true
        invariant Valid() && 0 < depth && (nodes == old(nodes) || fresh(nodes))
        invariant D <= depth == D + granted - left && (depth > D ==> Needed(ns, D, min, max, depth))
        invariant Taken(ns, D, nodes[..], depth, [])
        decreases 10 - depth
      {
        RootSize();
        ghost var cells, deep := nodes[..], depth;
        r := AllocDescend(0, 0, 0, min, max, 0);
        if r.Id? {
          RootLeast(cells, deep, min, max, r.id);
          SameLeast(ns, D, cells, deep, min, max, r.id);
          TakenNone(ns, D, cells, deep, nodes[..], depth, [r.id]);
          LeastDecides(ns, D, min, max, r.id);
          return;
        }
        if r == BugOn {
          RootTooLarge(cells, deep, ns, D, min, max);
          LargeDecides(ns, D, min, max);
          return;
        }
        var capacity := Pow64(depth);
        if capacity > max {
          RootNone(cells, deep, min, max);
          NoneDecides(ns, D, nodes[..], depth, min, max);
          return ENoSpace;
        }
        CapacityGap(depth);
        NeededMore(ns, D, cells, deep, min, max);
        if capacity >= INT_MAX + 1 {
          assert false;
        }
        var ok, err := Grow(left > 0);
        if !ok { return err; }
        left := left - 1;
        TakenNone(ns, D, cells, deep, nodes[..], depth, []);
      }
    }

    /** ida_alloc_batch: up to nr ids, always the smallest that are free; err says why it stopped short. */
    method AllocBatch(min: nat, max: nat, granted: nat, ids: array<nat>, nr: nat) returns (out: nat, err: AllocResult)
      requires Valid() && max < 0x1_0000_0000 && nr <= ids.Length
      modifies this, nodes, ids
      ensures Valid() && (nodes == old(nodes) || fresh(nodes)) && out <= nr
      ensures Batch(old(nodes[..]), old(depth), min, max, ids[..out])
      ensures Taken(old(nodes[..]), old(depth), nodes[..], depth, ids[..out])
      ensures out < nr && err == ENoSpace ==> NoneIn(nodes[..], depth, min, max)
      ensures out < nr && err == BugOn ==> TooLarge(nodes[..], depth, min, max)
      ensures out < nr && err == ENoMem ==> granted < 6 && Needed(nodes[..], depth, min, max, depth + 1)
      ensures out < nr ==> !err.Id? && (err == EInval <==> min > max)
    {
      hide Wf, IsFree, LeastIn, TooLarge, Batch, Taken, NoneIn, Needed;
      ghost var ns, D := nodes[..], depth;
      out := 0;
      err := ENoSpace;
      EmptyBatch(ns, D, min, max);
      assert ids[..0] == [];
      assert Taken(ns, D, nodes[..], depth, []) by { NothingTaken(ns, D); }
      while out < nr
        invariant Valid() && (nodes == old(nodes) || fresh(nodes)) && out <= nr
        invariant Batch(ns, D, min, max, ids[..out]) && Taken(ns, D, nodes[..], depth, ids[..out])
      {
        ghost var cells: seq<Word>, deep: nat, had: seq<nat> := nodes[..], depth, ids[..out];
        err := AllocLocked(min, max, granted);
        TakenMore(ns, D, cells, deep, nodes[..], depth, had, err);
        if !err.Id? {
          assert had + Ids(err) == had;
          if err == BugOn { SameTooLarge(cells, deep, nodes[..], depth, min, max); }
          if err == ENoMem { SameNeeded(cells, deep, nodes[..], depth, min, max, depth + 1); }
          return;
        }
        MoreBatch(ns, D, min, max, had, cells, deep, err.id);
        ids[out] := err.id;
        assert ids[..out + 1] == had + [err.id];
        out := out + 1;
      }
    }

    /** ida_free: a BUG_ON fires for exactly the ids that are not allocated. */
    method Free(id: nat) returns (bug: bool)
      requires Valid()
      modifies nodes
      ensures Valid() && (bug <==> old(Avail(id)))
      ensures bug ==> nodes[..] == old(nodes[..])
      ensures !bug ==> Taken(nodes[..], depth, old(nodes[..]), depth, [id])
    {
      hide Wf, WfBut, ParentSays, Nodes;
      if depth == 0 || id >= Pow64(depth) { return true; }
      ghost var ns := nodes[..];
      WfLength(ns, depth);
      LeafIndex(depth, id);
      var leaf := Nodes(depth - 1) + id / 64;
      if id % 64 in nodes[leaf] { return true; }
      Put(id);
      bug := false;
    }

    /** The bit is set again, and every parent bit that becomes stale. */
    method Put(id: nat)
      requires Valid() && depth > 0 && id < Pow64(depth) && !Avail(id)
      modifies nodes
      ensures Valid() && Taken(nodes[..], depth, old(nodes[..]), depth, [id])
    {
      hide Wf, WfBut, ParentSays, Pow64, IsFree, Nodes;
      LeafIndex(depth, id);
      var leaf := Nodes(depth - 1) + id / 64;
      ghost var ns := nodes[..];
      WfLength(ns, depth);
      FreeLeaf(ns, depth, id);
      var wasZero := nodes[leaf] == {};
      nodes[leaf] := nodes[leaf] + {id % 64};
      ghost var w := ns[leaf] + {id % 64};
      ghost var ns1 := ns[leaf := w];
      assert nodes[..] == ns1;
      PropagateFree(leaf, wasZero, ns1);
      ghost var ns2 := nodes[..];
      FreeMeans(ns, ns1, ns2, depth, id, w);
    }

    method PropagateFree(leaf: nat, zero: bool, ghost ns1: seq<Word>)
      requires depth > 0 && nodes[..] == ns1 && WfBut(ns1, depth, leaf) && depth <= 10
      requires leaf < |ns1| && ns1[leaf] != {} && (!zero && leaf > 0 ==> ParentSays(ns1, leaf))
      modifies nodes
      ensures Valid() && nodes.Length == |ns1| && forall i | Nodes(depth - 1) <= i < |ns1| :: nodes[i] == ns1[i]
    {
      hide WfBut, ParentSays;
      var j: nat := leaf;
      var wasZero := zero;
      while wasZero && j > 0
        invariant j < nodes.Length == |ns1| && WfBut(nodes[..], depth, j) && nodes[..][j] != {}
        invariant !wasZero && j > 0 ==> ParentSays(nodes[..], j)
        invariant forall i | Nodes(depth - 1) <= i < |ns1| :: nodes[i] == ns1[i]
        decreases j, wasZero
      {
        ghost var ns := nodes[..];
        SetStep(ns, depth, j);
        var p := Parent(j);
        wasZero := nodes[p] == {};
        nodes[p] := nodes[p] + {BitInParent(j)};
        assert nodes[..] == ns[p := ns[p] + {BitInParent(j)}];
        j := p;
      }
      ClearDone(nodes[..], depth, j);
    }

    /** ida_find_first: the least allocated id, or -1. */
    method FindFirst() returns (r: int)
      requires Valid()
      ensures r == -1 || r >= 0
      ensures r == -1 ==> forall x: nat :: Avail(x)
      ensures r >= 0 ==> !Avail(r) && forall x: nat | x < r :: Avail(x)
    {
      hide Pow64, Nodes, IsFree, Wf, Full;
      if depth == 0 {
        EmptyTree(nodes[..]);
        return -1;
      }
      var first := NodesUpToLevel(depth - 1);
      var leaves := Pow64(depth - 1);
      ghost var ns := nodes[..];
      WfLength(ns, depth);
      NodesSum(depth - 1);
      ChildWidth(depth);
      for k := 0 to leaves
        invariant forall x: nat | x < 64 * k :: IsFree(ns, depth, x)
      {
        var taken := Full() - nodes[first + k];
        if taken != {} {
          var bit := Least(taken);
          FirstTaken(ns, depth, k, taken, bit);
          return 64 * k + bit;
        }
        AllFree(ns, depth, k);
      }
      OutsideFree(ns, depth);
      return -1;
    }
  }

  lemma EmptyTree(ns: seq<Word>)
    ensures forall x: nat :: IsFree(ns, 0, x)
  {}

  lemma OutsideFree(ns: seq<Word>, D: nat)
    requires forall x: nat | x < Pow64(D) :: IsFree(ns, D, x)
    ensures forall x: nat :: IsFree(ns, D, x)
  {}

  lemma FirstTaken(ns: seq<Word>, D: nat, k: nat, taken: Word, bit: nat)
    requires D > 0 && Nodes(D - 1) + k < |ns| && k < Pow64(D - 1) && taken == Full() - ns[Nodes(D - 1) + k]
    requires bit in taken && forall b | b in taken :: bit <= b
    requires forall x: nat | x < 64 * k :: IsFree(ns, D, x)
    ensures !IsFree(ns, D, 64 * k + bit) && forall x: nat | x < 64 * k + bit :: IsFree(ns, D, x)
  {
    hide Full;
    var id := 64 * k + bit;
    assert id / 64 == k && id % 64 == bit && id < Pow64(D);
    forall x: nat | x < id ensures IsFree(ns, D, x) {
      if x >= 64 * k { assert x / 64 == k && x % 64 == x - 64 * k && x % 64 !in taken; }
    }
  }

  lemma AllFree(ns: seq<Word>, D: nat, k: nat)
    requires D > 0 && Nodes(D - 1) + k < |ns| && Full() - ns[Nodes(D - 1) + k] == {}
    requires forall x: nat | x < 64 * k :: IsFree(ns, D, x)
    ensures forall x: nat | x < 64 * (k + 1) :: IsFree(ns, D, x)
  {
    hide Full;
    var w := ns[Nodes(D - 1) + k];
    forall b | b in Full() ensures b in w { assert b !in Full() - w; }
    forall x: nat | x < 64 * (k + 1) ensures IsFree(ns, D, x) {
      if x >= 64 * k { assert x / 64 == k && x % 64 in w; }
    }
  }

  lemma FreeLeaf(ns: seq<Word>, D: nat, id: nat)
    requires Wf(ns, D) && D > 0 && id < Pow64(D) && |ns| == Nodes(D)
    ensures
      var leaf := Nodes(D - 1) + id / 64;
      && leaf < |ns|
      && var ns1 := ns[leaf := ns[leaf] + {id % 64}];
      WfBut(ns1, D, leaf) && (ns[leaf] != {} && leaf > 0 ==> ParentSays(ns1, leaf))
  {
    LeafIndex(D, id);
    var leaf := Nodes(D - 1) + id / 64;
    assert Small(ns[leaf]);
    LeafChanged(ns, D, leaf, ns[leaf] + {id % 64});
    if leaf > 0 {
      ParentOf(leaf, D);
      WfAt(ns, D, Parent(leaf), BitInParent(leaf));
    }
  }

  lemma SetStep(ns: seq<Word>, D: nat, j: nat)
    requires WfBut(ns, D, j) && 0 < j < |ns| && ns[j] != {}
    ensures Parent(j) < j && Parent(j) < Nodes(D - 1) && Parent(j) < |ns|
    ensures
      var p := Parent(j);
      var ns' := ns[p := ns[p] + {BitInParent(j)}];
      WfBut(ns', D, p) && (ns[p] != {} && p > 0 ==> ParentSays(ns', p))
  {
    ParentOf(j, D);
    var p := Parent(j);
    assert Small(ns[p]);
    WfUp(ns, D, j, ns[p] + {BitInParent(j)});
    if p > 0 {
      ParentOf(p, D);
      assert Agree(ns, Parent(p), BitInParent(p));
    }
  }

  lemma FreeMeans(ns: seq<Word>, ns1: seq<Word>, ns2: seq<Word>, D: nat, id: nat, w: Word)
    requires |ns| == Nodes(D) && D > 0 && id < Pow64(D) && Nodes(D - 1) + id / 64 < |ns| == |ns2|
    requires ns1 == ns[Nodes(D - 1) + id / 64 := w] && w == ns[Nodes(D - 1) + id / 64] + {id % 64}
    requires forall i | Nodes(D - 1) <= i < |ns1| :: ns2[i] == ns1[i]
    ensures IsFree(ns2, D, id) && (!IsFree(ns, D, id) ==> Taken(ns2, D, ns, D, [id]))
  {
    hide IsFree;
    forall x: nat ensures IsFree(ns2, D, x) <==> IsFree(ns, D, x) || x == id {
      LeafFree(ns, D, id, w, x);
      InteriorFree(ns1, ns2, D, x);
    }
  }

  /** ids are the smallest free ids in [min, max], in order. */
  ghost predicate Batch(ns: seq<Word>, D: nat, min: nat, max: nat, ids: seq<nat>) {
    && (forall j, k | 0 <= j < k < |ids| :: ids[j] < ids[k])
    && (forall k | 0 <= k < |ids| :: min <= ids[k] <= max && IsFree(ns, D, ids[k]))
    && (forall x: nat, k | 0 <= k < |ids| && min <= x < ids[k] && IsFree(ns, D, x) :: x in ids)
  }

  lemma EmptyBatch(ns: seq<Word>, D: nat, min: nat, max: nat)
    ensures Batch(ns, D, min, max, [])
  {}

  lemma MoreBatch(ns: seq<Word>, D: nat, min: nat, max: nat, ids: seq<nat>, now: seq<Word>, E: nat, id: nat)
    requires Batch(ns, D, min, max, ids) && LeastIn(now, E, min, max, id) && Taken(ns, D, now, E, ids)
    ensures Batch(ns, D, min, max, ids + [id])
  {
    hide IsFree;
    var more := ids + [id];
    forall k | 0 <= k < |ids| ensures ids[k] < id {
      assert ids[k] in ids;
      assert id < ids[k] ==> id in ids;
    }
    forall x: nat, k | 0 <= k < |more| && min <= x < more[k] && IsFree(ns, D, x) ensures x in more {
      assert k == |ids| && x !in ids ==> IsFree(now, E, x);
      assert k < |ids| ==> x in ids;
    }
  }

  lemma SameTooLarge(ns: seq<Word>, D: nat, ms: seq<Word>, E: nat, min: nat, max: nat)
    requires TooLarge(ns, D, min, max) && Taken(ns, D, ms, E, [])
    ensures TooLarge(ms, E, min, max)
  {
    hide IsFree, LeastIn;
    var id: nat :| LeastIn(ns, D, min, max, id) && id > INT_MAX;
    TakenBack(ns, D, ms, E);
    SameLeast(ms, E, ns, D, min, max, id);
  }

  function Ids(r: AllocResult): seq<nat> { if r.Id? then [r.id] else [] }

  /** ms is ns with ids taken and every other id as it was. */
  ghost predicate Taken(ns: seq<Word>, D: nat, ms: seq<Word>, E: nat, ids: seq<nat>) {
    forall x: nat :: IsFree(ms, E, x) <==> IsFree(ns, D, x) && x !in ids
  }

  ghost predicate NoneIn(ns: seq<Word>, D: nat, min: nat, max: nat) {
    forall x: nat | min <= x <= max :: !IsFree(ns, D, x)
  }

  lemma TakenBack(ns: seq<Word>, D: nat, ms: seq<Word>, E: nat)
    requires Taken(ns, D, ms, E, [])
    ensures Taken(ms, E, ns, D, [])
  {}

  lemma NothingTaken(ns: seq<Word>, D: nat)
    ensures Taken(ns, D, ns, D, [])
  {}

  lemma TakenMore(ns: seq<Word>, D: nat, cells: seq<Word>, deep: nat, ms: seq<Word>, E: nat, had: seq<nat>, r: AllocResult)
    requires Taken(ns, D, cells, deep, had) && Taken(cells, deep, ms, E, Ids(r))
    ensures Taken(ns, D, ms, E, had + Ids(r))
  {
    hide IsFree;
    forall x: nat ensures IsFree(ms, E, x) <==> IsFree(ns, D, x) && x !in had + Ids(r) {
      assert IsFree(cells, deep, x) <==> IsFree(ns, D, x) && x !in had;
    }
  }

  ghost predicate LeastIn(ns: seq<Word>, D: nat, min: nat, max: nat, id: nat) {
    min <= id <= max && IsFree(ns, D, id) && forall x: nat | min <= x < id :: !IsFree(ns, D, x)
  }

  ghost predicate TooLarge(ns: seq<Word>, D: nat, min: nat, max: nat) {
    exists id: nat :: LeastIn(ns, D, min, max, id) && id > INT_MAX
  }

  lemma RootSize()
    ensures Pow64(0) == 1 && Nodes(0) == 0
  {}

  lemma UnderRoot(x: nat, D: nat)
    ensures Up(x, D) == 0 <==> x < Pow64(D)
  {
    UpRange(x, D, 0);
  }

  lemma RootLeast(ns: seq<Word>, D: nat, min: nat, max: nat, id: nat)
    requires LeastBelow(ns, D, D, 0, min, max, id)
    ensures LeastIn(ns, D, min, max, id)
  {
    hide IsFree, Up, Pow64;
    UnderRoot(id, D);
    forall x: nat | min <= x < id ensures !IsFree(ns, D, x) { UnderRoot(x, D); }
  }

  /** A tree of depth E is called for: one level less has room only for ids below max, and none of them in range is free. */
  ghost predicate Needed(ns: seq<Word>, D: nat, min: nat, max: nat, E: nat) {
    E <= 1 || (Pow64(E - 1) <= max && forall x: nat | min <= x <= max && x < Pow64(E - 1) :: !IsFree(ns, D, x))
  }

  lemma NeededOne(ns: seq<Word>, D: nat, min: nat, max: nat)
    ensures Needed(ns, D, min, max, 1) && Needed(ns, D, min, max, 0)
  {}

  lemma SameNeeded(ns: seq<Word>, D: nat, ms: seq<Word>, E: nat, min: nat, max: nat, deep: nat)
    requires Needed(ns, D, min, max, deep) && Taken(ns, D, ms, E, [])
    ensures Needed(ms, E, min, max, deep)
  {
    hide IsFree, Pow64;
  }

  lemma NeededMore(ns: seq<Word>, D: nat, cells: seq<Word>, deep: nat, min: nat, max: nat)
    requires NoneBelow(cells, deep, deep, 0, min, max) && Taken(ns, D, cells, deep, []) && Pow64(deep) <= max
    ensures Needed(ns, D, min, max, deep + 1)
  {
    hide IsFree, Up, Pow64;
    forall x: nat | min <= x <= max && x < Pow64(deep) ensures !IsFree(ns, D, x) {
      UnderRoot(x, deep);
      assert IsFree(cells, deep, x) <==> IsFree(ns, D, x);
    }
  }

  lemma RootNone(ns: seq<Word>, D: nat, min: nat, max: nat)
    requires NoneBelow(ns, D, D, 0, min, max) && max < Pow64(D)
    ensures NoneIn(ns, D, min, max)
  {
    hide IsFree, Up, Pow64;
    forall x: nat | min <= x <= max ensures !IsFree(ns, D, x) { UnderRoot(x, D); }
  }

  lemma SameLeast(ns: seq<Word>, D: nat, ms: seq<Word>, E: nat, min: nat, max: nat, id: nat)
    requires LeastIn(ms, E, min, max, id) && Taken(ns, D, ms, E, [])
    ensures LeastIn(ns, D, min, max, id)
  {
    hide IsFree;
  }

  /** The three answers exclude each other. */
  lemma LeastDecides(ns: seq<Word>, D: nat, min: nat, max: nat, id: nat)
    requires LeastIn(ns, D, min, max, id)
    ensures !NoneIn(ns, D, min, max) && (TooLarge(ns, D, min, max) <==> id > INT_MAX)
  {
    hide IsFree;
    if x: nat :| LeastIn(ns, D, min, max, x) && x > INT_MAX { assert x == id; }
  }

  lemma LargeDecides(ns: seq<Word>, D: nat, min: nat, max: nat)
    requires TooLarge(ns, D, min, max)
    ensures !NoneIn(ns, D, min, max)
  {
    hide IsFree;
  }

  lemma NoneDecides(ns: seq<Word>, D: nat, ms: seq<Word>, E: nat, min: nat, max: nat)
    requires Taken(ns, D, ms, E, []) && NoneIn(ms, E, min, max)
    ensures NoneIn(ns, D, min, max) && !TooLarge(ns, D, min, max)
  {
    hide IsFree;
  }

  lemma RootTooLarge(ns: seq<Word>, D: nat, ms: seq<Word>, E: nat, min: nat, max: nat)
    requires TooLargeBelow(ns, D, D, 0, min, max) && Taken(ms, E, ns, D, [])
    ensures TooLarge(ms, E, min, max)
  {
    hide IsFree, LeastBelow, LeastIn, Taken;
    var id: nat :| LeastBelow(ns, D, D, 0, min, max, id) && id > INT_MAX;
    RootLeast(ns, D, min, max, id);
    SameLeast(ms, E, ns, D, min, max, id);
  }

  lemma TakenNone(ns: seq<Word>, D: nat, cells: seq<Word>, deep: nat, ms: seq<Word>, E: nat, ids: seq<nat>)
    requires Taken(ns, D, cells, deep, []) && Taken(cells, deep, ms, E, ids)
    ensures Taken(ns, D, ms, E, ids)
  {
    hide IsFree;
    forall x: nat ensures IsFree(ms, E, x) <==> IsFree(ns, D, x) && x !in ids { assert IsFree(cells, deep, x) <==> IsFree(ns, D, x); }
  }

  /** No tree has between 2^30 and 2^36 ids. */
  lemma CapacityGap(D: nat)
    ensures Pow64(D) <= 0xffff_ffff ==> D <= 5 && Pow64(D) <= 0x4000_0000
  {
    PowSix();
    if D >= 6 { PowMonotone(6, D); } else { PowMonotone(D, 5); }
  }

  lemma PowSix()
    ensures Pow64(5) == 0x4000_0000 && Pow64(6) == 0x10_0000_0000
  {
    assert Pow64(2) == 4096;
    assert Pow64(4) == 0x100_0000;
  }

  lemma {:induction false} PowMonotone(a: nat, b: nat)
    requires a <= b
    ensures Pow64(a) <= Pow64(b)
    decreases b - a
  {
    if a < b { PowMonotone(a, b - 1); }
  }

  lemma GrownTaken(ns: seq<Word>, D: nat, ms: seq<Word>)
    requires Wf(ns, D) && Grown(ns, D, ms)
    ensures Taken(ns, D, ms, D + 1, [])
  {
    hide Wf, Grown, IsFree;
    forall x: nat ensures IsFree(ms, D + 1, x) <==> IsFree(ns, D, x) { GrownFree(ns, D, ms, x); }
  }

  lemma WfLength(ns: seq<Word>, D: nat)
    requires Wf(ns, D)
    ensures |ns| == Nodes(D)
  {}

  /** Level l of the new array once the first done levels of the old one are copied. */
  ghost predicate CopiedAt(ns: seq<Word>, ms: seq<Word>, l: nat, x: nat, done: nat)
    requires l > 0
  {
    if l <= done then GrownAt(ns, ms, l, x) else Nodes(l) + x < |ms| && ms[Nodes(l) + x] == Full()
  }

  ghost predicate Copied(ns: seq<Word>, D: nat, ms: seq<Word>, done: nat) {
    |ms| == Nodes(D + 1) && forall l: nat, x: nat | 0 < l <= D && x < Pow64(l) :: CopiedAt(ns, ms, l, x, done)
  }

  method CopyTree(nodes: array<Word>, D: nat) returns (m: array<Word>)
    requires nodes.Length == Nodes(D)
    ensures fresh(m) && Grown(nodes[..], D, m[..])
  {
    hide Pow64, Full;
    ghost var ns := nodes[..];
    var total := NodesUpToLevel(D + 1);
    m := new Word[total](_ => Full());
    StartCopied(ns, D, m[..]);
    for L := 0 to D
      invariant fresh(m) && m.Length == Nodes(D + 1) && nodes[..] == ns && Copied(ns, D, m[..], L)
    {
      hide Copied;
      var from := NodesUpToLevel(L);
      var to := NodesUpToLevel(L + 1);
      var count := Pow64(L);
      ghost var before := m[..];
      NodesSum(L);
      NodesMonotone(L + 1, D);
      NodesSum(L + 1);
      NodesMonotone(L + 2, D + 1);
      PowGrows(L);
      CopyRange(m, to, nodes, from, count);
      CopyLevel(ns, D, before, m[..], L);
    }
    hide Copied, Grown;
    RootIndex(D);
    ghost var before := m[..];
    m[0] := if D > 0 && nodes[0] == {} then Full() - {0} else Full();
    assert m[..] == before[0 := m[0]];
    CopyRoot(ns, D, before, m[0]);
  }

  method CopyRange(m: array<Word>, to: nat, nodes: array<Word>, from: nat, count: nat)
    requires m != nodes && to + count <= m.Length && from + count <= nodes.Length
    modifies m
    ensures forall i: nat | i < m.Length :: m[i] == if to <= i < to + count then nodes[i - to + from] else old(m[i])
  {
    for x := 0 to count
      invariant forall i: nat | i < m.Length :: m[i] == if to <= i < to + x then nodes[i - to + from] else old(m[i])
    {
      m[to + x] := nodes[from + x];
    }
  }

  lemma PowGrows(L: nat)
    ensures Pow64(L) < Pow64(L + 1)
  {}

  lemma RootIndex(D: nat)
    ensures 0 < Nodes(D + 1) && (D > 0 ==> 0 < Nodes(D))
  {}

  lemma StartCopied(ns: seq<Word>, D: nat, ms: seq<Word>)
    requires |ms| == Nodes(D + 1) && forall i: nat | i < |ms| :: ms[i] == Full()
    ensures Copied(ns, D, ms, 0)
  {
    forall l: nat, x: nat | 0 < l <= D && x < Pow64(l) ensures CopiedAt(ns, ms, l, x, 0) { NodeIndex(l, x, D + 1); }
  }

  /** A position on level l is not on another level. */
  lemma LevelApart(l: nat, x: nat, L: nat, y: nat)
    requires x < Pow64(l) && y < Pow64(L) && Nodes(l) + x == Nodes(L) + y
    ensures l == L
  {
    hide Nodes, Pow64;
    if l < L { LevelBefore(l, x, L); }
    if L < l { LevelBefore(L, y, l); }
  }

  lemma LevelBefore(l: nat, x: nat, L: nat)
    requires x < Pow64(l) && l < L
    ensures Nodes(l) + x < Nodes(L)
  {
    NodesSum(l);
    NodesMonotone(l + 1, L);
  }

  lemma CopyLevel(ns: seq<Word>, D: nat, before: seq<Word>, ms: seq<Word>, L: nat)
    requires Copied(ns, D, before, L) && L < D && |ns| == Nodes(D) && |ms| == |before|
    requires forall i: nat | i < |ms| ::
      ms[i] == if Nodes(L + 1) <= i < Nodes(L + 1) + Pow64(L) && Nodes(L) <= i - Nodes(L + 1) + Nodes(L) < |ns| then ns[i - Nodes(L + 1) + Nodes(L)] else before[i]
    ensures Copied(ns, D, ms, L + 1)
  {
    hide Full;
    var done := L + 1;
    forall l: nat, x: nat | 0 < l <= D && x < Pow64(l) ensures CopiedAt(ns, ms, l, x, done) {
      assert CopiedAt(ns, before, l, x, L);
      NodeIndex(l, x, D + 1);
      var i := Nodes(l) + x;
      if l == L + 1 {
        if x < Pow64(L) { NodeIndex(L, x, D); }
      } else if Nodes(L + 1) <= i < Nodes(L + 1) + Pow64(L) {
        PowGrows(L);
        LevelApart(l, x, L + 1, i - Nodes(L + 1));
      }
    }
  }

  lemma CopyRoot(ns: seq<Word>, D: nat, before: seq<Word>, root: Word)
    requires |ns| == Nodes(D) && |before| > 0 && Copied(ns, D, before, D)
    requires D > 0 ==> 0 < |ns|
    requires root == if D > 0 && ns[0] == {} then Full() - {0} else Full()
    ensures Grown(ns, D, before[0 := root])
  {
    hide Full;
    var ms := before[0 := root];
    forall l: nat, x: nat | 0 < l <= D && x < Pow64(l) ensures GrownAt(ns, ms, l, x) { assert CopiedAt(ns, before, l, x, D); }
  }

  lemma WfIndex(ns: seq<Word>, D: nat, L: nat, p: nat)
    requires Wf(ns, D) && L < D && p < Pow64(L)
    ensures Nodes(L) + p < |ns|
  {
    NodeIndex(L, p, D);
  }

  lemma ChildWidth(h: nat)
    requires h > 0
    ensures Pow64(h) == 64 * Pow64(h - 1) && Pow64(h - 1) > 0
  {}

  lemma MaskedBit(ns: seq<Word>, D: nat, L: nat, p: nat, lo: nat, hi: nat, bit: nat)
    requires Wf(ns, D) && L < D && p < Pow64(L) && Nodes(L) + p < |ns| && bit in Masked(ns[Nodes(L) + p], lo, hi)
    ensures bit < 64 && bit in ns[Nodes(L) + p] && lo <= bit <= hi
  {
    assert Small(ns[Nodes(L) + p]);
  }

  lemma LeafBase(p: nat, h: nat, span: nat, bit: nat, base: nat)
    requires h == 1 && span == Pow64(h - 1) && base == p * Pow64(h)
    ensures span == 1 && base + bit * span == 64 * p + bit && base == 64 * p
  {
    assert Pow64(0) == 1 && Pow64(1) == 64;
  }

  lemma MeetsLeaf(base: nat, span: nat, min: nat, max: nat, lo: nat, hi: nat, bit: nat)
    requires span == 1 && Meets(base, span, min, max, lo, hi) && lo <= bit <= hi
    ensures min <= base + bit <= max
  {
    assert Inside(base, bit, min, max);
  }

  lemma LeastFree(ns: seq<Word>, D: nat, h: nat, p: nat, min: nat, max: nat, id: nat)
    requires LeastBelow(ns, D, h, p, min, max, id)
    ensures IsFree(ns, D, id)
  {}

  lemma ChildIndex(L: nat, p: nat, bit: nat, h: nat, base: nat, span: nat)
    requires p < Pow64(L) && bit < 64 && h > 1 && base == p * Pow64(h) && span == Pow64(h - 1)
    ensures 64 * (Nodes(L) + p) + 1 + bit == Nodes(L + 1) + (64 * p + bit) && 64 * p + bit < Pow64(L + 1)
    ensures base + bit * span == (64 * p + bit) * Pow64(h - 1)
  {
    Regroup(p, span);
    Distribute(64 * p, bit, span);
  }

  lemma TakeMeans(ns: seq<Word>, ns1: seq<Word>, ns2: seq<Word>, D: nat, id: nat, w: Word)
    requires |ns| == Nodes(D) && D > 0 && id < Pow64(D) && Nodes(D - 1) + id / 64 < |ns| == |ns2| && IsFree(ns, D, id)
    requires ns1 == ns[Nodes(D - 1) + id / 64 := w] && w == ns[Nodes(D - 1) + id / 64] - {id % 64}
    requires forall i | Nodes(D - 1) <= i < |ns1| :: ns2[i] == ns1[i]
    ensures Taken(ns, D, ns2, D, [id])
  {
    hide IsFree;
    forall x: nat ensures IsFree(ns2, D, x) <==> IsFree(ns, D, x) && x != id {
      LeafFree(ns, D, id, w, x);
      InteriorFree(ns1, ns2, D, x);
    }
  }

  lemma TakeLeaf(ns: seq<Word>, D: nat, id: nat)
    requires Wf(ns, D) && D > 0 && id < Pow64(D) && IsFree(ns, D, id)
    ensures
      var leaf := Nodes(D - 1) + id / 64;
      && |ns| == Nodes(D) && leaf < |ns|
      && var ns1 := ns[leaf := ns[leaf] - {id % 64}];
      WfBut(ns1, D, leaf) && (leaf > 0 ==> ParentSays(ns1, leaf))
  {
    LeafIndex(D, id);
    var leaf := Nodes(D - 1) + id / 64;
    LeafChanged(ns, D, leaf, ns[leaf] - {id % 64});
    if leaf > 0 {
      ParentOf(leaf, D);
      assert Agree(ns, Parent(leaf), BitInParent(leaf));
    }
  }

  predicate ParentSays(ns: seq<Word>, j: nat)
    requires j > 0
  {
    Parent(j) < |ns| && BitInParent(j) in ns[Parent(j)]
  }

  /** One turn of the loop that clears the bits of full subtrees; the bit it clears is set. */
  lemma ClearStep(ns: seq<Word>, D: nat, j: nat)
    requires WfBut(ns, D, j) && 0 < j < |ns| && ns[j] == {} && ParentSays(ns, j)
    ensures Parent(j) < j && Parent(j) < Nodes(D - 1)
    ensures
      var p := Parent(j);
      var ns' := ns[p := ns[p] - {BitInParent(j)}];
      WfBut(ns', D, p) && (p > 0 ==> ParentSays(ns', p))
  {
    ParentOf(j, D);
    var p := Parent(j);
    WfUp(ns, D, j, ns[p] - {BitInParent(j)});
    if p > 0 {
      ParentOf(p, D);
      assert Agree(ns, Parent(p), BitInParent(p));
    }
  }

  lemma ClearDone(ns: seq<Word>, D: nat, j: nat)
    requires WfBut(ns, D, j) && j < |ns| && (j > 0 ==> ParentSays(ns, j) && ns[j] != {})
    ensures Wf(ns, D)
  {
    if j > 0 { ParentOf(j, D); }
    WfDone(ns, D, j);
  }

  /** An empty allocator asked for ids above INT_MAX, with memory to spare. */
  method AboveIntMax() returns (ida: Ida, r: AllocResult)
    ensures fresh(ida) && r == BugOn
  {
    hide IsFree;
    ida := new Ida();
    assert ida.Avail(0x8000_0000);
    assert LeastIn(ida.nodes[..], ida.depth, 0x8000_0000, 0xffff_ffff, 0x8000_0000);
    r := ida.AllocLocked(0x8000_0000, 0xffff_ffff, 6);
  }
}
