/** __genradix_iter_peek and __genradix_iter_peek_prev on a tree that does not change meanwhile. */
module GenradixIter {
  import opened Arith
  import opened Genradix
  import opened Options

  const SIZE_MAX: nat := 0xffff_ffff_ffff_ffff

  ghost predicate Present(s: State, page: nat) { Place(0, page) in s.places }

  /** Nothing is present from page a up to, not including, page b. */
  ghost predicate NoneFrom(s: State, a: nat, b: nat) { forall q: nat | a <= q < b :: !Present(s, q) }

  ghost predicate NoneAfter(s: State, a: nat) { forall q: nat | a <= q :: !Present(s, q) }

  /** Every page in the tree has a byte offset. */
  ghost predicate Addressable(s: State) { forall q: nat | Present(s, q) :: 512 * q <= SIZE_MAX }

  // Offsets are below 2^64, so pages are below 2^55; then every tree of a run meets what IterPeek asks of it.

  const PAGES: nat := 0x80_0000_0000_0000

  predicate SmallCall(c: Call) {
    match c
    case Growing(page, seen, _) => page < PAGES && (seen.Some? ==> seen.value.depth <= 10)
    case Walking(page, _, _, _) => page < PAGES
    case _ => true
  }

  ghost predicate Small(s: State) {
    && (s.root.Some? ==> s.root.value.depth <= 10) && (forall c | c in s.calls :: SmallCall(s.calls[c]))
    && forall q: nat | Present(s, q) :: q < PAGES
  }

  lemma Pow64At10()
    ensures Pow64(10) == 0x1000_0000_0000_0000
  {
    assert Pow64(3) == 0x4_0000;
    assert Pow64(6) == 0x10_0000_0000;
    assert Pow64(8) == 0x1_0000_0000_0000;
  }

  /** A tree too shallow for such a page is less than ten deep. */
  lemma Shallow(seen: Option<Root>, page: nat)
    requires seen.Some? && seen.value.depth <= 10 && page < PAGES && !Reaches(seen, page)
    ensures seen.value.depth < 10
  {
    hide Pow64;
    Pow64At10();
  }

  lemma SmallRaise(s: State, c: nat)
    requires Small(s) && Apply(s, Raise(c)).Ok?
    ensures Small(Apply(s, Raise(c)).state)
  {
    hide Pow64;
    var s' := Apply(s, Raise(c)).state;
    var call := s.calls[c];
    assert SmallCall(call);
    if call.seen.Some? { Shallow(call.seen, call.page); }
    assert forall q: nat | Present(s', q) :: Present(s, q) || q == 0;
  }

  lemma SmallLink(s: State, c: nat)
    requires Small(s) && Apply(s, Link(c)).Ok?
    ensures Small(Apply(s, Link(c)).state)
  {
    var s' := Apply(s, Link(c)).state;
    var call := s.calls[c];
    assert SmallCall(call);
    assert call.height == 1 ==> 64 * Up(call.page, 1) + Up(call.page, 0) % 64 == call.page;
    assert forall q: nat | Present(s', q) :: Present(s, q) || (call.height == 1 && q == call.page);
  }

  lemma SmallStep(s: State, step: Step)
    requires Small(s) && Apply(s, step).Ok? && (step.Begin? ==> step.page < PAGES)
    ensures Small(Apply(s, step).state)
  {
    hide Pow64, Up, RaiseTo, LinkAt;
    match step
    case Raise(c) => SmallRaise(s, c);
    case Link(c) => SmallLink(s, c);
    case Begin(c, page) => SmallFrame(s, Apply(s, step).state, c);
    case _ =>
      assert SmallCall(s.calls[step.call]);
      SmallFrame(s, Apply(s, step).state, step.call);
  }

  lemma SmallFrame(s: State, s': State, c: nat)
    requires Small(s) && s'.places == s.places && s'.root == s.root && c in s'.calls && SmallCall(s'.calls[c])
    requires forall d | d in s'.calls && d != c :: d in s.calls && s'.calls[d] == s.calls[d]
    ensures Small(s')
  {
    assert forall q: nat | Present(s', q) :: Present(s, q);
  }

  /** After any run of calls for pages that have an offset the tree is at most ten deep, and all its pages have one. */
  lemma {:induction false} RunAddressable(steps: seq<Step>)
    requires Run(Init, steps).Ok? && forall n | 0 <= n < |steps| && steps[n].Begin? :: steps[n].page < PAGES
    ensures var s := Run(Init, steps).state; Inv(s) && Small(s) && Addressable(s) && (s.root.Some? ==> s.root.value.depth <= 10)
    decreases |steps|
  {
    hide Apply, Inv;
    RunInv(steps);
    if |steps| != 0 {
      var n := |steps| - 1;
      RunAddressable(steps[..n]);
      SmallStep(Run(Init, steps[..n]).state, steps[n]);
    }
  }

  class Iter {
    var offset: nat
    var pos: nat

    constructor (offset: nat, pos: nat)
      ensures this.offset == offset && this.pos == pos
    {
      this.offset := offset;
      this.pos := pos;
    }
  }

  /** The first page after the subtree of height h that holds page. */
  function NextPage(page: nat, h: nat): nat { (Up(page, h) + 1) * Pow64(h) }

  lemma NextPageIs(page: nat, h: nat)
    ensures page < NextPage(page, h) && Up(NextPage(page, h), h) == Up(page, h) + 1
  {
    var u := Up(page, h);
    UpRange(page, h, u);
    UpRange(NextPage(page, h), h, u + 1);
    Distribute(u + 1, 1, Pow64(h));
  }

  /** An absent subtree holds no page. */
  lemma AbsentSubtree(s: State, page: nat, h: nat)
    requires Tree(s) && s.root.Some? && h <= s.root.value.depth && Place(h, Up(page, h)) !in s.places
    ensures NoneFrom(s, page, NextPage(page, h))
  {
    hide Tree, Up, Pow64;
    var u := Up(page, h);
    UpRange(page, h, u);
    forall q: nat | page <= q < NextPage(page, h) ensures !Present(s, q) {
      UpRange(q, h, u);
      NoneUnder(s, q, h);
    }
  }

  /** round_down. */
  function RoundTo(x: nat, size: nat): nat
    requires size > 0
  {
    x / size * size
  }

  lemma RoundUp(offset: nat, h: nat)
    ensures RoundTo(offset + 512 * Pow64(h), 512 * Pow64(h)) == 512 * NextPage(offset / 512, h)
  {
    var page, m := offset / 512, Pow64(h);
    var u, size := Up(page, h), 512 * m;
    UpRange(page, h, u);
    assert u * m <= page < (u + 1) * m;
    Scale512(u, m);
    Scale512(u + 1, m);
    DivRange(offset, size, u);
    Distribute(u + 1, 1, size);
    Distribute(u, 1, size);
    DivRange(offset + size, size, u + 1);
  }

  lemma Scale512(u: nat, m: nat)
    ensures u * (512 * m) == 512 * (u * m)
  {}

  // ------------------------------------------------------------------ forwards

  /** What walking over missing children comes to: child i is there, the node is exhausted, or no offset is left. */
  datatype Skip = Found(i: nat) | Restart | End

  /** The cursor is where it was, or at the start of a later page. */
  predicate Advanced(off0: nat, pos0: nat, off: nat, pos: nat, opp: nat) {
    (off == off0 && pos == pos0) || (off > off0 && off % 512 == 0 && pos == off / 512 * opp)
  }

  lemma SubtreeOf(page: nat, h: nat)
    ensures Up(page, h + 1) == Up(page, h) / 64
  {}

  lemma PageOf(x: nat)
    ensures 512 * x / 512 == x && 512 * x % 512 == 0
  {}

  lemma NoneJoin(s: State, a: nat, b: nat, c: nat)
    requires NoneFrom(s, a, b) && NoneFrom(s, b, c)
    ensures NoneFrom(s, a, c)
  {}

  /** When the next subtree would start past SIZE_MAX, nothing is left. */
  lemma NoMore(s: State, offset: nat, h: nat)
    requires Addressable(s) && NoneFrom(s, offset / 512, NextPage(offset / 512, h)) && h <= 9
    requires offset + 512 * Pow64(h) > SIZE_MAX
    ensures NoneAfter(s, offset / 512)
  {
    RoundUp(offset, h);
    var size, next := 512 * Pow64(h), NextPage(offset / 512, h);
    WholeRange(h);
    LastSubtree(offset, size, 512 * next);
    forall q: nat | offset / 512 <= q ensures !Present(s, q) {
      assert q < next ==> !Present(s, q);
    }
  }

  /** 2^64 is a multiple of every subtree size. */
  lemma WholeRange(h: nat)
    requires h <= 9
    ensures 512 * Pow64(h) > 0 && (SIZE_MAX + 1) % (512 * Pow64(h)) == 0
  {
    assert Pow64(2) == 4096;
    assert Pow64(4) == 0x100_0000;
    assert Pow64(6) == 0x10_0000_0000;
    assert Pow64(8) == 0x1_0000_0000_0000;
    assert Pow64(1) == 64 && Pow64(3) == 0x4_0000 && Pow64(5) == 0x4000_0000 && Pow64(7) == 0x400_0000_0000 && Pow64(9) == 0x40_0000_0000_0000;
    assert Pow64(0) == 1;
  }

  lemma LastSubtree(offset: nat, size: nat, next: nat)
    requires size > 0 && (SIZE_MAX + 1) % size == 0 && offset + size > SIZE_MAX && next == RoundTo(offset + size, size)
    ensures next > SIZE_MAX
  {
    var q, k := (SIZE_MAX + 1) / size, (offset + size) / size;
    assert SIZE_MAX + 1 == q * size;
    DivRange(offset + size, size, k);
    if k < q { MulLess(k + 1, q, size); }
    MulLess(q, k, size);
  }

  method SkipAbsent(it: Iter, s: State, opp: nat, n: nat, level: nat, ghost start: nat) returns (r: Skip)
    requires Inv(s) && Addressable(s) && s.root.Some? && level < s.root.value.depth <= 10 && it.offset <= SIZE_MAX
    requires AtPlace(s, Place(level + 1, Up(it.offset / 512, level + 1)), n) && NoneFrom(s, start, it.offset / 512)
    modifies it
    ensures Advanced(old(it.offset), old(it.pos), it.offset, it.pos, opp) || r == End
    ensures r != End ==> it.offset <= SIZE_MAX && NoneFrom(s, start, it.offset / 512)
    ensures r.Found? ==> n in s.children && r.i in s.children[n] && r.i == Up(it.offset / 512, level) % 64
    ensures r.Found? ==> AtPlace(s, Place(level, Up(it.offset / 512, level)), s.children[n][r.i])
    ensures r == Restart ==> it.offset / 512 > old(it.offset) / 512
    ensures r == End ==> it.offset == it.pos == SIZE_MAX && NoneAfter(s, start)
  {
    hide Inv, Tree, Up, Pow64, NextPage, NoneFrom, NoneAfter, Addressable, Advanced, RoundTo;
    var i := Up(it.offset / 512, level) % 64;
    SubtreeOf(it.offset / 512, level);
    TreeNode(s, it.offset / 512, level, n);
    NotMoved(it.offset, it.pos, opp);
    while i !in s.children[n]
      invariant n in s.children && i < 64 && i == Up(it.offset / 512, level) % 64 && it.offset <= SIZE_MAX
      invariant AtPlace(s, Place(level + 1, Up(it.offset / 512, level + 1)), n) && NoneFrom(s, start, it.offset / 512)
      invariant Advanced(old(it.offset), old(it.pos), it.offset, it.pos, opp)
      decreases 64 - i
    {
      ghost var page, off, pos := it.offset / 512, it.offset, it.pos;
      var size := 512 * Pow64(level);
      Missing(s, page, level, n, i);
      if it.offset + size > SIZE_MAX {
        NoMore(s, it.offset, level);
        NoneOnwards(s, start, page);
        it.offset, it.pos := SIZE_MAX, SIZE_MAX;
        return End;
      }
      i := i + 1;
      RoundUp(it.offset, level);
      NextPageIs(page, level);
      RoundFits(it.offset, size);
      NoneJoin(s, start, page, NextPage(page, level));
      PageOf(NextPage(page, level));
      SubtreeOf(page, level);
      SubtreeOf(NextPage(page, level), level);
      it.offset := RoundTo(it.offset + size, size);
      it.pos := it.offset / 512 * opp;
      NewPage(off, pos, NextPage(page, level), opp);
      AdvancedMore(old(it.offset), old(it.pos), off, pos, it.offset, it.pos, opp);
      if i == 64 { return Restart; }
    }
    TreeChild(s, it.offset / 512, level, n, i);
    return Found(i);
  }

  lemma NewPage(off: nat, pos: nat, page: nat, opp: nat)
    requires off / 512 < page
    ensures Advanced(off, pos, 512 * page, 512 * page / 512 * opp, opp)
  {}

  lemma RoundFits(offset: nat, size: nat)
    requires size > 0 && offset + size <= SIZE_MAX
    ensures RoundTo(offset + size, size) <= SIZE_MAX
  {
    DivRange(offset + size, size, (offset + size) / size);
  }

  lemma NoneOnwards(s: State, start: nat, page: nat)
    requires NoneFrom(s, start, page) && NoneAfter(s, page)
    ensures NoneAfter(s, start)
  {}

  lemma TreeNode(s: State, page: nat, level: nat, n: nat)
    requires Inv(s) && AtPlace(s, Place(level + 1, Up(page, level + 1)), n)
    ensures n in s.children
  {
    LinkedNodes(s);
  }

  lemma TreeChild(s: State, page: nat, level: nat, n: nat, i: nat)
    requires Inv(s) && AtPlace(s, Place(level + 1, Up(page, level + 1)), n) && n in s.children && i in s.children[n] && i == Up(page, level) % 64
    ensures AtPlace(s, Place(level, Up(page, level)), s.children[n][i])
  {
    StepPlace(page, level + 1);
    KidAt(s, Place(level + 1, Up(page, level + 1)), i);
  }

  lemma Missing(s: State, page: nat, level: nat, n: nat, i: nat)
    requires Inv(s) && s.root.Some? && level < s.root.value.depth && AtPlace(s, Place(level + 1, Up(page, level + 1)), n)
    requires n in s.children && i !in s.children[n] && i == Up(page, level) % 64
    ensures NoneFrom(s, page, NextPage(page, level))
  {
    hide Tree, KidsOk;
    StepPlace(page, level + 1);
    KidAt(s, Place(level + 1, Up(page, level + 1)), i);
    AbsentSubtree(s, page, level);
  }

  lemma AdvancedMore(off0: nat, pos0: nat, off1: nat, pos1: nat, off2: nat, pos2: nat, opp: nat)
    requires Advanced(off0, pos0, off1, pos1, opp) && Advanced(off1, pos1, off2, pos2, opp)
    ensures Advanced(off0, pos0, off2, pos2, opp) && off0 <= off1 <= off2
  {}

  /** One walk from the root towards the cursor: Found carries the leaf node. */
  method WalkDown(it: Iter, s: State, opp: nat, ghost start: nat) returns (r: Skip)
    requires Inv(s) && Addressable(s) && s.root.Some? && s.root.value.depth <= 10 && it.offset <= SIZE_MAX
    requires it.offset / 512 < Pow64(s.root.value.depth) && NoneFrom(s, start, it.offset / 512)
    modifies it
    ensures r != End ==> Advanced(old(it.offset), old(it.pos), it.offset, it.pos, opp)
    ensures r != End ==> it.offset <= SIZE_MAX && NoneFrom(s, start, it.offset / 512)
    ensures r.Found? ==> AtPlace(s, Place(0, it.offset / 512), r.i)
    ensures r == Restart ==> it.offset / 512 > old(it.offset) / 512
    ensures r == End ==> NoneAfter(s, start)
  {
    hide Inv, Up, Pow64, NoneFrom, NoneAfter, Addressable, Advanced;
    var n: nat, level: nat := s.root.value.node, s.root.value.depth;
    AtRoot(s, it.offset / 512);
    NotMoved(it.offset, it.pos, opp);
    while level > 0
      invariant it.offset <= SIZE_MAX && level <= s.root.value.depth && NoneFrom(s, start, it.offset / 512)
      invariant Advanced(old(it.offset), old(it.pos), it.offset, it.pos, opp)
      invariant AtPlace(s, Place(level, Up(it.offset / 512, level)), n)
    {
      ghost var off, pos := it.offset, it.pos;
      level := level - 1;
      var skip := SkipAbsent(it, s, opp, n, level, start);
      if skip == End { return End; }
      AdvancedMore(old(it.offset), old(it.pos), off, pos, it.offset, it.pos, opp);
      if skip == Restart { return Restart; }
      n := s.children[n][skip.i];
    }
    UpSelf(it.offset / 512);
    return Found(n);
  }

  lemma NotMoved(off: nat, pos: nat, opp: nat)
    ensures Advanced(off, pos, off, pos, opp)
  {}

  /**
   * __genradix_iter_peek: the node and byte of the first present offset at or after the cursor, which moves there;
   * opp objects fit a page.
   */
  method IterPeek(it: Iter, s: State, opp: nat) returns (r: Option<(nat, nat)>)
    requires Inv(s) && Addressable(s) && it.offset <= SIZE_MAX && (s.root.Some? ==> s.root.value.depth <= 10)
    modifies it
    ensures old(it.offset) == SIZE_MAX ==> r == None
    ensures old(it.offset) < SIZE_MAX && r == None ==> NoneAfter(s, old(it.offset) / 512)
    ensures r.Some? ==> AtPlace(s, Place(0, it.offset / 512), r.value.0) && r.value.1 == it.offset % 512
    ensures r.Some? ==> Advanced(old(it.offset), old(it.pos), it.offset, it.pos, opp) && NoneFrom(s, old(it.offset) / 512, it.offset / 512)
  {
    hide Inv, Up, Pow64, NoneFrom, NoneAfter, Addressable, Advanced, AtPlace;
    if it.offset == SIZE_MAX { return None; }
    ghost var start := it.offset / 512;
    NoneHere(s, start);
    if s.root.None? {
      NoRoot(s, start);
      return None;
    }
    NotMoved(it.offset, it.pos, opp);
    while it.offset / 512 < Pow64(s.root.value.depth)
      invariant it.offset <= SIZE_MAX && NoneFrom(s, start, it.offset / 512)
      invariant Advanced(old(it.offset), old(it.pos), it.offset, it.pos, opp)
      decreases Pow64(s.root.value.depth) - it.offset / 512
    {
      ghost var off, pos := it.offset, it.pos;
      var w := WalkDown(it, s, opp, start);
      if w == End { return None; }
      AdvancedMore(old(it.offset), old(it.pos), off, pos, it.offset, it.pos, opp);
      if w.Found? { return Some((w.i, it.offset % 512)); }
    }
    PastEnd(s, start, it.offset / 512);
    return None;
  }

  lemma NoneHere(s: State, a: nat)
    ensures NoneFrom(s, a, a)
  {}

  lemma NoRoot(s: State, a: nat)
    requires Inv(s) && s.root.None?
    ensures NoneAfter(s, a)
  {
    forall q: nat | a <= q ensures !Present(s, q) { NotInside(s, q); }
  }

  lemma PastEnd(s: State, a: nat, b: nat)
    requires Inv(s) && s.root.Some? && NoneFrom(s, a, b) && b >= Pow64(s.root.value.depth)
    ensures NoneAfter(s, a)
  {
    hide Tree, Spares;
    forall q: nat | b <= q ensures !Present(s, q) { NotInside(s, q); }
  }

  lemma AtRoot(s: State, page: nat)
    requires Inv(s) && s.root.Some? && page < Pow64(s.root.value.depth)
    ensures AtPlace(s, Place(s.root.value.depth, Up(page, s.root.value.depth)), s.root.value.node)
  {
    UpZero(page, s.root.value.depth);
  }

  // ------------------------------------------------------------------ backwards

  /** Nothing is present on pages a to b. */
  ghost predicate NoneBetween(s: State, a: nat, b: int) { forall q: nat | a <= q <= b :: !Present(s, q) }

  /** The cursor is where it was, or at the last object of an earlier page; osr is object size plus page remainder. */
  predicate Retreated(off0: nat, pos0: nat, off: nat, pos: int, opp: nat, osr: nat) {
    (off == off0 && pos == pos0) || (off < off0 && (off + osr) % 512 == 0 && pos == (off + osr) / 512 * opp - 1)
  }

  /** First page of the subtree of height h that holds page. */
  function SubtreeStart(page: nat, h: nat): nat { Up(page, h) * Pow64(h) }

  lemma AbsentBefore(s: State, page: nat, h: nat)
    requires Tree(s) && s.root.Some? && h <= s.root.value.depth && Place(h, Up(page, h)) !in s.places
    ensures NoneBetween(s, SubtreeStart(page, h), page)
  {
    hide Tree, Up, Pow64;
    var u := Up(page, h);
    UpRange(page, h, u);
    forall q: nat | SubtreeStart(page, h) <= q <= page ensures !Present(s, q) {
      UpRange(q, h, u);
      NoneUnder(s, q, h);
    }
  }

  lemma RoundDown(offset: nat, h: nat)
    ensures RoundTo(offset, 512 * Pow64(h)) == 512 * SubtreeStart(offset / 512, h) <= offset
  {
    var page, m := offset / 512, Pow64(h);
    var u, size := Up(page, h), 512 * m;
    UpRange(page, h, u);
    Scale512(u, m);
    Scale512(u + 1, m);
    DivRange(offset, size, u);
  }

  /** The page before a subtree is in the subtree before it. */
  lemma BeforeSubtree(page: nat, h: nat)
    requires SubtreeStart(page, h) > 0
    ensures Up(page, h) > 0 && Up(SubtreeStart(page, h) - 1, h) == Up(page, h) - 1
  {
    var u, m := Up(page, h), Pow64(h);
    Distribute(u - 1, 1, m);
    UpRange(u * m - 1, h, u - 1);
  }

  lemma LastObject(x: nat, osr: nat)
    requires x > 0 && 0 < osr <= 512
    ensures 512 * x >= osr && (512 * x - osr) / 512 == x - 1 && (512 * x - osr + osr) % 512 == 0 && (512 * x - osr + osr) / 512 == x
  {}

  method SkipAbsentPrev(it: Iter, s: State, opp: nat, osr: nat, n: nat, level: nat, ghost start: nat) returns (r: Skip)
    requires Inv(s) && s.root.Some? && level < s.root.value.depth && 0 < osr <= 512 && opp > 0
    requires AtPlace(s, Place(level + 1, Up(it.offset / 512, level + 1)), n) && NoneBetween(s, it.offset / 512 + 1, start)
    modifies it
    ensures r != End ==> Retreated(old(it.offset), old(it.pos), it.offset, it.pos, opp, osr)
    ensures r != End ==> NoneBetween(s, it.offset / 512 + 1, start)
    ensures r.Found? ==> n in s.children && r.i in s.children[n] && AtPlace(s, Place(level, Up(it.offset / 512, level)), s.children[n][r.i])
    ensures r == Restart ==> it.offset / 512 < old(it.offset) / 512
    ensures r == End ==> NoneBetween(s, 0, start)
  {
    hide Inv, Tree, Up, Pow64, SubtreeStart, NoneBetween, Retreated, RoundTo;
    var i: nat := Up(it.offset / 512, level) % 64;
    SubtreeOf(it.offset / 512, level);
    TreeNode(s, it.offset / 512, level, n);
    Unmoved(it.offset, it.pos, opp, osr);
    while i !in s.children[n]
      invariant n in s.children && i == Up(it.offset / 512, level) % 64
      invariant AtPlace(s, Place(level + 1, Up(it.offset / 512, level + 1)), n) && NoneBetween(s, it.offset / 512 + 1, start)
      invariant Retreated(old(it.offset), old(it.pos), it.offset, it.pos, opp, osr)
      decreases i
    {
      ghost var page, off, pos := it.offset / 512, it.offset, it.pos;
      var size := 512 * Pow64(level);
      MissingBefore(s, page, level, n, i);
      RoundDown(it.offset, level);
      JoinHere(s, SubtreeStart(page, level), page, start);
      it.offset := RoundTo(it.offset, size);
      it.pos := it.offset / 512 * opp;
      if it.offset == 0 { return End; }
      StepBack(off, pos, page, level, opp, osr);
      it.offset := it.offset - osr;
      it.pos := it.pos - 1;
      RetreatedMore(old(it.offset), old(it.pos), off, pos, it.offset, it.pos, opp, osr);
      if i == 0 { return Restart; }
      i := i - 1;
    }
    TreeChild(s, it.offset / 512, level, n, i);
    return Found(i);
  }

  lemma Unmoved(off: nat, pos: nat, opp: nat, osr: nat)
    ensures Retreated(off, pos, off, pos, opp, osr)
  {}

  lemma RetreatedMore(off0: nat, pos0: nat, off1: nat, pos1: nat, off2: nat, pos2: nat, opp: nat, osr: nat)
    requires Retreated(off0, pos0, off1, pos1, opp, osr) && Retreated(off1, pos1, off2, pos2, opp, osr)
    ensures Retreated(off0, pos0, off2, pos2, opp, osr) && off2 <= off1 <= off0
  {}

  /** From the start of a subtree to the last object before it. */
  lemma StepBack(off: nat, pos: nat, page: nat, h: nat, opp: nat, osr: nat)
    requires page == off / 512 && 512 * SubtreeStart(page, h) > 0 && 0 < osr <= 512 && opp > 0
    ensures 512 * SubtreeStart(page, h) <= off && 512 * SubtreeStart(page, h) >= osr && 512 * SubtreeStart(page, h) / 512 * opp >= 1
    ensures Retreated(off, pos, 512 * SubtreeStart(page, h) - osr, 512 * SubtreeStart(page, h) / 512 * opp - 1, opp, osr)
    ensures var q := (512 * SubtreeStart(page, h) - osr) / 512;
      q + 1 == SubtreeStart(page, h) && q < page && Up(page, h) > 0 && Up(q, h) == Up(page, h) - 1
      && (Up(page, h) % 64 > 0 ==> Up(q, h + 1) == Up(page, h + 1) && Up(q, h) % 64 == Up(page, h) % 64 - 1)
  {
    RoundDown(off, h);
    var x := SubtreeStart(page, h);
    LastObject(x, osr);
    BeforeSubtree(page, h);
    SubtreeOf(page, h);
    SubtreeOf(x - 1, h);
    MulLess(1, x, opp);
  }

  lemma JoinHere(s: State, a: nat, page: nat, start: nat)
    requires NoneBetween(s, a, page) && NoneBetween(s, page + 1, start)
    ensures NoneBetween(s, a, start)
  {}

  lemma MissingBefore(s: State, page: nat, level: nat, n: nat, i: nat)
    requires Inv(s) && s.root.Some? && level < s.root.value.depth && AtPlace(s, Place(level + 1, Up(page, level + 1)), n)
    requires n in s.children && i !in s.children[n] && i == Up(page, level) % 64
    ensures NoneBetween(s, SubtreeStart(page, level), page)
  {
    hide Tree, KidsOk;
    StepPlace(page, level + 1);
    KidAt(s, Place(level + 1, Up(page, level + 1)), i);
    AbsentBefore(s, page, level);
  }

  method WalkDownPrev(it: Iter, s: State, opp: nat, osr: nat, ghost start: nat) returns (r: Skip)
    requires Inv(s) && s.root.Some? && it.offset / 512 < Pow64(s.root.value.depth) && 0 < osr <= 512 && opp > 0
    requires NoneBetween(s, it.offset / 512 + 1, start)
    modifies it
    ensures r != End ==> Retreated(old(it.offset), old(it.pos), it.offset, it.pos, opp, osr)
    ensures r != End ==> NoneBetween(s, it.offset / 512 + 1, start)
    ensures r.Found? ==> AtPlace(s, Place(0, it.offset / 512), r.i)
    ensures r == Restart ==> it.offset / 512 < old(it.offset) / 512
    ensures r == End ==> NoneBetween(s, 0, start)
  {
    hide Inv, Up, Pow64, NoneBetween, Retreated;
    var n: nat, level: nat := s.root.value.node, s.root.value.depth;
    AtRoot(s, it.offset / 512);
    Unmoved(it.offset, it.pos, opp, osr);
    while level > 0
      invariant level <= s.root.value.depth && NoneBetween(s, it.offset / 512 + 1, start)
      invariant Retreated(old(it.offset), old(it.pos), it.offset, it.pos, opp, osr)
      invariant AtPlace(s, Place(level, Up(it.offset / 512, level)), n)
    {
      ghost var off, pos := it.offset, it.pos;
      level := level - 1;
      var skip := SkipAbsentPrev(it, s, opp, osr, n, level, start);
      if skip == End { return End; }
      RetreatedMore(old(it.offset), old(it.pos), off, pos, it.offset, it.pos, opp, osr);
      if skip == Restart { return Restart; }
      n := s.children[n][skip.i];
    }
    UpSelf(it.offset / 512);
    return Found(n);
  }

  /** __genradix_iter_peek_prev: the node and byte of the last present object at or before the cursor, which moves there. */
  method IterPeekPrev(it: Iter, s: State, opp: nat, osr: nat) returns (r: Option<(nat, nat)>)
    requires Inv(s) && it.offset <= SIZE_MAX && 0 < osr <= 512 && opp > 0
    modifies it
    ensures old(it.offset) == SIZE_MAX ==> r == None
    ensures old(it.offset) < SIZE_MAX && r == None ==> NoneBetween(s, 0, old(it.offset) / 512)
    ensures r.Some? ==> AtPlace(s, Place(0, it.offset / 512), r.value.0) && r.value.1 == it.offset % 512
    ensures r.Some? ==> Retreated(old(it.offset), old(it.pos), it.offset, it.pos, opp, osr)
    ensures r.Some? ==> NoneBetween(s, it.offset / 512 + 1, old(it.offset) / 512)
  {
    hide Inv, Up, Pow64, NoneBetween, Retreated, AtPlace;
    if it.offset == SIZE_MAX { return None; }
    ghost var start := it.offset / 512;
    NothingBetween(s, start);
    if s.root.None? {
      NoRootBack(s, start);
      return None;
    }
    Unmoved(it.offset, it.pos, opp, osr);
    var pages := Pow64(s.root.value.depth);
    if it.offset / 512 >= pages {
      EndOfTree(s, it.offset, it.pos, start, opp, osr);
      it.offset := 512 * pages;
      it.pos := it.offset / 512 * opp;
      it.offset := it.offset - osr;
      it.pos := it.pos - 1;
    }
    while true
      invariant it.offset / 512 < Pow64(s.root.value.depth) && NoneBetween(s, it.offset / 512 + 1, start)
      invariant Retreated(old(it.offset), old(it.pos), it.offset, it.pos, opp, osr)
      decreases it.offset / 512
    {
      ghost var off, pos := it.offset, it.pos;
      var w := WalkDownPrev(it, s, opp, osr, start);
      if w == End { return None; }
      RetreatedMore(old(it.offset), old(it.pos), off, pos, it.offset, it.pos, opp, osr);
      if w.Found? { return Some((w.i, it.offset % 512)); }
    }
  }

  lemma NothingBetween(s: State, a: nat)
    ensures NoneBetween(s, a + 1, a)
  {}

  lemma NoRootBack(s: State, a: nat)
    requires Inv(s) && s.root.None?
    ensures NoneBetween(s, 0, a)
  {
    NoRoot(s, 0);
  }

  /** A cursor past the tree starts from the last object of the last page the tree can hold. */
  lemma EndOfTree(s: State, off: nat, pos: nat, start: nat, opp: nat, osr: nat)
    requires Inv(s) && s.root.Some? && start == off / 512 >= Pow64(s.root.value.depth) && 0 < osr <= 512 && opp > 0
    ensures var pages := Pow64(s.root.value.depth);
      && 512 * pages >= osr && 512 * pages / 512 == pages && pages * opp >= 1
      && (512 * pages - osr) / 512 < pages && NoneBetween(s, (512 * pages - osr) / 512 + 1, start)
      && Retreated(off, pos, 512 * pages - osr, pages * opp - 1, opp, osr)
  {
    hide Tree, Spares, Pow64;
    var pages := Pow64(s.root.value.depth);
    LastObject(pages, osr);
    MulLess(1, pages, opp);
    forall q: nat | pages <= q <= start ensures !Present(s, q) { NotInside(s, q); }
  }
}
