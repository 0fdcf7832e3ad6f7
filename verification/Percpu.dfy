/** The dynamic per-CPU allocator of linux/percpu.c: bump allocation, a list of free runs, and zeroing in every chunk. */
module Percpu {
  import opened Options

  /** One more than SIZE_MAX. */
  const SIZE_RANGE: nat := 0x1_0000_0000_0000_0000

  /** What bch_percpu_thread_init reserves for the arena, at most. */
  const ARENA_MAX: nat := 0x1000_0000

  datatype Run = Run(off: nat, size: nat)

  predicate Inside(r: Run, x: nat) { r.off <= x < r.off + r.size }

  /** No byte is in both. */
  predicate Apart(a: Run, b: Run) { a.size == 0 || b.size == 0 || a.off + a.size <= b.off || b.off + b.size <= a.off }

  /** A nonempty, grain-aligned run below used. */
  predicate RunOk(r: Run, used: nat) { r.size > 0 && r.off % 8 == 0 && r.size % 8 == 0 && r.off + r.size <= used }

  /** An entry of the free list; one that is empty names no byte and matches no request. */
  predicate FreeOk(r: Run, used: nat) { r.size == 0 || RunOk(r, used) }

  /** The live blocks, by offset. */
  type Live = map<nat, nat>

  ghost predicate Held(live: Live, x: nat) { exists o: nat :: o in live && Inside(Run(o, live[o]), x) }

  ghost predicate Idle(runs: seq<Run>, x: nat) { exists i: nat :: i < |runs| && Inside(runs[i], x) }

  /** Live blocks and free runs cut [0, used) into disjoint pieces. */
  ghost predicate Partition(runs: seq<Run>, live: Live, used: nat) {
    && (forall i: nat | i < |runs| :: FreeOk(runs[i], used))
    && (forall o: nat | o in live :: RunOk(Run(o, live[o]), used))
    && (forall i: nat, j: nat | i < j < |runs| :: Apart(runs[i], runs[j]))
    && (forall o: nat, p: nat | o in live && p in live && o != p :: Apart(Run(o, live[o]), Run(p, live[p])))
    && (forall i: nat, o: nat | i < |runs| && o in live :: Apart(runs[i], Run(o, live[o])))
    && (forall x: nat | x < used :: Held(live, x) || Idle(runs, x))
  }

  // ------------------------------------------------------------------ the free list

  function Without(runs: seq<Run>, k: nat): seq<Run>
    requires k < |runs|
  {
    runs[..k] + runs[k + 1..]
  }

  /** What taking size bytes from the front of run k leaves. */
  function Taken(runs: seq<Run>, k: nat, size: nat): (r: seq<Run>)
    requires k < |runs| && size <= runs[k].size
  {
    if size < runs[k].size then runs[k := Run(runs[k].off + size, runs[k].size - size)] else Without(runs, k)
  }

  /** Every run that is left was there, or is what is left of run k. */
  lemma TakenRuns(runs: seq<Run>, k: nat, size: nat, i: nat)
    requires k < |runs| && size <= runs[k].size && i < |Taken(runs, k, size)|
    ensures var t := Taken(runs, k, size);
      if size < runs[k].size && i == k then t[i] == Run(runs[k].off + size, runs[k].size - size)
      else t[i] == runs[if i < k || size < runs[k].size then i else i + 1]
  {}

  /** A free run's front becomes a live block. */
  lemma TakePartition(runs: seq<Run>, live: Live, used: nat, k: nat, size: nat)
    requires Partition(runs, live, used) && k < |runs| && 0 < size <= runs[k].size && size % 8 == 0
    ensures runs[k].off !in live
    ensures Partition(Taken(runs, k, size), live[runs[k].off := size], used)
  {
    var r, t, m := runs[k], Taken(runs, k, size), live[runs[k].off := size];
    forall o: nat | o in live ensures o != r.off { assert Apart(r, Run(o, live[o])) && RunOk(Run(o, live[o]), used); }
    forall i: nat | i < |t| ensures FreeOk(t[i], used) { TakenRuns(runs, k, size, i); }
    forall o: nat | o in m ensures RunOk(Run(o, m[o]), used) {}
    forall i: nat, j: nat | i < j < |t| ensures Apart(t[i], t[j]) { TakenApart(runs, live, used, k, size, i, j); }
    forall o: nat, p: nat | o in m && p in m && o != p ensures Apart(Run(o, m[o]), Run(p, m[p])) { TakeLive(runs, live, used, k, size, o, p); }
    forall i: nat, o: nat | i < |t| && o in m ensures Apart(t[i], Run(o, m[o])) { TakeCross(runs, live, used, k, size, i, o); }
    forall x: nat | x < used ensures Held(m, x) || Idle(t, x) { TakeCover(runs, live, used, k, size, x); }
  }

  lemma TakenApart(runs: seq<Run>, live: Live, used: nat, k: nat, size: nat, i: nat, j: nat)
    requires Partition(runs, live, used) && k < |runs| && 0 < size <= runs[k].size && i < j < |Taken(runs, k, size)|
    ensures Apart(Taken(runs, k, size)[i], Taken(runs, k, size)[j])
  {
    TakenRuns(runs, k, size, i);
    TakenRuns(runs, k, size, j);
    var a := if i < k || size < runs[k].size then i else i + 1;
    var b := if j < k || size < runs[k].size then j else j + 1;
    assert Apart(runs[a], runs[b]);
  }

  lemma TakeLive(runs: seq<Run>, live: Live, used: nat, k: nat, size: nat, o: nat, p: nat)
    requires Partition(runs, live, used) && k < |runs| && 0 < size <= runs[k].size
    requires var m := live[runs[k].off := size]; o in m && p in m && o != p
    ensures var m := live[runs[k].off := size]; Apart(Run(o, m[o]), Run(p, m[p]))
  {
    if o == runs[k].off {
      assert Apart(runs[k], Run(p, live[p]));
    } else if p == runs[k].off {
      assert Apart(runs[k], Run(o, live[o]));
    }
  }

  lemma TakeCross(runs: seq<Run>, live: Live, used: nat, k: nat, size: nat, i: nat, o: nat)
    requires Partition(runs, live, used) && k < |runs| && 0 < size <= runs[k].size
    requires i < |Taken(runs, k, size)| && o in live[runs[k].off := size]
    ensures Apart(Taken(runs, k, size)[i], Run(o, live[runs[k].off := size][o]))
  {
    TakenRuns(runs, k, size, i);
    var a := if i < k || size < runs[k].size then i else i + 1;
    if o == runs[k].off {
      if a < k { assert Apart(runs[a], runs[k]); } else if k < a { assert Apart(runs[k], runs[a]); }
    } else {
      assert Apart(runs[a], Run(o, live[o]));
    }
  }

  lemma TakeCover(runs: seq<Run>, live: Live, used: nat, k: nat, size: nat, x: nat)
    requires Partition(runs, live, used) && k < |runs| && 0 < size <= runs[k].size && x < used && runs[k].off !in live
    ensures Held(live[runs[k].off := size], x) || Idle(Taken(runs, k, size), x)
  {
    var m, t := live[runs[k].off := size], Taken(runs, k, size);
    if Held(live, x) {
      var o: nat :| o in live && Inside(Run(o, live[o]), x);
      assert o in m && Inside(Run(o, m[o]), x);
    } else {
      var i: nat :| i < |runs| && Inside(runs[i], x);
      if i == k && x < runs[k].off + size {
        assert runs[k].off in m && Inside(Run(runs[k].off, m[runs[k].off]), x);
      } else {
        var b := if size < runs[k].size || i < k then i else i - 1;
        assert Inside(t[b], x);
      }
    }
  }

  /** A block appended at the high water mark. */
  lemma BumpPartition(runs: seq<Run>, live: Live, used: nat, size: nat)
    requires Partition(runs, live, used) && size > 0 && size % 8 == 0 && used % 8 == 0
    ensures used !in live && Partition(runs, live[used := size], used + size)
  {
    var m := live[used := size];
    assert used in live ==> RunOk(Run(used, live[used]), used);
    forall x: nat | x < used + size ensures Held(m, x) || Idle(runs, x) {
      if x >= used {
        assert used in m && Inside(Run(used, m[used]), x);
      } else if Held(live, x) {
        var o: nat :| o in live && Inside(Run(o, live[o]), x);
        assert o in m && Inside(Run(o, m[o]), x);
      }
    }
  }

  /** A live block goes to the end of the free list. */
  lemma FreePartition(runs: seq<Run>, live: Live, used: nat, off: nat)
    requires Partition(runs, live, used) && off in live
    ensures Partition(runs + [Run(off, live[off])], live - {off}, used)
  {
    var t, m := runs + [Run(off, live[off])], live - {off};
    forall x: nat | x < used ensures Held(m, x) || Idle(t, x) {
      if Idle(runs, x) {
        var i: nat :| i < |runs| && Inside(runs[i], x);
        assert Inside(t[i], x);
      } else {
        var o: nat :| o in live && Inside(Run(o, live[o]), x);
        if o == off { assert Inside(t[|runs|], x); } else { assert o in m && Inside(Run(o, m[o]), x); }
      }
    }
  }

  // ---------------------------------------------------------------------- the arena

  predicate NoneFits(runs: seq<Run>, size: nat) { forall i: nat | i < |runs| :: runs[i].size < size }

  /** Where a request is served: the first run that fits, else the high water mark. */
  function Place(runs: seq<Run>, used: nat, size: nat): nat {
    if |runs| == 0 then used else if runs[0].size >= size then runs[0].off else Place(runs[1..], used, size)
  }

  lemma {:induction false} PlaceIs(runs: seq<Run>, used: nat, size: nat, k: nat)
    requires k <= |runs| && forall i: nat | i < k :: runs[i].size < size
    ensures k == |runs| ==> Place(runs, used, size) == used
    ensures k < |runs| && runs[k].size >= size ==> Place(runs, used, size) == runs[k].off
    decreases |runs|
  {
    if k > 0 { PlaceIs(runs[1..], used, size, k - 1); }
  }

  type Chunk = seq<nat>

  function RoundUp(size: nat): (r: nat)
    ensures r % 8 == 0 && size <= r < size + 8 && (size > 0 ==> r > 0)
  {
    (size + 7) / 8 * 8
  }

  function Zeroed(c: Chunk, off: nat, size: nat): (r: Chunk)
    requires off + size <= |c|
    ensures |r| == |c| && (forall x: nat | x < |c| :: r[x] == if off <= x < off + size then 0 else c[x])
  {
    c[..off] + seq(size, i => 0) + c[off + size..]
  }

  predicate ZeroedAt(was: Chunk, now: Chunk, done: bool, r: Run) {
    |was| == |now| && forall x: nat | x < |was| :: now[x] == if done && Inside(r, x) then 0 else was[x]
  }

  /** The first cpu chunks are zero on r; everything else is as it was. */
  ghost predicate ZeroedTo(was: seq<Chunk>, now: seq<Chunk>, cpu: nat, r: Run, total: nat) {
    && |was| == |now| && (forall c: nat | c < |was| :: |was[c]| == |now[c]| == total)
    && (forall c: nat | c < |was| :: ZeroedAt(was[c], now[c], c < cpu, r))
  }

  lemma ZeroMore(was: seq<Chunk>, now: seq<Chunk>, cpu: nat, r: Run, total: nat)
    requires ZeroedTo(was, now, cpu, r, total) && cpu < |now| && r.off + r.size <= total
    ensures ZeroedTo(was, now[cpu := Zeroed(now[cpu], r.off, r.size)], cpu + 1, r, total)
  {
    var z := Zeroed(now[cpu], r.off, r.size);
    var next := now[cpu := z];
    assert ZeroedAt(was[cpu], now[cpu], false, r);
    forall c: nat | c < |was| ensures ZeroedAt(was[c], next[c], c < cpu + 1, r) {
      assert ZeroedAt(was[c], now[c], c < cpu, r);
    }
  }

  lemma ZeroNone(was: seq<Chunk>, r: Run, total: nat)
    requires forall c: nat | c < |was| :: |was[c]| == total
    ensures ZeroedTo(was, was, 0, r, total)
  {}

  lemma ZeroAll(was: seq<Chunk>, now: seq<Chunk>, r: Run, total: nat)
    requires ZeroedTo(was, now, |now|, r, total)
    ensures |was| == |now| && (forall c: nat | c < |now| :: |now[c]| == total == |was[c]|)
    ensures forall c: nat, x: nat | c < |now| && x < total :: now[c][x] == if Inside(r, x) then 0 else was[c][x]
  {}

  lemma ZeroLength(was: seq<Chunk>, now: seq<Chunk>, cpu: nat, r: Run, total: nat)
    requires ZeroedTo(was, now, cpu, r, total)
    ensures |was| == |now| && forall c: nat | c < |now| :: |now[c]| == total
  {}

  /** size_at_grain says where live blocks start and how long they are, and is zero elsewhere. */
  ghost predicate Sizes(sizes: seq<nat>, live: Live, used: nat) {
    && 8 * |sizes| >= used
    && forall g: nat | g < |sizes| :: sizes[g] == if 8 * g in live then live[8 * g] / 8 else 0
  }

  lemma SizesSet(sizes: seq<nat>, live: Live, used: nat, off: nat, size: nat)
    requires Sizes(sizes, live, used) && off % 8 == 0 && off / 8 < |sizes|
    ensures Sizes(sizes[off / 8 := size / 8], live[off := size], used)
    ensures Sizes(sizes[off / 8 := 0], live - {off}, used)
  {
    assert forall g: nat | 8 * g == off :: g == off / 8;
  }

  /** The new entries of a grown table are zero. */
  function Padded(sizes: seq<nat>, nr: nat): (r: seq<nat>)
    requires nr >= |sizes|
    ensures |r| == nr && forall g: nat | g < nr :: r[g] == if g < |sizes| then sizes[g] else 0
  {
    sizes + seq(nr - |sizes|, i => 0)
  }

  lemma SizesGrown(sizes: seq<nat>, live: Live, used: nat, nr: nat)
    requires Sizes(sizes, live, used) && nr >= |sizes| && (forall o: nat | o in live :: RunOk(Run(o, live[o]), used))
    ensures Sizes(Padded(sizes, nr), live, used)
  {
    hide Padded;
    forall g: nat | g < nr ensures Padded(sizes, nr)[g] == if 8 * g in live then live[8 * g] / 8 else 0 {
      assert 8 * g in live ==> RunOk(Run(8 * g, live[8 * g]), used);
    }
  }

  /** The test for fresh space adds in size_t: it is right exactly when the sum does not wrap. */
  lemma RoomTest(used: nat, size: nat, total: nat)
    requires used <= total < SIZE_RANGE && size < SIZE_RANGE
    ensures ((used + size) % SIZE_RANGE > total <==> used + size > total) <==> used + size < SIZE_RANGE
  {
    if used + size >= SIZE_RANGE { assert (used + size) % SIZE_RANGE == used + size - SIZE_RANGE < used; }
  }

  class Arena {
    var freeRuns: seq<Run>
    var used: nat
    var total: nat
    var sizes: seq<nat>
    var chunks: seq<Chunk>
    ghost var live: Live

    ghost predicate Valid()
      reads this
    {
      && Partition(freeRuns, live, used) && Sizes(sizes, live, used)
      && used % 8 == 0 && used <= total <= ARENA_MAX && forall c: nat | c < |chunks| :: |chunks[c]| == total
    }

    constructor (total: nat)
      requires total <= ARENA_MAX
      ensures Valid() && live == map[] && freeRuns == [] && used == 0 && chunks == [] && this.total == total
    {
      freeRuns, used, sizes, chunks, live := [], 0, [], [], map[];
      this.total := total;
    }

    /** size_at_grain_resize; memory says whether the reallocation succeeds. */
    method SizesResize(nr: nat, memory: bool) returns (ok: bool)
      requires Valid()
      modifies this`sizes
      ensures Valid() && (ok <==> nr <= old(|sizes|) || memory) && (ok ==> |sizes| >= nr)
      ensures nr <= old(|sizes|) ==> sizes == old(sizes)
    {
      if nr <= |sizes| { return true; }
      if !memory { return false; }
      SizesGrown(sizes, live, used, if nr > 2 * |sizes| then nr else 2 * |sizes|);
      sizes := Padded(sizes, if nr > 2 * |sizes| then nr else 2 * |sizes|);
      return true;
    }

    /**
     * bch_percpu_dynamic_alloc: the first free run that fits, else fresh space. A request for which used plus size
     * wraps passes the test for fresh space and lowers used; one for nothing takes no space.
     */
    method DynamicAlloc(size: nat, memory: bool) returns (off: Option<nat>)
      requires Valid() && size < SIZE_RANGE && size % 8 == 0
      modifies this`freeRuns, this`used, this`sizes, this`live
      ensures off.Some? ==> off.value == old(Place(freeRuns, used, size))
      ensures off.None? ==> Valid() && live == old(live) && used == old(used) && freeRuns == old(freeRuns)
      ensures off.None? ==> 0 < size && NoneFits(freeRuns, size) && (total < used + size < SIZE_RANGE || !memory)
      ensures off.Some? && 0 < size < SIZE_RANGE - old(used) && old(NoneFits(freeRuns, size)) ==>
        freeRuns == old(freeRuns) && used == old(used) + size
      ensures off.Some? && 0 < size < SIZE_RANGE - old(used) ==>
        && off.value !in old(live) && live == old(live)[off.value := size] && Partition(freeRuns, live, used)
        && used % 8 == 0 && used <= total && off.value % 8 == 0 && off.value / 8 < |sizes| && Sizes(sizes, old(live), used)
      ensures size >= SIZE_RANGE - old(used) ==>
        && off == Some(old(used)) && used == old(used) + size - SIZE_RANGE
        && live == old(live) && freeRuns == old(freeRuns) && sizes == old(sizes)
      ensures size == 0 ==> off.Some? && used == old(used) && live == old(live) && sizes == old(sizes) && Valid()
    {
      hide Partition, Sizes, RunOk, FreeOk, Place, Taken, RoundUp;
      ghost var fair := 0 < size < SIZE_RANGE - used;
      var k: nat := 0;
      while k < |freeRuns|
        invariant k <= |freeRuns| && forall i: nat | i < k :: freeRuns[i].size < size
      {
        if freeRuns[k].size >= size {
          var at := freeRuns[k].off;
          PlaceIs(freeRuns, used, size, k);
          RunSmall(freeRuns, live, used, k);
          if size == 0 { TakeNothing(freeRuns, live, used, k); } else {
            TakePartition(freeRuns, live, used, k, size);
            RunAligned(freeRuns, live, used, k, sizes);
          }
          freeRuns := Taken(freeRuns, k, size);
          live := if size == 0 then live else live[at := size];
          return Some(at);
        }
        k := k + 1;
      }
      PlaceIs(freeRuns, used, size, k);
      var end := (used + size) % SIZE_RANGE;
      assert end == if fair || size == 0 then used + size else used + size - SIZE_RANGE;
      if end > total { return None; }
      SizesCover(sizes, live, used);
      var ok := SizesResize(end / 8, memory);
      if !ok { return None; }
      if fair {
        BumpPartition(freeRuns, live, used, size);
        BumpSizes(sizes, live, used, size);
        live := live[used := size];
      }
      off := Some(used);
      used := end;
    }

    /** The memset in every chunk; overrun: it writes past a chunk. */
    method ZeroChunks(at: nat, size: nat) returns (overrun: bool)
      requires forall c: nat | c < |chunks| :: |chunks[c]| == total
      modifies this`chunks
      ensures overrun <==> |old(chunks)| > 0 && at + size > total
      ensures !overrun ==> |chunks| == |old(chunks)| && (forall c: nat | c < |chunks| :: |chunks[c]| == total)
      ensures !overrun ==> forall c: nat, x: nat | c < |chunks| && x < total ::
        chunks[c][x] == if Inside(Run(at, size), x) then 0 else old(chunks[c][x])
    {
      hide ZeroedTo, Zeroed;
      if |chunks| > 0 && at + size > total { return true; }
      ZeroNone(chunks, Run(at, size), total);
      var cpu: nat := 0;
      while cpu < |chunks|
        invariant cpu <= |chunks| == |old(chunks)| && ZeroedTo(old(chunks), chunks, cpu, Run(at, size), total)
      {
        ZeroLength(old(chunks), chunks, cpu, Run(at, size), total);
        ZeroMore(old(chunks), chunks, cpu, Run(at, size), total);
        chunks := chunks[cpu := Zeroed(chunks[cpu], at, size)];
        cpu := cpu + 1;
      }
      ZeroAll(old(chunks), chunks, Run(at, size), total);
      return false;
    }

    /** The arena's room and the rounded size add up without wrapping. */
    predicate Fair(bytes: nat)
      reads this
    {
      used + RoundUp(bytes) < SIZE_RANGE
    }

    /**
     * __alloc_percpu_gfp: a new block, zero in every chunk, and nothing else in any chunk changes. That is so of fair
     * requests. Of the others those up to SIZE_MAX - 7 get the end of the arena and lower its high water mark; those
     * above round to nothing, and get an offset that is not theirs. overrun: a write past the size table or a chunk.
     */
    method Alloc(bytes: nat, memory: bool) returns (off: Option<nat>, overrun: bool)
      requires Valid() && 0 < bytes < SIZE_RANGE
      modifies this
      ensures old(Fair(bytes)) ==> Valid() && !overrun && total == old(total) && |chunks| == |old(chunks)|
      ensures off.None? ==> live == old(live) && chunks == old(chunks) && used == old(used) && freeRuns == old(freeRuns)
      ensures off.None? ==> old(Fair(bytes)) && NoneFits(freeRuns, RoundUp(bytes)) && (used + RoundUp(bytes) > total || !memory)
      ensures old(Fair(bytes)) && off.Some? ==> off.value !in old(live) && live == old(live)[off.value := RoundUp(bytes)]
      ensures old(Fair(bytes)) && off.Some? ==> off.value == old(Place(freeRuns, used, RoundUp(bytes)))
      ensures old(Fair(bytes)) && off.Some? && old(NoneFits(freeRuns, RoundUp(bytes))) ==>
        freeRuns == old(freeRuns) && used == old(used) + RoundUp(bytes)
      ensures old(Fair(bytes)) && off.Some? ==> forall c: nat, x: nat | c < |chunks| && x < total ::
        chunks[c][x] == if Inside(Run(off.value, RoundUp(bytes)), x) then 0 else old(chunks[c][x])
      ensures !old(Fair(bytes)) && RoundUp(bytes) < SIZE_RANGE ==>
        && !Valid() && live == old(live)
        && off == Some(old(used)) && used == old(used) + RoundUp(bytes) - SIZE_RANGE
      ensures RoundUp(bytes) >= SIZE_RANGE ==>
        && live == old(live) && used == old(used)
        && off == Some(old(Place(freeRuns, used, 0)))
      ensures overrun <==> off.Some? && (off.value / 8 >= |sizes| || (|old(chunks)| > 0 && off.value + RoundUp(bytes) % SIZE_RANGE > total))
    {
      hide Partition, Sizes, RunOk, FreeOk, RoundUp, Place;
      ghost var fair := Fair(bytes);
      var size := RoundUp(bytes) % SIZE_RANGE;
      RoundedSize(bytes);
      WrapBreaks(freeRuns, live, used, size);
      off := DynamicAlloc(size, memory);
      overrun := false;
      if off.None? { return; }
      if off.value / 8 >= |sizes| { return off, true; }
      if fair {
        BlockFits(freeRuns, live, used, off.value);
        SizesSet(sizes, old(live), used, off.value, size);
      }
      sizes := sizes[off.value / 8 := size / 8];
      overrun := ZeroChunks(off.value, size);
    }

    /**
     * free_percpu of a pointer off bytes into the arena. Its BUG_ONs catch only offsets outside the size table. A
     * pointer into a grain where no block starts, a second free among them, puts an empty run on the list, which
     * does no harm; one past the start of a block's first grain puts a shifted run there, over bytes still live.
     */
    method Free(off: nat) returns (bug: bool)
      requires Valid()
      modifies this`freeRuns, this`sizes, this`live
      ensures bug <==> off >= total || off / 8 >= |old(sizes)|
      ensures bug ==> Valid() && live == old(live) && freeRuns == old(freeRuns)
      ensures !bug ==> live == old(live) - {off} && freeRuns == old(freeRuns) + [Run(off, old(sizes)[off / 8] * 8)]
      ensures !bug ==> (Valid() <==> off in old(live) || off / 8 * 8 !in old(live))
      ensures off in old(live) ==> !bug && freeRuns == old(freeRuns) + [Run(off, old(live)[off])]
    {
      hide Partition, Sizes, RunOk, FreeOk;
      if off in live { BlockAligned(freeRuns, live, used, sizes, off); BlockFits(freeRuns, live, used, off); }
      if off >= total || off / 8 >= |sizes| { return true; }
      var grain := off / 8;
      var size := sizes[grain] * 8;
      if off in live {
        SizesSet(sizes, live, used, off, 0);
        FreePartition(freeRuns, live, used, off);
      } else if off / 8 * 8 !in live {
        EmptyRun(freeRuns, live, used, sizes, off);
      } else {
        ShiftedRun(freeRuns, live, used, sizes, off);
      }
      sizes := sizes[grain := 0];
      freeRuns := freeRuns + [Run(off, size)];
      live := live - {off};
      bug := false;
    }

    /** The chunk of a new thread is mapped zeroed: a thread that joins late finds every live block zero. */
    method AddChunk()
      requires Valid()
      modifies this`chunks
      ensures Valid() && |chunks| == |old(chunks)| + 1 && chunks[..|old(chunks)|] == old(chunks)
      ensures forall o: nat, x: nat | o in live && Inside(Run(o, live[o]), x) :: x < total && chunks[|chunks| - 1][x] == 0
    {
      hide Partition, Sizes;
      forall o: nat | o in live ensures o + live[o] <= used { BlockFits(freeRuns, live, used, o); }
      chunks := chunks + [seq(total, i => 0)];
    }
  }

  /** No block starts in the grain: no byte changes hands. */
  lemma EmptyRun(runs: seq<Run>, live: Live, used: nat, sizes: seq<nat>, off: nat)
    requires Partition(runs, live, used) && Sizes(sizes, live, used)
    requires off !in live && off / 8 * 8 !in live && off / 8 < |sizes|
    ensures sizes[off / 8] == 0 && Partition(runs + [Run(off, 0)], live - {off}, used)
    ensures Sizes(sizes[off / 8 := 0], live - {off}, used)
  {
    var more := runs + [Run(off, 0)];
    assert live - {off} == live && sizes[off / 8 := 0] == sizes;
    forall x: nat | x < used ensures Held(live, x) || Idle(more, x) {
      if Idle(runs, x) {
        var i: nat :| i < |runs| && Inside(runs[i], x);
        assert Inside(more[i], x);
      }
    }
  }

  /** A block starts in the grain, but not at off: its byte at off is now free as well. */
  lemma ShiftedRun(runs: seq<Run>, live: Live, used: nat, sizes: seq<nat>, off: nat)
    requires Partition(runs, live, used) && Sizes(sizes, live, used)
    requires off !in live && off / 8 * 8 in live && off / 8 < |sizes|
    ensures Held(live - {off}, off) && Idle(runs + [Run(off, sizes[off / 8] * 8)], off)
    ensures !Partition(runs + [Run(off, sizes[off / 8] * 8)], live - {off}, used)
  {
    var o := off / 8 * 8;
    var more := runs + [Run(off, sizes[off / 8] * 8)];
    assert RunOk(Run(o, live[o]), used);
    assert o in live - {off} && Inside(Run(o, live[o]), off) && Inside(more[|runs|], off);
    assert !Apart(more[|runs|], Run(o, live[o]));
  }

  /** A request for nothing is met by any run; only an empty one leaves the list. */
  lemma TakeNothing(runs: seq<Run>, live: Live, used: nat, k: nat)
    requires Partition(runs, live, used) && k < |runs|
    ensures Partition(Taken(runs, k, 0), live, used)
  {
    var t := Taken(runs, k, 0);
    if runs[k].size > 0 { assert t == runs; } else {
      assert forall i: nat | i < |t| :: t[i] == runs[if i < k then i else i + 1];
      forall x: nat | x < used ensures Held(live, x) || Idle(t, x) {
        if Idle(runs, x) {
          var i: nat :| i < |runs| && Inside(runs[i], x);
          assert Inside(t[if i < k then i else i - 1], x);
        }
      }
    }
  }

  lemma RunSmall(runs: seq<Run>, live: Live, used: nat, k: nat)
    requires Partition(runs, live, used) && k < |runs|
    ensures runs[k].size <= used
  {
    assert FreeOk(runs[k], used);
  }

  lemma SizesCover(sizes: seq<nat>, live: Live, used: nat)
    requires Sizes(sizes, live, used)
    ensures 8 * |sizes| >= used
  {}

  lemma RoundedSize(bytes: nat)
    requires 0 < bytes < SIZE_RANGE
    ensures var size := RoundUp(bytes) % SIZE_RANGE;
      size % 8 == 0 && size == if RoundUp(bytes) < SIZE_RANGE then RoundUp(bytes) else 0
  {}

  /** With a lower high water mark the topmost piece sticks out. */
  lemma WrapBreaks(runs: seq<Run>, live: Live, used: nat, size: nat)
    requires Partition(runs, live, used)
    ensures SIZE_RANGE <= used + size && size < SIZE_RANGE ==> !Partition(runs, live, used + size - SIZE_RANGE)
  {
    if SIZE_RANGE <= used + size && size < SIZE_RANGE {
      var x, low := used - 1, used + size - SIZE_RANGE;
      if Held(live, x) {
        var o: nat :| o in live && Inside(Run(o, live[o]), x);
        assert !RunOk(Run(o, live[o]), low);
      } else {
        assert Idle(runs, x);
        var i: nat :| i < |runs| && Inside(runs[i], x);
        assert !FreeOk(runs[i], low);
      }
    }
  }

  lemma RunAligned(runs: seq<Run>, live: Live, used: nat, k: nat, sizes: seq<nat>)
    requires Partition(runs, live, used) && Sizes(sizes, live, used) && k < |runs| && runs[k].size > 0
    ensures runs[k].off % 8 == 0 && runs[k].off / 8 < |sizes|
  {
    assert FreeOk(runs[k], used);
  }

  lemma BlockFits(runs: seq<Run>, live: Live, used: nat, off: nat)
    requires Partition(runs, live, used) && off in live
    ensures live[off] > 0 && off + live[off] <= used
  {
    assert RunOk(Run(off, live[off]), used);
  }

  lemma BlockAligned(runs: seq<Run>, live: Live, used: nat, sizes: seq<nat>, off: nat)
    requires Partition(runs, live, used) && Sizes(sizes, live, used) && off in live
    ensures off % 8 == 0 && off / 8 < |sizes| && sizes[off / 8] * 8 == live[off]
  {
    assert RunOk(Run(off, live[off]), used);
    assert 8 * (off / 8) == off;
  }

  lemma BumpSizes(sizes: seq<nat>, live: Live, used: nat, size: nat)
    requires Sizes(sizes, live, used) && |sizes| >= (used + size) / 8 && used % 8 == 0 && size % 8 == 0 && size > 0
    ensures Sizes(sizes, live, used + size) && used / 8 < |sizes|
  {}

  /** Eight bytes are allocated at offset 0, in an arena of sixteen. */
  method OneBlock() returns (arena: Arena)
    ensures fresh(arena) && arena.Valid() && arena.live == map[0 := 8] && arena.freeRuns == [] && arena.total == 16
    ensures arena.used == 8 && |arena.sizes| > 0
  {
    assert RoundUp(8) == 8;
    arena := new Arena(16);
    var off, _ := arena.Alloc(8, true);
  }

  /** A second free of the block goes unnoticed, and puts an empty run on the list. */
  method FreeTwice() returns (arena: Arena, first: bool, second: bool)
    ensures fresh(arena) && !first && !second && arena.Valid() && arena.freeRuns == [Run(0, 8), Run(0, 0)]
  {
    hide Partition;
    arena := OneBlock();
    first := arena.Free(0);
    assert 8 * 0 !in arena.live && arena.sizes[0] == 0;
    second := arena.Free(0);
  }

  /** So does the free of a pointer into the block, and then live bytes are on the free list. */
  method FreeShifted() returns (arena: Arena, bug: bool)
    ensures fresh(arena) && !bug && arena.live == map[0 := 8] && arena.freeRuns == [Run(3, 8)] && !arena.Valid()
  {
    hide Partition;
    arena := OneBlock();
    assert 8 * 0 in arena.live;
    bug := arena.Free(3);
  }

  /** 2^64 - 8 bytes, asked for with 8 in use, are granted, and the arena counts as empty. */
  method AllocWraps() returns (arena: Arena, off: Option<nat>)
    ensures fresh(arena) && off == Some(8) && arena.used == 0 && arena.live == map[0 := 8] && !arena.Valid()
  {
    hide Partition, Sizes;
    assert RoundUp(SIZE_RANGE - 8) == SIZE_RANGE - 8;
    var overrun: bool;
    arena := OneBlock();
    off, overrun := arena.Alloc(SIZE_RANGE - 8, true);
  }

  /** 2^64 - 1 bytes are granted too, as none. */
  method AllocNothing() returns (arena: Arena, off: Option<nat>)
    ensures fresh(arena) && off == Some(8) && arena.used == 8 && arena.live == map[0 := 8]
  {
    hide Partition, Sizes;
    assert RoundUp(SIZE_RANGE - 1) == SIZE_RANGE;
    var overrun: bool;
    arena := OneBlock();
    off, overrun := arena.Alloc(SIZE_RANGE - 1, true);
  }
}
