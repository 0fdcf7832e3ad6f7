/**
 * The heap of pending timers of linux/timer.c, against the map from each armed timer to its expiry. Expiries are
 * jiffies modulo 2^64 and compared by time_after, which is an order only among times less than half the range apart:
 * Window is that condition, and what depends on it is stated under it.
 */
module TimerHeap {
  import opened Options

  const RANGE: nat := 0x1_0000_0000_0000_0000
  const HALF: nat := 0x8000_0000_0000_0000

  type Time = x: nat | x < RANGE

  datatype Pending = Pending(timer: nat, expires: Time)

  /** (long)(b - a) < 0 */
  predicate TimeAfter(a: Time, b: Time) { (b - a) % RANGE >= HALF }

  /** (long)(a - b) >= 0 */
  predicate TimeAfterEq(a: Time, b: Time) { (a - b) % RANGE < HALF }

  /** How long after base t comes. */
  function Off(base: Time, t: Time): nat { (t - base) % RANGE }

  ghost predicate Near(base: Time, t: Time) { Off(base, t) < HALF }

  lemma AfterIs(base: Time, a: Time, b: Time)
    requires Near(base, a) && Near(base, b)
    ensures TimeAfter(a, b) <==> Off(base, a) > Off(base, b)
    ensures TimeAfterEq(a, b) <==> Off(base, a) >= Off(base, b)
  {
    var x, y := Off(base, a), Off(base, b);
    assert x == a - base || x == a - base + RANGE;
    assert y == b - base || y == b - base + RANGE;
  }

  ghost predicate AllNear(base: Time, ts: set<Time>) { forall t | t in ts :: Near(base, t) }

  ghost predicate AfterNone(ts: set<Time>, m: Time) { m in ts && forall t | t in ts :: !TimeAfter(m, t) }

  lemma {:induction false} Least(base: Time, ts: set<Time>) returns (m: Time)
    requires ts != {}
    ensures m in ts && forall t | t in ts :: Off(base, m) <= Off(base, t)
    decreases |ts|
  {
    m :| m in ts;
    if ts != {m} {
      var n := Least(base, ts - {m});
      if Off(base, n) < Off(base, m) { m := n; }
    } else {
      assert forall t | t in ts :: t == m;
    }
  }

  /** Some time is after none of the others exactly when they lie in one half-range window, wherever it starts. */
  lemma EarliestIff(ts: set<Time>)
    requires ts != {}
    ensures (exists m: Time :: AfterNone(ts, m)) <==> exists base: Time :: AllNear(base, ts)
  {
    if base: Time :| AllNear(base, ts) {
      var m := Least(base, ts);
      forall t | t in ts ensures !TimeAfter(m, t) { AfterIs(base, m, t); }
      assert AfterNone(ts, m);
    }
    if m: Time :| AfterNone(ts, m) { assert AllNear(m, ts); }
  }

  /** Three times, each after the one before and the first after the last. */
  const Ring: seq<Time> := [0, HALF / 2 + HALF / 4, HALF + HALF / 2]

  lemma Circle()
    ensures TimeAfter(Ring[1], Ring[0]) && TimeAfter(Ring[2], Ring[1]) && TimeAfter(Ring[0], Ring[2])
  {}

  // Heaps as sequences.

  function Parent(i: nat): nat
    requires i > 0
  {
    (i - 1) / 2
  }

  lemma ChildIs(c: nat, p: nat)
    requires c > 0
    ensures Parent(c) < c && (Parent(c) == p <==> c == 2 * p + 1 || c == 2 * p + 2)
  {}

  function Key(base: Time, h: seq<Pending>, i: nat): nat
    requires i < |h|
  {
    Off(base, h[i].expires)
  }

  ghost predicate Windowed(base: Time, h: seq<Pending>) { forall i | 0 <= i < |h| :: Near(base, h[i].expires) }

  /** No entry is due before its parent. */
  ghost predicate Ordered(base: Time, h: seq<Pending>) {
    forall c: nat | 0 < c < |h| :: Key(base, h, Parent(c)) <= Key(base, h, c)
  }

  /** Ordered but for the entry at i, which may be due before its parent or after its children. */
  ghost predicate OrderedBut(base: Time, h: seq<Pending>, i: nat) {
    && (forall c: nat | 0 < c < |h| && c != i && Parent(c) != i :: Key(base, h, Parent(c)) <= Key(base, h, c))
    && (forall c: nat | 0 < c < |h| && Parent(c) == i && 0 < i :: Key(base, h, Parent(i)) <= Key(base, h, c))
  }

  function Swap(h: seq<Pending>, i: nat, j: nat): seq<Pending>
    requires i < |h| && j < |h|
  {
    h[i := h[j]][j := h[i]]
  }

  /** No entry is after its parent, as the code compares them. */
  ghost predicate Sound(h: seq<Pending>) {
    forall c: nat | 0 < c < |h| :: !TimeAfter(h[Parent(c)].expires, h[c].expires)
  }

  /** In any window that holds the expiries the order is the same: the one that time_after sees. */
  lemma SoundIff(base: Time, h: seq<Pending>)
    requires Windowed(base, h)
    ensures Ordered(base, h) <==> Sound(h)
  {
    hide TimeAfter, TimeAfterEq, Off, Near;
    forall c: nat | 0 < c < |h|
      ensures Key(base, h, Parent(c)) <= Key(base, h, c) <==> !TimeAfter(h[Parent(c)].expires, h[c].expires)
    {
      AfterIs(base, h[Parent(c)].expires, h[c].expires);
    }
  }

  /** As time goes on the window slides: an ordered heap is ordered from any later base that still holds it. */
  lemma Rebase(base: Time, later: Time, h: seq<Pending>)
    requires Windowed(base, h) && Windowed(later, h) && Ordered(base, h)
    ensures Ordered(later, h)
  {
    hide Windowed, Ordered, Sound;
    SoundIff(base, h);
    SoundIff(later, h);
  }

  /** An entry that is not after its parent moves up. */
  lemma Raise(base: Time, h: seq<Pending>, i: nat)
    requires 0 < i < |h| && OrderedBut(base, h, i) && Key(base, h, i) <= Key(base, h, Parent(i))
    ensures OrderedBut(base, Swap(h, i, Parent(i)), Parent(i))
  {
    hide Off;
    var p := Parent(i);
    var g := Swap(h, i, p);
    forall c: nat | 0 < c < |g| && c != p && Parent(c) != p ensures Key(base, g, Parent(c)) <= Key(base, g, c) {
      if Parent(c) == i { assert Key(base, h, Parent(i)) <= Key(base, h, c); }
    }
    if p > 0 {
      assert Key(base, h, Parent(p)) <= Key(base, h, p);
      forall c: nat | 0 < c < |g| && Parent(c) == p ensures Key(base, g, Parent(p)) <= Key(base, g, c) {
        if c != i { assert Key(base, h, p) <= Key(base, h, c); }
      }
    }
  }

  /** The child of j that is due first. */
  ghost predicate FirstChild(base: Time, h: seq<Pending>, j: nat, r: nat) {
    && r < |h| && 0 < r && Parent(r) == j
    && forall c: nat | 0 < c < |h| && Parent(c) == j :: Key(base, h, r) <= Key(base, h, c)
  }

  ghost predicate UpperOk(base: Time, h: seq<Pending>, j: nat) {
    j < |h| && (0 < j ==> Key(base, h, Parent(j)) <= Key(base, h, j))
  }

  /** An entry that is not before its first child moves down. */
  lemma Lower(base: Time, h: seq<Pending>, j: nat, r: nat)
    requires OrderedBut(base, h, j) && UpperOk(base, h, j) && FirstChild(base, h, j, r)
    requires Key(base, h, r) <= Key(base, h, j)
    ensures OrderedBut(base, Swap(h, r, j), r) && UpperOk(base, Swap(h, r, j), r)
  {
    hide Off;
    var g := Swap(h, r, j);
    forall c: nat | 0 < c < |g| && c != r && Parent(c) != r ensures Key(base, g, Parent(c)) <= Key(base, g, c) {
      if c == j { assert Key(base, h, Parent(j)) <= Key(base, h, r); }
    }
  }

  /** An entry that is before its first child, or has none, is in its place. */
  lemma Placed(base: Time, h: seq<Pending>, j: nat)
    requires OrderedBut(base, h, j) && UpperOk(base, h, j)
    requires forall c: nat | 0 < c < |h| && Parent(c) == j :: Key(base, h, j) <= Key(base, h, c)
    ensures Ordered(base, h)
  {
    hide Off;
  }

  lemma {:induction false} RootFirst(base: Time, h: seq<Pending>, i: nat)
    requires Ordered(base, h) && i < |h|
    ensures Key(base, h, 0) <= Key(base, h, i)
    decreases i
  {
    if i > 0 { RootFirst(base, h, Parent(i)); }
  }

  /** Changing the entry at i disturbs the order only there. */
  lemma Changed(base: Time, h: seq<Pending>, i: nat, x: Pending)
    requires Ordered(base, h) && i < |h|
    ensures OrderedBut(base, h[i := x], i)
  {
    hide Off;
    var g := h[i := x];
    if i > 0 {
      forall c: nat | 0 < c < |g| && Parent(c) == i ensures Key(base, g, Parent(i)) <= Key(base, g, c) {
        assert Key(base, h, Parent(i)) <= Key(base, h, i) <= Key(base, h, c);
      }
    }
  }

  lemma Appended(base: Time, h: seq<Pending>, x: Pending)
    requires Ordered(base, h)
    ensures OrderedBut(base, h + [x], |h|)
  {
    hide Off;
    var g := h + [x];
    forall c: nat | 0 < c < |g| && c != |h| && Parent(c) != |h| ensures Key(base, g, Parent(c)) <= Key(base, g, c) {
      assert Key(base, h, Parent(c)) <= Key(base, h, c);
    }
  }

  lemma Cut(base: Time, h: seq<Pending>, n: nat)
    requires n <= |h|
    ensures Ordered(base, h) ==> Ordered(base, h[..n])
  {
    hide Off;
    if Ordered(base, h) {
      forall c: nat | 0 < c < n ensures Key(base, h[..n], Parent(c)) <= Key(base, h[..n], c) {
        assert Key(base, h, Parent(c)) <= Key(base, h, c);
      }
    }
  }

  // The heap as a map.

  ghost predicate At(h: seq<Pending>, t: nat) { exists i | 0 <= i < |h| :: h[i].timer == t }

  /** Each armed timer has one entry, with its expiry. */
  ghost predicate Holds(h: seq<Pending>, m: map<nat, Time>) {
    && (forall i, j | 0 <= i < j < |h| :: h[i].timer != h[j].timer)
    && (forall i | 0 <= i < |h| :: h[i].timer in m && m[h[i].timer] == h[i].expires)
    && (forall t | t in m :: At(h, t))
  }

  lemma SwapHolds(h: seq<Pending>, i: nat, j: nat, m: map<nat, Time>)
    requires Holds(h, m) && i < |h| && j < |h|
    ensures Holds(Swap(h, i, j), m)
  {
    var g := Swap(h, i, j);
    forall t | t in m ensures At(g, t) {
      assert At(h, t);
      var k :| 0 <= k < |h| && h[k].timer == t;
      assert g[if k == i then j else if k == j then i else k].timer == t;
    }
  }

  lemma SwapWindowed(base: Time, h: seq<Pending>, i: nat, j: nat)
    requires Windowed(base, h) && i < |h| && j < |h|
    ensures Windowed(base, Swap(h, i, j))
  {
    hide Near;
  }

  lemma ChangeHolds(h: seq<Pending>, i: nat, e: Time, m: map<nat, Time>)
    requires Holds(h, m) && i < |h|
    ensures Holds(h[i := h[i].(expires := e)], m[h[i].timer := e])
  {
    var g := h[i := h[i].(expires := e)];
    forall t | t in m ensures At(g, t) {
      assert At(h, t);
      var k :| 0 <= k < |h| && h[k].timer == t;
      assert g[k].timer == t;
    }
    assert g[i].timer == h[i].timer;
  }

  lemma AppendHolds(h: seq<Pending>, x: Pending, m: map<nat, Time>)
    requires Holds(h, m) && x.timer !in m
    ensures Holds(h + [x], m[x.timer := x.expires])
  {
    var g := h + [x];
    assert g[|h|] == x;
    forall t | t in m ensures At(g, t) {
      assert At(h, t);
      var k :| 0 <= k < |h| && h[k].timer == t;
      assert g[k].timer == t;
    }
  }

  lemma CutHolds(h: seq<Pending>, m: map<nat, Time>)
    requires Holds(h, m) && |h| > 0
    ensures Holds(h[..|h| - 1], m - {h[|h| - 1].timer})
  {
    var n := |h| - 1;
    var m' := m - {h[n].timer};
    forall t | t in m' ensures At(h[..n], t) {
      assert At(h, t);
      var k :| 0 <= k < |h| && h[k].timer == t;
      assert h[..n][k].timer == t;
    }
  }

  /** No armed timer is due before t. */
  ghost predicate First(base: Time, m: map<nat, Time>, t: nat) {
    t in m && forall u | u in m :: Off(base, m[t]) <= Off(base, m[u])
  }

  class Timers {
    var data: array<Pending>
    var used: nat
    var flags: set<nat>             // timer->pending
    ghost var armed: map<nat, Time>

    ghost predicate Sized()
      reads this, data
    {
      used <= data.Length && data.Length > 0
    }

    ghost function Heap(): seq<Pending>
      requires Sized()
      reads this, data
    {
      data[..used]
    }

    ghost predicate Valid()
      reads this, data
    {
      Sized() && Holds(Heap(), armed) && flags == armed.Keys
    }

    constructor ()
      ensures Valid() && armed == map[] && fresh(data)
    {
      used, flags, armed := 0, {}, map[];
      data := new Pending[64](_ => Pending(0, 0));
    }

    /** heap_sift_down, which moves an entry up. */
    method SiftUp(i: nat, ghost base: Time) returns (j: nat)
      requires Sized() && i < used && Holds(Heap(), armed)
      modifies data
      ensures j < used && Holds(Heap(), armed)
      ensures old(Windowed(base, Heap()) && OrderedBut(base, Heap(), i)) ==>
        Windowed(base, Heap()) && OrderedBut(base, Heap(), j) && UpperOk(base, Heap(), j)
    {
      hide Near, Off, TimeAfter, OrderedBut, Holds, Windowed;
      j := i;
      ghost var win := Windowed(base, Heap()) && OrderedBut(base, Heap(), i);
      while j > 0
        invariant j < used && Holds(Heap(), armed)
        invariant win ==> Windowed(base, Heap()) && OrderedBut(base, Heap(), j)
        decreases j
      {
        var p := Parent(j);
        ghost var h := Heap();
        if win { Compare(base, h, j, p); }
        if TimeAfter(data[j].expires, data[p].expires) { break; }
        if win { Raise(base, h, j); SwapWindowed(base, h, j, p); }
        SwapHolds(h, j, p, armed);
        data[j], data[p] := data[p], data[j];
        assert Heap() == Swap(h, j, p);
        j := p;
      }
    }

    /** heap_sift: of two children the one due first, the left one if they tie. */
    method SiftDown(i: nat, ghost base: Time)
      requires Sized() && i < used && Holds(Heap(), armed)
      modifies data
      ensures Holds(Heap(), armed)
      ensures old(Windowed(base, Heap()) && OrderedBut(base, Heap(), i) && UpperOk(base, Heap(), i)) ==>
        Windowed(base, Heap()) && Ordered(base, Heap())
    {
      hide Near, Off, TimeAfter, OrderedBut, UpperOk, FirstChild, Holds, Windowed, Ordered;
      var j := i;
      ghost var win := Windowed(base, Heap()) && OrderedBut(base, Heap(), i) && UpperOk(base, Heap(), i);
      while j * 2 + 1 < used
        invariant j < used && Holds(Heap(), armed)
        invariant win ==> Windowed(base, Heap()) && OrderedBut(base, Heap(), j) && UpperOk(base, Heap(), j)
        decreases used - j
      {
        ghost var h := Heap();
        var r := j * 2 + 1;
        if r + 1 < used && TimeAfter(data[r].expires, data[r + 1].expires) { r := r + 1; }
        if win { ChooseChild(base, h, j, r); Compare(base, h, r, j); }
        if TimeAfter(data[r].expires, data[j].expires) {
          if win { Stop(base, h, j, r); }
          return;
        }
        if win { Lower(base, h, j, r); SwapWindowed(base, h, r, j); }
        SwapHolds(h, r, j, armed);
        data[r], data[j] := data[j], data[r];
        assert Heap() == Swap(h, r, j);
        j := r;
      }
      if win { Bottom(base, Heap(), j); }
    }

    /** timer_idx: -1 if the timer is not armed. */
    method TimerIdx(timer: nat) returns (i: int)
      requires Sized() && Holds(Heap(), armed)
      ensures -1 <= i < used
      ensures i >= 0 <==> timer in armed
      ensures i >= 0 ==> data[i].timer == timer
    {
      i := 0;
      while i < used
        invariant 0 <= i <= used
        invariant forall k | 0 <= k < i :: data[k].timer != timer
      {
        if data[i].timer == timer {
          assert Heap()[i].timer == timer;
          return;
        }
        i := i + 1;
      }
      assert !At(Heap(), timer);
      i := -1;
    }

    /** heap_del */
    method Remove(i: nat, ghost base: Time)
      requires Sized() && i < used && Holds(Heap(), armed)
      modifies this`used, this`armed, data
      ensures Sized() && Holds(Heap(), armed) && armed == old(armed) - {old(data[i].timer)}
      ensures old(Windowed(base, Heap()) && Ordered(base, Heap())) ==> Windowed(base, Heap()) && Ordered(base, Heap())
    {
      hide Near, Off, OrderedBut, UpperOk, Holds, Windowed, Ordered;
      ghost var h := Heap();
      ghost var n := used - 1;
      SwapHolds(h, i, n, armed);
      CutHolds(Swap(h, i, n), armed);
      RemovedAt(base, h, i);
      armed := armed - {data[i].timer};
      used := used - 1;
      if i < used {
        data[i], data[used] := data[used], data[i];
        assert Heap() == Swap(h, i, n)[..n];
        var j := SiftUp(i, base);
        SiftDown(j, base);
      } else {
        assert Heap() == Swap(h, i, n)[..n] == h[..n];
      }
    }

    method DelTimer(timer: nat, ghost base: Time) returns (was: bool)
      requires Valid()
      modifies this`used, this`armed, this`flags, data
      ensures Valid() && armed == old(armed) - {timer} && was == (timer in old(armed))
      ensures old(Windowed(base, Heap()) && Ordered(base, Heap())) ==> Windowed(base, Heap()) && Ordered(base, Heap())
    {
      hide Near, Off, Holds, Windowed, Ordered;
      var i := TimerIdx(timer);
      if i >= 0 { Remove(i, base); }
      flags := flags - {timer};
      was := i >= 0;
    }

    /** mod_timer: armed for expires, whether or not it was armed before. */
    method ModTimer(timer: nat, expires: Time, ghost base: Time) returns (was: bool)
      requires Valid()
      modifies this`data, this`used, this`armed, this`flags, data
      ensures Valid() && armed == old(armed)[timer := expires] && was == (timer in old(armed))
      ensures data == old(data) || fresh(data)
      ensures old(Windowed(base, Heap()) && Ordered(base, Heap())) && Near(base, expires) ==>
        Windowed(base, Heap()) && Ordered(base, Heap())
    {
      hide Near, Off, Holds, Windowed, Ordered, OrderedBut, UpperOk;
      flags := flags + {timer};
      var i := TimerIdx(timer);
      was := i >= 0;
      ghost var h := Heap();
      if i >= 0 {
        Retimed(base, h, i, expires, armed);
        armed := armed[timer := expires];
        if data[i].expires == expires {
          assert h[i := h[i].(expires := expires)] == h;
          return;
        }
        data[i] := data[i].(expires := expires);
        assert Heap() == h[i := h[i].(expires := expires)];
        var j := SiftUp(i, base);
        SiftDown(j, base);
      } else {
        if used == data.Length { Grow(); }
        Added(base, h, Pending(timer, expires), armed);
        armed := armed[timer := expires];
        data[used] := Pending(timer, expires);
        used := used + 1;
        assert Heap() == h + [Pending(timer, expires)];
        var j := SiftUp(used - 1, base);
        SiftDown(j, base);
      }
    }

    /** realloc to twice the size. */
    method Grow()
      requires Sized() && used == data.Length
      modifies this`data
      ensures Sized() && used < data.Length && fresh(data) && Heap() == old(Heap())
    {
      var d := data;
      var more := new Pending[2 * d.Length](_ => Pending(0, 0));
      for i := 0 to d.Length
        invariant data == d && more[..i] == d[..i]
      {
        more[i] := d[i];
      }
      data := more;
    }

    /**
     * One look of the timer thread at the heap. It takes a timer only if that is due, and the one due longest; and it
     * goes to sleep only if none is due. The flag it insists on is always set.
     */
    method TakeDue(now: Time, ghost base: Time) returns (due: Option<nat>)
      requires Valid()
      modifies this`used, this`armed, this`flags, data
      ensures Valid()
      ensures due.Some? <==> old(used > 0 && TimeAfterEq(now, data[0].expires))
      ensures due.None? ==> armed == old(armed) && data == old(data) && Heap() == old(Heap())
      ensures due.Some? ==> due.value in old(armed) && armed == old(armed) - {due.value}
      ensures old(Windowed(base, Heap()) && Ordered(base, Heap())) ==> Windowed(base, Heap()) && Ordered(base, Heap())
      ensures old(Windowed(base, Heap()) && Ordered(base, Heap())) && Near(base, now) ==>
        if due.None? then forall t | t in armed :: Off(base, now) < Off(base, armed[t])
        else Off(base, old(armed)[due.value]) <= Off(base, now) && First(base, old(armed), due.value)
    {
      hide Near, Off, TimeAfterEq, Holds, Windowed, Ordered;
      ghost var h := Heap();
      ghost var win := Windowed(base, h) && Ordered(base, h);
      if used == 0 {
        NoneArmed(h, armed);
        return None;
      }
      Earliest(base, h, armed, now);
      if TimeAfterEq(now, data[0].expires) {
        due := Some(data[0].timer);
        assert data[0].timer in armed;
        assert data[0].timer in flags;
        Remove(0, base);
        flags := flags - {due.value};
      } else {
        due := None;
      }
    }
  }

  lemma Compare(base: Time, h: seq<Pending>, i: nat, j: nat)
    requires Windowed(base, h) && i < |h| && j < |h|
    ensures TimeAfter(h[i].expires, h[j].expires) <==> Key(base, h, i) > Key(base, h, j)
  {
    hide TimeAfter, TimeAfterEq, Off;
    AfterIs(base, h[i].expires, h[j].expires);
  }

  lemma ChooseChild(base: Time, h: seq<Pending>, j: nat, r: nat)
    requires Windowed(base, h) && j * 2 + 1 < |h|
    requires r == if j * 2 + 2 < |h| && TimeAfter(h[j * 2 + 1].expires, h[j * 2 + 2].expires) then j * 2 + 2 else j * 2 + 1
    ensures FirstChild(base, h, j, r)
  {
    hide TimeAfter, Off;
    if j * 2 + 2 < |h| { Compare(base, h, j * 2 + 1, j * 2 + 2); }
    forall c: nat | 0 < c < |h| && Parent(c) == j ensures Key(base, h, r) <= Key(base, h, c) { ChildIs(c, j); }
  }

  lemma Stop(base: Time, h: seq<Pending>, j: nat, r: nat)
    requires OrderedBut(base, h, j) && UpperOk(base, h, j) && FirstChild(base, h, j, r)
    requires Key(base, h, r) > Key(base, h, j)
    ensures Ordered(base, h)
  {
    hide Off, OrderedBut;
    Placed(base, h, j);
  }

  lemma Bottom(base: Time, h: seq<Pending>, j: nat)
    requires OrderedBut(base, h, j) && UpperOk(base, h, j) && j * 2 + 1 >= |h|
    ensures Ordered(base, h)
  {
    hide Off, OrderedBut;
    forall c: nat | 0 < c < |h| ensures Parent(c) != j { ChildIs(c, j); }
    Placed(base, h, j);
  }

  lemma RemovedAt(base: Time, h: seq<Pending>, i: nat)
    requires i < |h|
    ensures var n := |h| - 1; var g := Swap(h, i, n)[..n]; Windowed(base, h) && Ordered(base, h) ==>
      Windowed(base, g) && if i < n then OrderedBut(base, g, i) else Ordered(base, g)
  {
    hide Off, Near, Ordered, OrderedBut;
    var n := |h| - 1;
    var g := Swap(h, i, n)[..n];
    if Windowed(base, h) && Ordered(base, h) {
      Cut(base, h, n);
      if i < n {
        Changed(base, h[..n], i, h[n]);
        assert g == h[..n][i := h[n]];
      } else {
        assert g == h[..n];
      }
    }
  }

  lemma Retimed(base: Time, h: seq<Pending>, i: nat, e: Time, m: map<nat, Time>)
    requires Holds(h, m) && i < |h|
    ensures Holds(h[i := h[i].(expires := e)], m[h[i].timer := e])
    ensures Windowed(base, h) && Ordered(base, h) && Near(base, e) ==>
      Windowed(base, h[i := h[i].(expires := e)]) && OrderedBut(base, h[i := h[i].(expires := e)], i)
  {
    hide Off, Near, Ordered, OrderedBut, Holds;
    ChangeHolds(h, i, e, m);
    if Ordered(base, h) { Changed(base, h, i, h[i].(expires := e)); }
  }

  lemma Added(base: Time, h: seq<Pending>, x: Pending, m: map<nat, Time>)
    requires Holds(h, m) && x.timer !in m
    ensures Holds(h + [x], m[x.timer := x.expires])
    ensures Windowed(base, h) && Ordered(base, h) && Near(base, x.expires) ==>
      Windowed(base, h + [x]) && OrderedBut(base, h + [x], |h|)
  {
    hide Off, Near, Ordered, OrderedBut, Holds;
    AppendHolds(h, x, m);
    if Ordered(base, h) { Appended(base, h, x); }
  }

  lemma NoneArmed(h: seq<Pending>, m: map<nat, Time>)
    requires Holds(h, m) && |h| == 0
    ensures m == map[]
  {
    assert forall t | t in m :: At(h, t);
  }

  lemma Earliest(base: Time, h: seq<Pending>, m: map<nat, Time>, now: Time)
    requires Holds(h, m) && |h| > 0
    ensures h[0].timer in m && m[h[0].timer] == h[0].expires
    ensures Windowed(base, h) && Ordered(base, h) ==> forall t | t in m :: Off(base, h[0].expires) <= Off(base, m[t])
    ensures Windowed(base, h) && Near(base, now) ==>
      (TimeAfterEq(now, h[0].expires) <==> Off(base, h[0].expires) <= Off(base, now))
  {
    hide Off, TimeAfterEq, Ordered;
    if Windowed(base, h) {
      if Near(base, now) { AfterIs(base, now, h[0].expires); }
      if Ordered(base, h) {
        forall t | t in m ensures Off(base, h[0].expires) <= Off(base, m[t]) {
          assert At(h, t);
          var k: nat :| k < |h| && h[k].timer == t;
          RootFirst(base, h, k);
        }
      }
    }
  }

  ghost function Times(h: seq<Pending>): set<Time> { set i | 0 <= i < |h| :: h[i].expires }

  /**
   * The root is after no armed timer exactly when the expiries lie in one window, in any heap that is ordered when
   * they do. If they do not, there is a time at which the thread sleeps over a timer that is due.
   */
  lemma RootIff(h: seq<Pending>)
    requires |h| > 0 && forall base: Time | Windowed(base, h) :: Sound(h)
    ensures AfterNone(Times(h), h[0].expires) <==> exists base: Time :: Windowed(base, h)
    ensures !(exists base: Time :: Windowed(base, h)) ==> exists i: nat :: Overslept(h, i)
  {
    hide TimeAfter, Near, Off, Ordered, Sound;
    assert h[0].expires in Times(h);
    if base: Time :| Windowed(base, h) {
      SoundIff(base, h);
      forall t | t in Times(h) ensures !TimeAfter(h[0].expires, t) {
        var i: nat :| i < |h| && h[i].expires == t;
        RootFirst(base, h, i);
        Compare(base, h, 0, i);
      }
    } else {
      assert !Windowed(h[0].expires, h);
      var i: nat :| i < |h| && !Near(h[0].expires, h[i].expires);
      OversleptIs(h, i);
      assert Overslept(h, i) && h[i].expires in Times(h);
    }
  }

  /** Entry i is due at its own expiry, and the root is not. */
  ghost predicate Overslept(h: seq<Pending>, i: nat) {
    0 < i < |h| && TimeAfterEq(h[i].expires, h[i].expires) && !TimeAfterEq(h[i].expires, h[0].expires)
  }

  lemma OversleptIs(h: seq<Pending>, i: nat)
    requires i < |h| && |h| > 0
    ensures Overslept(h, i) <==> TimeAfter(h[0].expires, h[i].expires)
    ensures Overslept(h, i) <==> !Near(h[0].expires, h[i].expires)
  {}

  /** Three calls of mod_timer, and a time at which the timer thread goes to sleep with a timer due. */
  method OutOfWindow() returns (timers: Timers, late: nat, due: Option<nat>)
    ensures fresh(timers) && timers.Valid() && timers.armed == map[0 := Ring[0], 1 := Ring[1], 2 := Ring[2]]
    ensures late < 3 && due.None? && timers.used > 0
    ensures TimeAfter(timers.data[0].expires, Ring[late]) && TimeAfterEq(Ring[late], timers.armed[late])
  {
    hide Holds, Ordered, Windowed, TimeAfter, TimeAfterEq, Near, Off;
    timers := new Timers();
    for i := 0 to 3
      invariant fresh(timers) && fresh(timers.data) && timers.Valid()
      invariant timers.armed == map k | 0 <= k < i :: Ring[k]
    {
      var _ := timers.ModTimer(i, Ring[i], 0);
    }
    NotEmpty(timers.Heap(), timers.armed);
    RingRoot(timers.Heap(), timers.armed);
    late := (timers.data[0].timer + 2) % 3;
    due := timers.TakeDue(Ring[late], 0);
  }

  lemma NotEmpty(h: seq<Pending>, m: map<nat, Time>)
    requires Holds(h, m) && 0 in m
    ensures |h| > 0
  {
    assert At(h, 0);
  }

  /** Whichever timer of the ring is the root, it is after the one before it. */
  lemma RingRoot(h: seq<Pending>, m: map<nat, Time>)
    requires Holds(h, m) && |h| > 0 && m == map k | 0 <= k < 3 :: Ring[k]
    ensures h[0].timer < 3 && h[0].expires == Ring[h[0].timer]
    ensures var late := (h[0].timer + 2) % 3;
      && TimeAfter(h[0].expires, Ring[late]) && !TimeAfterEq(Ring[late], h[0].expires) && TimeAfterEq(Ring[late], Ring[late])
  {
    Circle();
  }

  // A long run: the window may be a different one for every call.

  datatype Call = Mod(timer: nat, expires: Time) | Del(timer: nat) | Take(now: Time)

  /** The armed timers after a call, and perhaps one that the call fired. */
  ghost function After(m: map<nat, Time>, call: Call): map<nat, Time> {
    match call
    case Mod(t, e) => m[t := e]
    case Del(t) => m - {t}
    case Take(_) => m
  }

  /** Some window holds every expiry of m and the one being set. */
  ghost predicate Fits(m: map<nat, Time>, call: Call) {
    exists base: Time :: HoldsAll(base, m) && (call.Mod? ==> Near(base, call.expires))
  }

  ghost predicate HoldsAll(base: Time, m: map<nat, Time>) { forall t | t in m :: Near(base, m[t]) }

  ghost predicate Slides(m: map<nat, Time>, calls: seq<Call>)
    decreases |calls|
  {
    |calls| > 0 ==> Fits(m, calls[0]) && Slides(After(m, calls[0]), calls[1..])
  }

  ghost predicate Within(a: map<nat, Time>, m: map<nat, Time>) { forall t | t in a :: t in m && a[t] == m[t] }

  lemma WithinWindow(base: Time, h: seq<Pending>, a: map<nat, Time>, m: map<nat, Time>)
    requires Holds(h, a) && Within(a, m) && HoldsAll(base, m)
    ensures Windowed(base, h)
  {
    hide Near;
    assert forall i | 0 <= i < |h| :: h[i].timer in a;
  }

  /** However far the window slides, as long as one holds the expiries at each call the heap stays sound. */
  method Serve(timers: Timers, calls: seq<Call>)
    requires timers.Valid() && Sound(timers.Heap()) && Slides(timers.armed, calls)
    modifies timers, timers.data
    ensures timers.Valid() && Sound(timers.Heap())
  {
    hide Holds, Sound, Ordered, Windowed, Near, Off, HoldsAll, Within, TimeAfterEq;
    ghost var m := timers.armed;
    Reflexive(m);
    for i := 0 to |calls|
      invariant timers.Valid() && Sound(timers.Heap()) && Slides(m, calls[i..]) && Within(timers.armed, m)
      invariant timers.data == old(timers.data) || fresh(timers.data)
    {
      assert calls[i..][0] == calls[i] && calls[i..][1..] == calls[i + 1..];
      ghost var base: Time :| HoldsAll(base, m) && (calls[i].Mod? ==> Near(base, calls[i].expires));
      WithinWindow(base, timers.Heap(), timers.armed, m);
      SoundIff(base, timers.Heap());
      WithinAfter(timers.armed, m, calls[i]);
      match calls[i] {
        case Mod(t, e) => var _ := timers.ModTimer(t, e, base);
        case Del(t) => var _ := timers.DelTimer(t, base);
        case Take(now) => var _ := timers.TakeDue(now, base);
      }
      SoundIff(base, timers.Heap());
      m := After(m, calls[i]);
    }
  }

  lemma Reflexive(m: map<nat, Time>)
    ensures Within(m, m)
  {}

  lemma WithinAfter(a: map<nat, Time>, m: map<nat, Time>, call: Call)
    requires Within(a, m)
    ensures call.Mod? ==> Within(a[call.timer := call.expires], After(m, call))
    ensures call.Del? ==> Within(a - {call.timer}, After(m, call))
    ensures call.Take? ==> Within(a, m) && forall t: nat :: Within(a - {t}, m)
  {}
}
