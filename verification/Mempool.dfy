/**
 * linux/mempool.c as a state machine: a step is one section under pool->lock, one call into the underlying
 * allocator, or the unlocked read of curr_nr in mempool_free.
 */
module Mempool {
  type Elem = nat

  /** A mempool_free call: before its unlocked read, or on its way to the lock because it read curr_nr < min_nr. */
  datatype Free = Called(elem: Elem) | Locking(elem: Elem)

  /** A mempool_resize call between two sections under the lock. */
  datatype Resize =
    | Shrinking(size: nat)   // freeing a removed element
    | Growing(size: nat)     // before the new array is allocated
    | Swapping(size: nat)    // holding a new array of that size
    | Filling                // before a new element is allocated
    | Adding(elem: Elem)     // holding a new element

  datatype State = State(
    pool: seq<Elem>,         // elements[0..curr_nr)
    room: nat,               // length of the elements array
    minNr: nat,
    held: set<Elem>,         // allocated, and not yet committed to a system free
    leaving: set<Elem>,      // committed to a system free
    frees: map<nat, Free>,
    resizes: map<nat, Resize>)

  /** The pool as mempool_init_node leaves it. */
  ghost predicate Initial(s: State) {
    |s.pool| == s.minNr == s.room && NoDup(s.pool) && s.held == s.leaving == {} && s.frees == map[] && s.resizes == map[]
  }

  predicate NoDup(list: seq<Elem>) { forall i, j | 0 <= i < j < |list| :: list[i] != list[j] }

  /** The allocator returns memory nobody has. */
  predicate Unused(s: State, e: Elem) {
    e !in s.pool && e !in s.held && e !in s.leaving && forall r | r in s.resizes && s.resizes[r].Adding? :: s.resizes[r].elem != e
  }

  predicate BeingFreed(s: State, e: Elem) { exists t :: t in s.frees && s.frees[t].elem == e }

  datatype Step =
    | SystemAlloc(elem: Elem)
    | PoolAlloc
    | FreeCall(thread: nat, elem: Elem)
    | FreeRead(thread: nat)
    | FreeLock(thread: nat)
    | SystemFree(elem: Elem)
    | ResizeCall(id: nat, size: nat)
    | ResizeStep(id: nat, elem: Elem)
    | ResizeNoMemory(id: nat)

  /** Overrun: add_element's BUG_ON, or a write past the elements array. */
  datatype Outcome = Ok(state: State) | Blocked | Overrun

  function Add(s: State, e: Elem): Outcome {
    if |s.pool| >= s.minNr || |s.pool| >= s.room then Overrun else Ok(s.(pool := s.pool + [e]))
  }

  function Last(s: State): Elem
    requires |s.pool| > 0
  {
    s.pool[|s.pool| - 1]
  }

  function Pop(s: State): State
    requires |s.pool| > 0
  {
    s.(pool := s.pool[..|s.pool| - 1])
  }

  function Commit(s: State, t: nat, e: Elem): State {
    s.(held := s.held - {e}, leaving := s.leaving + {e}, frees := s.frees - {t})
  }

  function Done(s: State, id: nat): State { s.(resizes := s.resizes - {id}) }

  /** One turn of the shrink loop, up to where the lock is dropped. */
  function Shrink(s: State, id: nat, size: nat): State {
    if size < |s.pool| then Pop(s).(leaving := s.leaving + {Last(s)}, resizes := s.resizes[id := Shrinking(size)])
    else Done(s, id).(minNr := size)
  }

  /** The fill loop's test, at the end of a section. */
  function Fill(s: State, id: nat): State {
    if |s.pool| < s.minNr then s.(resizes := s.resizes[id := Filling]) else Done(s, id)
  }

  function ResizePass(s: State, id: nat, e: Elem): Outcome
    requires id in s.resizes
  {
    match s.resizes[id]
    case Shrinking(size) => Ok(Shrink(s, id, size))
    case Growing(size) => Ok(s.(resizes := s.resizes[id := Swapping(size)]))
    case Swapping(size) =>
      if size <= s.minNr then Ok(Done(s, id))
      else if size < |s.pool| then Overrun
      else Ok(Fill(s.(room := size, minNr := size), id))
    case Filling => if !Unused(s, e) then Blocked else Ok(s.(resizes := s.resizes[id := Adding(e)]))
    case Adding(x) =>
      if |s.pool| >= s.minNr then Ok(Done(s, id).(leaving := s.leaving + {x}))
      else
        var o := Add(s, x);
        if o.Ok? then Ok(Fill(o.state, id)) else o
  }

  ghost function Apply(s: State, step: Step): Outcome {
    match step
    case SystemAlloc(e) => if Unused(s, e) then Ok(s.(held := s.held + {e})) else Blocked
    case PoolAlloc => if |s.pool| == 0 then Blocked else Ok(Pop(s).(held := s.held + {Last(s)}))
    case FreeCall(t, e) =>
      if t in s.frees || e !in s.held || BeingFreed(s, e) then Blocked else Ok(s.(frees := s.frees[t := Called(e)]))
    case FreeRead(t) =>
      if t !in s.frees || !s.frees[t].Called? then Blocked
      else if |s.pool| < s.minNr then Ok(s.(frees := s.frees[t := Locking(s.frees[t].elem)]))
      else Ok(Commit(s, t, s.frees[t].elem))
    case FreeLock(t) =>
      if t !in s.frees || !s.frees[t].Locking? then Blocked
      else
        var e := s.frees[t].elem;
        if |s.pool| < s.minNr then Add(s.(held := s.held - {e}, frees := s.frees - {t}), e) else Ok(Commit(s, t, e))
    case SystemFree(e) => if e in s.leaving then Ok(s.(leaving := s.leaving - {e})) else Blocked
    case ResizeCall(id, size) =>
      if id in s.resizes || size == 0 then Blocked
      else if size <= s.minNr then Ok(Shrink(s, id, size))
      else Ok(s.(resizes := s.resizes[id := Growing(size)]))
    case ResizeStep(id, e) => if id !in s.resizes then Blocked else ResizePass(s, id, e)
    case ResizeNoMemory(id) =>
      if id in s.resizes && (s.resizes[id].Growing? || s.resizes[id].Filling?) then Ok(s.(resizes := s.resizes - {id})) else Blocked
  }

  ghost function Run(s: State, steps: seq<Step>): Outcome
    decreases |steps|
  {
    if |steps| == 0 then Ok(s)
    else
      var o := Run(s, steps[..|steps| - 1]);
      if o.Ok? then Apply(o.state, steps[|steps| - 1]) else o
  }

  // ------------------------------------------------------------------ ownership

  /** No element is in two hands. */
  ghost predicate Owned(s: State) {
    && NoDup(s.pool) && s.held !! s.leaving
    && (forall i | 0 <= i < |s.pool| :: s.pool[i] !in s.held && s.pool[i] !in s.leaving)
    && (forall t | t in s.frees :: s.frees[t].elem in s.held)
    && (forall t, u | t in s.frees && u in s.frees && s.frees[t].elem == s.frees[u].elem :: t == u)
    && (forall r | r in s.resizes && s.resizes[r].Adding? :: s.resizes[r].elem !in s.pool && s.resizes[r].elem !in s.held && s.resizes[r].elem !in s.leaving)
    && (forall q, r | q in s.resizes && r in s.resizes && s.resizes[q].Adding? && s.resizes[q] == s.resizes[r] :: q == r)
  }

  /** The array always has room for the minimum, and the pool never exceeds it. */
  ghost predicate Bounded(s: State) { |s.pool| <= s.minNr <= s.room }

  lemma PopOwned(s: State, s': State)
    requires Owned(s) && |s.pool| > 0 && s'.pool == Pop(s).pool && s'.frees == s.frees
    requires forall r | r in s'.resizes && s'.resizes[r].Adding? :: r in s.resizes && s'.resizes[r] == s.resizes[r]
    requires (s'.held == s.held + {Last(s)} && s'.leaving == s.leaving) || (s'.held == s.held && s'.leaving == s.leaving + {Last(s)})
    ensures Owned(s')
  {
    assert forall i | 0 <= i < |s'.pool| :: s'.pool[i] == s.pool[i] != Last(s);
    assert Last(s) in s.pool;
  }

  lemma AddOwned(s: State, s': State, e: Elem)
    requires Owned(s) && e !in s.pool && s'.pool == s.pool + [e] && s'.leaving == s.leaving && s'.held <= s.held && e !in s'.held && e !in s.leaving
    requires forall t | t in s'.frees :: t in s.frees && s'.frees[t] == s.frees[t] && s.frees[t].elem in s'.held
    requires forall r | r in s'.resizes && s'.resizes[r].Adding? :: r in s.resizes && s'.resizes[r] == s.resizes[r] && s.resizes[r].elem != e
    ensures Owned(s')
  {}

  lemma ShrinkOwned(s: State, id: nat, size: nat)
    requires Owned(s)
    ensures Owned(Shrink(s, id, size))
  {
    hide NoDup;
    if size < |s.pool| { PopOwned(s, Shrink(s, id, size)); }
  }

  lemma ResizeOwned(s: State, id: nat, e: Elem)
    requires Owned(s) && id in s.resizes && ResizePass(s, id, e).Ok?
    ensures Owned(ResizePass(s, id, e).state)
  {
    hide NoDup;
    match s.resizes[id]
    case Shrinking(size) => ShrinkOwned(s, id, size);
    case Adding(x) => if |s.pool| < s.minNr { AddOwned(s, ResizePass(s, id, e).state, x); }
    case _ =>
  }

  lemma StepOwned(s: State, step: Step)
    requires Owned(s) && Apply(s, step).Ok?
    ensures Owned(Apply(s, step).state)
  {
    hide NoDup, ResizePass;
    var s' := Apply(s, step).state;
    match step
    case PoolAlloc => PopOwned(s, s');
    case FreeLock(t) => if |s.pool| < s.minNr { AddOwned(s, s', s.frees[t].elem); }
    case ResizeCall(id, size) => ShrinkOwned(s, id, size);
    case ResizeStep(id, e) => ResizeOwned(s, id, e);
    case _ =>
  }

  // -------------------------------------------------------------------- bounds

  /** A shrink that has begun still shrinks. */
  ghost predicate Shrinks(s: State) { forall r | r in s.resizes && s.resizes[r].Shrinking? :: s.resizes[r].size <= s.minNr }

  ghost predicate Single(s: State) { forall q, r | q in s.resizes && r in s.resizes :: q == r }

  ghost predicate Safe(s: State) { Bounded(s) && Shrinks(s) && Single(s) }

  /** Resizes are not called while another one runs. */
  predicate OneResizer(s: State, step: Step) { step.ResizeCall? ==> s.resizes == map[] }

  lemma StepSafe(s: State, step: Step)
    requires Safe(s) && OneResizer(s, step)
    ensures !Apply(s, step).Overrun?
    ensures Apply(s, step).Ok? ==> Safe(Apply(s, step).state)
  {
    hide ResizePass;
    if step.ResizeStep? && step.id in s.resizes { PassSafe(s, step.id, step.elem); }
  }

  lemma PassSafe(s: State, id: nat, e: Elem)
    requires Safe(s) && id in s.resizes
    ensures !ResizePass(s, id, e).Overrun?
    ensures ResizePass(s, id, e).Ok? ==> Safe(ResizePass(s, id, e).state)
  {}

  /** A shrink sets its minimum, and the array in use by then is too small for it. */
  ghost predicate Outgrows(s: State, step: Step) {
    && step.ResizeStep? && step.id in s.resizes && s.resizes[step.id].Shrinking?
    && |s.pool| <= s.resizes[step.id].size && s.room < s.resizes[step.id].size
  }

  /** With any number of resizers: within the bounds no step overruns, and only such a shrink leaves them. */
  lemma StepBound(s: State, step: Step)
    requires Bounded(s)
    ensures !Apply(s, step).Overrun?
    ensures Apply(s, step).Ok? ==> (Bounded(Apply(s, step).state) <==> !Outgrows(s, step))
  {
    if step.ResizeStep? && step.id in s.resizes { PassBound(s, step.id, step.elem); }
  }

  lemma PassBound(s: State, id: nat, e: Elem)
    requires Bounded(s) && id in s.resizes
    ensures !ResizePass(s, id, e).Overrun?
    ensures ResizePass(s, id, e).Ok? ==> (Bounded(ResizePass(s, id, e).state) <==> !Outgrows(s, ResizeStep(id, e)))
  {
    match s.resizes[id] case _ =>
  }

  /** A run that overruns the array has a shrink in it that outgrew the array. */
  lemma {:induction false} RunOverrun(s: State, steps: seq<Step>)
    requires Initial(s)
    ensures Run(s, steps).Ok? && !Bounded(Run(s, steps).state) ==> Outgrown(s, steps)
    ensures Run(s, steps).Overrun? ==> Outgrown(s, steps)
    decreases |steps|
  {
    hide Apply, Bounded, Outgrows;
    if |steps| == 0 { InitialBounded(s); } else {
      var n := |steps| - 1;
      RunOverrun(s, steps[..n]);
      if Outgrown(s, steps[..n]) {
        var k: nat :| k < n && OutgrowsAt(s, steps[..n], k);
        assert steps[..n][..k] == steps[..k];
        assert OutgrowsAt(s, steps, k);
      } else if Run(s, steps[..n]).Ok? {
        StepBound(Run(s, steps[..n]).state, steps[n]);
        assert Outgrows(Run(s, steps[..n]).state, steps[n]) ==> OutgrowsAt(s, steps, n);
      }
    }
  }

  ghost predicate OutgrowsAt(s: State, steps: seq<Step>, n: nat) {
    n < |steps| && Run(s, steps[..n]).Ok? && Outgrows(Run(s, steps[..n]).state, steps[n])
  }

  ghost predicate Outgrown(s: State, steps: seq<Step>) { exists n: nat :: n < |steps| && OutgrowsAt(s, steps, n) }

  lemma InitialBounded(s: State)
    requires Initial(s)
    ensures Bounded(s)
  {}

  /** With one resizer at a time no run overruns the array or trips a BUG_ON, and no element is in two hands. */
  lemma {:induction false} RunSafe(s: State, steps: seq<Step>)
    requires Initial(s)
    requires forall n: nat | n < |steps| && Run(s, steps[..n]).Ok? :: OneResizer(Run(s, steps[..n]).state, steps[n])
    ensures !Run(s, steps).Overrun?
    ensures Run(s, steps).Ok? ==> Safe(Run(s, steps).state) && Owned(Run(s, steps).state)
    decreases |steps|
  {
    hide Apply, OneResizer;
    if |steps| != 0 {
      var n := |steps| - 1;
      assert forall k: nat | k < n :: steps[..n][..k] == steps[..k];
      RunSafe(s, steps[..n]);
      if Run(s, steps[..n]).Ok? {
        StepSafe(Run(s, steps[..n]).state, steps[n]);
        if Apply(Run(s, steps[..n]).state, steps[n]).Ok? { StepOwned(Run(s, steps[..n]).state, steps[n]); }
      }
    }
  }

  // -------------------------------------------------------------------- reserve

  /** The pool and the elements that can still come back to it make up the minimum. */
  ghost predicate Reserve(s: State) { |s.pool| + |s.held| >= s.minNr }

  lemma StepReserve(s: State, step: Step)
    requires Owned(s) && Bounded(s) && Reserve(s) && s.resizes == map[] && !step.ResizeCall? && Apply(s, step).Ok?
    ensures Reserve(Apply(s, step).state) && Bounded(Apply(s, step).state) && Apply(s, step).state.resizes == map[]
    ensures Apply(s, step).state.minNr == s.minNr
  {
    if step.PoolAlloc? { assert Last(s) in s.pool; }
  }

  /**
   * Without resizing, in every run and for every interleaving of the unlocked read: a caller that finds the pool
   * empty and waits can count on min_nr elements that mempool_free has not yet given back to the system.
   */
  lemma {:induction false} RunReserve(s: State, steps: seq<Step>)
    requires Initial(s) && Run(s, steps).Ok? && forall n | 0 <= n < |steps| :: !steps[n].ResizeCall?
    ensures var s' := Run(s, steps).state; Owned(s') && Bounded(s') && Reserve(s') && s'.resizes == map[] && s'.minNr == s.minNr
    ensures Run(s, steps).state.pool == [] ==> |Run(s, steps).state.held| >= s.minNr
    decreases |steps|
  {
    hide Apply;
    if |steps| != 0 {
      var n := |steps| - 1;
      RunReserve(s, steps[..n]);
      StepReserve(Run(s, steps[..n]).state, steps[n]);
      StepOwned(Run(s, steps[..n]).state, steps[n]);
    }
  }

  // --------------------------------------------------------------- two resizers

  function Point(pool: seq<Elem>, room: nat, minNr: nat, leaving: set<Elem>, resizes: map<nat, Resize>): State {
    State(pool, room, minNr, {}, leaving, map[], resizes)
  }

  /** A shrink from 4 to 3, freeing an element, is overtaken by a shrink to 1 and a growth to 2. */
  const Overtaken: seq<Step> := [
    ResizeCall(1, 3), ResizeCall(2, 1), ResizeStep(2, 0), ResizeStep(2, 0), ResizeCall(2, 2), ResizeStep(2, 0),
    ResizeStep(2, 0), ResizeStep(1, 0), ResizeStep(2, 10), ResizeStep(2, 0), ResizeStep(2, 11), ResizeStep(2, 0)]

  lemma RunMore(s: State, steps: seq<Step>, n: nat, o: State)
    requires n < |steps| && Run(s, steps[..n]) == Ok(o)
    ensures Run(s, steps[..n + 1]) == Apply(o, steps[n])
  {
    hide Apply;
    assert steps[..n + 1][..n] == steps[..n];
  }

  lemma RunNone(s: State, steps: seq<Step>)
    ensures Run(s, steps[..0]) == Ok(s)
  {}

  lemma OvertakenBegin(s: State, s2: State)
    requires s == Point([6, 7, 8, 9], 4, 4, {}, map[])
    requires s2 == Point([6, 7], 4, 4, {8, 9}, map[1 := Shrinking(3), 2 := Shrinking(1)])
    ensures Run(s, Overtaken[..2]) == Ok(s2)
  {
    hide Run;
    var s1 := Point([6, 7, 8], 4, 4, {9}, map[1 := Shrinking(3)]);
    RunNone(s, Overtaken);
    assert s.pool[..3] == s1.pool;
    RunMore(s, Overtaken, 0, s);
    assert s1.pool[..2] == s2.pool && s1.resizes[2 := Shrinking(1)] == s2.resizes;
    RunMore(s, Overtaken, 1, s1);
  }

  lemma OvertakenShrunk(s: State, s2: State, s4: State)
    requires s2 == Point([6, 7], 4, 4, {8, 9}, map[1 := Shrinking(3), 2 := Shrinking(1)]) && Run(s, Overtaken[..2]) == Ok(s2)
    requires s4 == Point([6], 4, 1, {7, 8, 9}, map[1 := Shrinking(3)])
    ensures Run(s, Overtaken[..4]) == Ok(s4)
  {
    hide Run;
    var s3 := Point([6], 4, 4, {7, 8, 9}, s2.resizes);
    assert s2.pool[..1] == s3.pool && s2.resizes[2 := Shrinking(1)] == s2.resizes;
    RunMore(s, Overtaken, 2, s2);
    assert s3.resizes - {2} == s4.resizes;
    RunMore(s, Overtaken, 3, s3);
  }

  lemma OvertakenMiddle(s: State, s4: State, s8: State)
    requires s4 == Point([6], 4, 1, {7, 8, 9}, map[1 := Shrinking(3)]) && Run(s, Overtaken[..4]) == Ok(s4)
    requires s8 == Point([6], 2, 3, {7, 8, 9}, map[2 := Filling])
    ensures Run(s, Overtaken[..8]) == Ok(s8)
  {
    hide Run;
    var s5 := Point([6], 4, 1, {7, 8, 9}, map[1 := Shrinking(3), 2 := Growing(2)]);
    var s6 := Point([6], 4, 1, {7, 8, 9}, map[1 := Shrinking(3), 2 := Swapping(2)]);
    var s7 := Point([6], 2, 2, {7, 8, 9}, map[1 := Shrinking(3), 2 := Filling]);
    RunMore(s, Overtaken, 4, s4);
    assert s5.resizes[2 := Swapping(2)] == s6.resizes;
    RunMore(s, Overtaken, 5, s5);
    assert s6.resizes[2 := Filling] == s7.resizes;
    RunMore(s, Overtaken, 6, s6);
    assert s7.resizes - {1} == s8.resizes;
    RunMore(s, Overtaken, 7, s7);
  }

  lemma OvertakenEnd(s: State, s8: State, s11: State)
    requires s8 == Point([6], 2, 3, {7, 8, 9}, map[2 := Filling]) && Run(s, Overtaken[..8]) == Ok(s8)
    requires s11 == Point([6, 10], 2, 3, {7, 8, 9}, map[2 := Adding(11)])
    ensures Run(s, Overtaken[..11]) == Ok(s11)
  {
    hide Run;
    var s9, s10 := s8.(resizes := map[2 := Adding(10)]), s8.(pool := [6, 10]);
    assert s8.resizes[2 := Adding(10)] == s9.resizes && s9.resizes[2 := Filling] == s10.resizes;
    assert s10.resizes[2 := Adding(11)] == s11.resizes;
    RunMore(s, Overtaken, 8, s8);
    RunMore(s, Overtaken, 9, s9);
    RunMore(s, Overtaken, 10, s10);
  }

  /** Two resizers at once can make mempool_resize write past its array. */
  lemma TwoResizers()
    ensures Initial(Point([6, 7, 8, 9], 4, 4, {}, map[])) && Run(Point([6, 7, 8, 9], 4, 4, {}, map[]), Overtaken).Overrun?
  {
    hide Run;
    var s, s4 := Point([6, 7, 8, 9], 4, 4, {}, map[]), Point([6], 4, 1, {7, 8, 9}, map[1 := Shrinking(3)]);
    var s8, s11 := Point([6], 2, 3, {7, 8, 9}, map[2 := Filling]), Point([6, 10], 2, 3, {7, 8, 9}, map[2 := Adding(11)]);
    var s2 := Point([6, 7], 4, 4, {8, 9}, map[1 := Shrinking(3), 2 := Shrinking(1)]);
    OvertakenBegin(s, s2);
    OvertakenShrunk(s, s2, s4);
    OvertakenMiddle(s, s4, s8);
    OvertakenEnd(s, s8, s11);
    RunMore(s, Overtaken, 11, s11);
    assert Overtaken[..12] == Overtaken;
  }
}
