/**
 * The counting semaphore of linux/semaphore.c. A step is what one task does between taking and dropping sem->lock, or
 * a wake-up of a task (its timer's, or a stray one); any interleaving of steps is a run. The model keeps what each
 * call that went to the slow path came to, under a number given when it joined the wait list.
 */
module Semaphore {
  import opened Options

  const U32: nat := 0x1_0000_0000
  const MAX_TIMEOUT: int := 0x7FFF_FFFF_FFFF_FFFF
  const ETIME: int := 62

  datatype Status = Pending | Acquired | TimedOut

  /** runnable: its state is TASK_RUNNING, so that schedule() returns. */
  datatype Waiter = Waiter(timeout: int, up: bool, runnable: bool, status: Status)

  /** ups, grants, wraps, granted: history, of calls of up, of acquisitions, of overflows of count, of waiters let go. */
  datatype State = State(count: nat, waiting: seq<nat>, calls: map<nat, Waiter>, next: nat,
                         ups: nat, grants: nat, wraps: nat, granted: seq<nat>)

  function Init(initial: nat): State { State(initial, [], map[], 0, 0, 0, 0, []) }

  /** Resume: schedule_timeout has returned left in the waiter t, which takes the lock again. */
  datatype Step = Down(timeout: int) | Trylock | Up | Wake(t: nat) | Resume(t: nat, left: int)

  /** ret: what the call that ends in this step returns. */
  datatype Outcome = Next(state: State, ret: Option<int>) | Blocked

  function Without(s: seq<nat>, t: nat): seq<nat> {
    if |s| == 0 then [] else if s[0] == t then s[1..] else [s[0]] + Without(s[1..], t)
  }

  function Signed32(x: int): int { var m := x % U32; if m < U32 / 2 then m else m - U32 }

  /** What schedule_timeout may return: it never cuts an unlimited wait short, nor lengthens a limited one. */
  predicate Returns(timeout: int, left: int) { if timeout == MAX_TIMEOUT then left == timeout else 0 <= left <= timeout }

  function DownStep(s: State, timeout: int): Outcome {
    if s.count > 0 then Next(s.(count := s.count - 1, grants := s.grants + 1), Some(0))
    else
      var t := s.next;
      if timeout <= 0 then
        Next(s.(next := t + 1, waiting := Without(s.waiting + [t], t),
                calls := s.calls[t := Waiter(timeout, false, true, TimedOut)]), Some(-ETIME))
      else
        Next(s.(next := t + 1, waiting := s.waiting + [t],
                calls := s.calls[t := Waiter(timeout, false, false, Pending)]), None)
  }

  function UpStep(s: State): Outcome {
    if |s.waiting| == 0 then
      Next(s.(count := (s.count + 1) % U32, ups := s.ups + 1,
              wraps := s.wraps + if s.count + 1 >= U32 then 1 else 0), Some(0))
    else
      var t := s.waiting[0];
      if t !in s.calls then Blocked
      else
        Next(s.(waiting := s.waiting[1..], calls := s.calls[t := s.calls[t].(up := true, runnable := true)],
                ups := s.ups + 1, grants := s.grants + 1, granted := s.granted + [t]), Some(0))
  }

  function ResumeStep(s: State, t: nat, left: int): Outcome {
    if t !in s.calls || !s.calls[t].status.Pending? || !s.calls[t].runnable || !Returns(s.calls[t].timeout, left) then
      Blocked
    else
      var w := s.calls[t];
      if w.up then Next(s.(calls := s.calls[t := w.(status := Acquired)]), Some(0))
      else if left <= 0 then
        Next(s.(waiting := Without(s.waiting, t), calls := s.calls[t := w.(status := TimedOut)]), Some(-ETIME))
      else Next(s.(calls := s.calls[t := w.(timeout := left, runnable := false)]), None)
  }

  function Apply(s: State, step: Step): Outcome {
    match step
    case Down(timeout) => DownStep(s, timeout)
    case Trylock =>
      var count := Signed32(s.count - 1);
      if count >= 0 then Next(s.(count := count, grants := s.grants + 1), Some(0)) else Next(s, Some(1))
    case Up => UpStep(s)
    case Wake(t) =>
      if t !in s.calls || !s.calls[t].status.Pending? then Blocked
      else Next(s.(calls := s.calls[t := s.calls[t].(runnable := true)]), None)
    case Resume(t, left) => ResumeStep(s, t, left)
  }

  function Run(s: State, steps: seq<Step>): Outcome
    decreases |steps|
  {
    if |steps| == 0 then Next(s, None)
    else
      var o := Run(s, steps[..|steps| - 1]);
      if o.Next? then Apply(o.state, steps[|steps| - 1]) else o
  }

  ghost predicate Rising(s: seq<nat>) { forall i, j | 0 <= i < j < |s| :: s[i] < s[j] }

  /** Where the waiter t stands: on the list, let go but not back yet, back with the semaphore, or back without it. */
  ghost predicate Placed(waiting: seq<nat>, granted: seq<nat>, t: nat, w: Waiter) {
    && (t in waiting <==> w.status.Pending? && !w.up)
    && (t in granted <==> w.up)
    && (w.up ==> !w.status.TimedOut? && (w.status.Pending? ==> w.runnable))
    && (w.status.Acquired? ==> w.up)
    && (w.status.Pending? ==> w.timeout > 0)
    && (w.status.TimedOut? ==> w.timeout != MAX_TIMEOUT)
  }

  /** No task waits while the count is positive, and acquisitions never exceed what there was to acquire. */
  ghost predicate Balanced(s: State, initial: nat) {
    && s.count < U32
    && (|s.waiting| > 0 ==> s.count == 0)
    && s.count + U32 * s.wraps + s.grants == initial + s.ups
  }

  ghost predicate Queued(s: State) {
    && Rising(s.waiting) && Rising(s.granted)
    && (forall t, u | t in s.granted && u in s.waiting :: t < u)
    && (forall t | t in s.waiting || t in s.granted :: t < s.next)
    && (forall t: nat :: t in s.calls <==> t < s.next)
    && (forall t | t in s.calls :: Placed(s.waiting, s.granted, t, s.calls[t]))
  }

  ghost predicate Inv(s: State, initial: nat) { Balanced(s, initial) && Queued(s) }

  lemma {:induction false} WithoutIs(s: seq<nat>, t: nat)
    requires Rising(s)
    ensures Rising(Without(s, t)) && |Without(s, t)| <= |s| && forall x :: x in Without(s, t) <==> x in s && x != t
    decreases |s|
  {
    if |s| != 0 {
      TailAbove(s);
      if s[0] != t {
        WithoutIs(s[1..], t);
        PrependRising(s[0], Without(s[1..], t));
      }
    }
  }

  lemma TailAbove(s: seq<nat>)
    requires Rising(s) && |s| > 0
    ensures Rising(s[1..])
    ensures forall x :: x in s[1..] <==> x in s && x != s[0]
    ensures forall x | x in s[1..] :: x > s[0]
  {
    assert s == [s[0]] + s[1..];
  }

  lemma PrependRising(t: nat, s: seq<nat>)
    requires Rising(s) && forall x | x in s :: x > t
    ensures Rising([t] + s) && forall x :: x in [t] + s <==> x in s || x == t
  {
    assert forall i | 0 <= i < |s| :: s[i] in s;
  }

  lemma AppendRising(s: seq<nat>, t: nat)
    requires Rising(s) && forall x | x in s :: x < t
    ensures Rising(s + [t])
  {
    assert forall i | 0 <= i < |s| :: s[i] in s;
  }

  lemma {:induction false} LastWithout(s: seq<nat>, t: nat)
    requires t !in s
    ensures Without(s + [t], t) == s
    decreases |s|
  {
    if |s| == 0 { assert (s + [t])[1..] == []; } else {
      assert (s + [t])[1..] == s[1..] + [t];
      LastWithout(s[1..], t);
    }
  }

  lemma DownInv(s: State, timeout: int)
    requires Queued(s)
    ensures DownStep(s, timeout).Next? ==> Queued(DownStep(s, timeout).state)
  {
    hide Without;
    if s.count == 0 {
      assert s.next !in s.waiting;
      AppendRising(s.waiting, s.next);
      LastWithout(s.waiting, s.next);
    }
  }

  lemma UpInv(s: State)
    requires Queued(s)
    ensures UpStep(s).Next? && Queued(UpStep(s).state)
  {
    if |s.waiting| > 0 {
      assert s.waiting[0] in s.waiting;
      TailAbove(s.waiting);
      AppendRising(s.granted, s.waiting[0]);
    }
  }

  lemma ResumeInv(s: State, t: nat, left: int)
    requires Queued(s)
    ensures ResumeStep(s, t, left).Next? ==>
      Queued(ResumeStep(s, t, left).state) && |ResumeStep(s, t, left).state.waiting| <= |s.waiting|
  {
    hide Without;
    WithoutIs(s.waiting, t);
  }

  lemma WakeInv(s: State, t: nat)
    requires Queued(s)
    ensures Apply(s, Wake(t)).Next? ==> Queued(Apply(s, Wake(t)).state)
  {}

  lemma TryInv(s: State)
    requires Queued(s)
    ensures Queued(Apply(s, Trylock).state)
  {
    hide Rising, Placed;
  }

  /** The list, the count and the calls agree after every step; no step of an interleaving is lost or done twice. */
  lemma StepInv(s: State, step: Step, initial: nat)
    requires Inv(s, initial)
    ensures Apply(s, step).Next? ==> Inv(Apply(s, step).state, initial)
    ensures step.Up? ==> Apply(s, step).Next?
  {
    hide Queued, Without, Rising, Placed;
    match step
    case Down(timeout) => DownInv(s, timeout);
    case Trylock => TryInv(s);
    case Up => UpInv(s);
    case Wake(t) => WakeInv(s, t);
    case Resume(t, left) => ResumeInv(s, t, left);
  }

  lemma {:induction false} RunInv(initial: nat, steps: seq<Step>)
    requires initial < U32
    ensures Run(Init(initial), steps).Next? ==> Inv(Run(Init(initial), steps).state, initial)
    decreases |steps|
  {
    hide Apply;
    if |steps| != 0 {
      var n := |steps| - 1;
      RunInv(initial, steps[..n]);
      if Run(Init(initial), steps[..n]).Next? { StepInv(Run(Init(initial), steps[..n]).state, steps[n], initial); }
    }
  }

  // ---------------------------------------------------------------- conservation

  /** Waiters that up has let go and that have not come back yet. */
  function Away(s: State): set<nat> { set t | t in s.calls && s.calls[t].up && s.calls[t].status.Pending? }

  /** The step is a call, or the end of a call, that returned having got the semaphore. */
  predicate Gets(s: State, step: Step) {
    !step.Up? && Apply(s, step).Next? && Apply(s, step).ret == Some(0)
  }

  function Ups(steps: seq<Step>): nat {
    if |steps| == 0 then 0 else Ups(steps[..|steps| - 1]) + if steps[|steps| - 1].Up? then 1 else 0
  }

  /** How many calls of the run returned having got the semaphore. */
  function Gotten(s: State, steps: seq<Step>): nat
    decreases |steps|
  {
    if |steps| == 0 then 0
    else
      var n, o := |steps| - 1, Run(s, steps[..|steps| - 1]);
      Gotten(s, steps[..n]) + if o.Next? && Gets(o.state, steps[n]) then 1 else 0
  }

  lemma AwayMore(s: State, s': State, t: nat)
    requires t in s.calls && s.calls[t].status.Pending? && !s.calls[t].up && s'.calls == s.calls[t := s.calls[t].(up := true, runnable := true)]
    ensures |Away(s')| == |Away(s)| + 1
  {
    assert Away(s') == Away(s) + {t};
  }

  lemma AwayLess(s: State, s': State, t: nat)
    requires t in s.calls && s.calls[t].up && s.calls[t].status.Pending? && s'.calls == s.calls[t := s.calls[t].(status := Acquired)]
    ensures |Away(s')| == |Away(s)| - 1
  {
    assert Away(s') == Away(s) - {t};
  }

  lemma AwaySame(s: State, s': State)
    requires forall t | t in s.calls :: t in s'.calls && (s'.calls[t].up && s'.calls[t].status.Pending? <==> s.calls[t].up && s.calls[t].status.Pending?)
    requires forall t | t in s'.calls && t !in s.calls :: !s'.calls[t].up
    ensures Away(s') == Away(s)
  {}

  /** Only up is counted in ups, and grants are the calls that returned with the semaphore and the waiters on their way back. */
  lemma StepCounts(s: State, step: Step)
    requires Queued(s) && Apply(s, step).Next?
    ensures var s' := Apply(s, step).state;
      && s'.ups == s.ups + (if step.Up? then 1 else 0)
      && s'.grants + |Away(s)| == s.grants + |Away(s')| + if Gets(s, step) then 1 else 0
  {
    hide Without, Rising, Away;
    var s' := Apply(s, step).state;
    match step
    case Up =>
      if |s.waiting| > 0 {
        assert s.waiting[0] in s.waiting;
        AwayMore(s, s', s.waiting[0]);
      } else {
        AwaySame(s, s');
      }
    case Resume(t, left) => if s.calls[t].up { AwayLess(s, s', t); } else { AwaySame(s, s'); }
    case _ => AwaySame(s, s');
  }

  lemma {:induction false} RunCounts(initial: nat, steps: seq<Step>)
    requires initial < U32 && Run(Init(initial), steps).Next?
    ensures var s := Run(Init(initial), steps).state; s.ups == Ups(steps) && s.grants == Gotten(Init(initial), steps) + |Away(s)|
    decreases |steps|
  {
    hide Apply, Away, Gets, Queued;
    if |steps| == 0 {
      NobodyAway(initial);
    } else {
      var n := |steps| - 1;
      RunCounts(initial, steps[..n]);
      RunInv(initial, steps[..n]);
      StepCounts(Run(Init(initial), steps[..n]).state, steps[n]);
    }
  }

  lemma NobodyAway(initial: nat)
    ensures Away(Init(initial)) == {}
  {}

  /**
   * Nothing is created or lost: in every run the count is what there was, plus the calls of up, less the calls that
   * returned with the semaphore and the waiters let go that are on their way back; unless up overflowed it.
   */
  lemma Conserved(initial: nat, steps: seq<Step>)
    requires initial < U32 && Run(Init(initial), steps).Next?
    ensures
      var s := Run(Init(initial), steps).state;
      var taken := Gotten(Init(initial), steps) + |Away(s)|;
      && taken <= initial + Ups(steps)
      && s.count == (initial + Ups(steps) - taken) % U32
      && (initial + Ups(steps) < U32 ==> s.count == initial + Ups(steps) - taken)
    ensures var s := Run(Init(initial), steps).state; s.ups == Ups(steps) && s.grants == Gotten(Init(initial), steps) + |Away(s)|
  {
    hide Apply, Queued, Gotten, Ups, Away, Init;
    RunInv(initial, steps);
    RunCounts(initial, steps);
    var s := Run(Init(initial), steps).state;
    Wraps(s.count, s.wraps);
  }

  lemma {:induction false} Wraps(count: nat, k: nat)
    requires count < U32
    ensures (count + U32 * k) % U32 == count
    decreases k
  {
    if k > 0 {
      Wraps(count, k - 1);
      assert count + U32 * k == (count + U32 * (k - 1)) + U32;
    }
  }

  /** No barging: while anybody waits, neither down, down_timeout nor down_trylock gets the semaphore at once. */
  lemma NoBarging(initial: nat, steps: seq<Step>, timeout: int)
    requires initial < U32 && Run(Init(initial), steps).Next?
    requires |Run(Init(initial), steps).state.waiting| > 0
    ensures var s := Run(Init(initial), steps).state;
      && Apply(s, Down(timeout)).ret == (if timeout <= 0 then Some(-ETIME) else None)
      && Apply(s, Down(timeout)).state.grants == s.grants
      && Apply(s, Trylock) == Next(s, Some(1))
  {
    hide Queued, Without;
    RunInv(initial, steps);
  }

  lemma {:induction false} Before(s: seq<nat>, t: nat, u: nat)
    requires Rising(s) && t in s && u in s && t < u
    ensures exists i, j | 0 <= i < j < |s| :: s[i] == t && s[j] == u
  {
    var i :| 0 <= i < |s| && s[i] == t;
    var j :| 0 <= j < |s| && s[j] == u;
    if j < i { assert s[j] < s[i]; }
  }

  /** First come, first served: whoever joined before a waiter that was let go was let go earlier, or gave up. */
  lemma Fifo(initial: nat, steps: seq<Step>, t: nat, u: nat)
    requires initial < U32 && Run(Init(initial), steps).Next?
    requires var s := Run(Init(initial), steps).state; t < u && u in s.calls && s.calls[u].up
    ensures var s := Run(Init(initial), steps).state;
      && t in s.calls
      && (s.calls[t].status.TimedOut?
          || exists i, j | 0 <= i < j < |s.granted| :: s.granted[i] == t && s.granted[j] == u)
  {
    hide Apply;
    RunInv(initial, steps);
    var s := Run(Init(initial), steps).state;
    assert Placed(s.waiting, s.granted, u, s.calls[u]) && u < s.next;
    assert Placed(s.waiting, s.granted, t, s.calls[t]);
    if !s.calls[t].status.TimedOut? { Before(s.granted, t, u); }
  }

  /**
   * A waiter that gave up was never let go and is off the list, and down, which cannot report it, never gives up; a
   * waiter that came back with the semaphore was let go; one let go is never left asleep, and whenever it takes the
   * lock again, whatever is left of its time, down_timeout returns 0.
   */
  lemma WaiterEnds(initial: nat, steps: seq<Step>, t: nat, left: int)
    requires initial < U32 && Run(Init(initial), steps).Next? && t in Run(Init(initial), steps).state.calls
    ensures var s := Run(Init(initial), steps).state; var w := s.calls[t];
      && (w.status.TimedOut? ==> t !in s.granted && t !in s.waiting && w.timeout != MAX_TIMEOUT)
      && (w.status.Acquired? ==> t in s.granted && t !in s.waiting)
      && (w.status.Pending? && t in s.granted ==> w.runnable)
      && (w.status.Pending? && w.runnable && Returns(w.timeout, left) ==>
            (Apply(s, Resume(t, left)).ret == Some(0) <==> t in s.granted))
  {
    hide Without, Rising;
    RunInv(initial, steps);
  }

  /** What a call returned is final: it is never let go afterwards, and never put on the list again. */
  lemma ReturnFinal(s: State, step: Step, initial: nat, t: nat)
    requires Inv(s, initial) && t in s.calls && !s.calls[t].status.Pending? && Apply(s, step).Next?
    ensures var s' := Apply(s, step).state;
      t in s'.calls && s'.calls[t] == s.calls[t] && (t in s'.granted <==> t in s.granted) && t !in s'.waiting
  {
    hide Without;
    assert Placed(s.waiting, s.granted, t, s.calls[t]);
    if |s.waiting| > 0 { assert s.waiting[0] in s.waiting; }
    StepInv(s, step, initial);
    var s' := Apply(s, step).state;
    assert t in s'.calls && s'.calls[t] == s.calls[t];
    assert Placed(s'.waiting, s'.granted, t, s'.calls[t]);
  }

  // --------------------------------------------------------------- single calls

  /**
   * down takes one when the count is positive; otherwise it joins the list behind everybody, asleep, or gives up at
   * once if it has no time, leaving the list as it was.
   */
  lemma DownIs(s: State, timeout: int)
    requires Queued(s)
    ensures
      var o := Apply(s, Down(timeout));
      && o.Next? && o.state.granted == s.granted && o.state.ups == s.ups
      && if s.count > 0 then o.ret == Some(0) && o.state == s.(count := s.count - 1, grants := s.grants + 1)
         else
           && o.state.count == s.count && o.state.grants == s.grants && s.next !in s.calls && o.state.next == s.next + 1
           && o.state.calls.Keys == s.calls.Keys + {s.next} && (forall t | t in s.calls :: o.state.calls[t] == s.calls[t])
           && if timeout <= 0 then o.ret == Some(-ETIME) && o.state.waiting == s.waiting && o.state.calls[s.next] == Waiter(timeout, false, true, TimedOut)
              else o.ret == None && o.state.waiting == s.waiting + [s.next] && o.state.calls[s.next] == Waiter(timeout, false, false, Pending)
  {
    hide Without, Rising, Placed;
    if s.count == 0 {
      assert s.next !in s.waiting;
      LastWithout(s.waiting, s.next);
    }
  }

  /** up lets go the waiter that has waited longest, and only then; with nobody waiting it adds one to the count. */
  lemma UpIs(s: State)
    requires Queued(s)
    ensures
      var o := Apply(s, Up);
      && o.Next? && o.ret == Some(0) && o.state.next == s.next
      && if s.waiting == [] then o.state.count == (s.count + 1) % U32 && o.state.calls == s.calls && o.state.waiting == [] && o.state.granted == s.granted
         else
           var t := s.waiting[0];
           && o.state.count == s.count && o.state.waiting == s.waiting[1..] && o.state.granted == s.granted + [t]
           && (forall u | u in s.waiting :: t <= u)
           && t in s.calls && o.state.calls == s.calls[t := s.calls[t].(up := true, runnable := true)]
  {
    hide Placed;
    if s.waiting != [] { assert s.waiting[0] in s.waiting; }
  }

  /** A waiter comes back once it is runnable, with any part of a limited time left. */
  lemma ComesBack(s: State, t: nat, left: int)
    requires Queued(s)
    ensures Apply(s, Resume(t, left)).Next? <==>
      && t in s.calls && s.calls[t].status.Pending? && s.calls[t].runnable
      && (left == s.calls[t].timeout || (0 <= left < s.calls[t].timeout && s.calls[t].timeout != MAX_TIMEOUT))
  {
    if t in s.calls { assert Placed(s.waiting, s.granted, t, s.calls[t]); }
  }

  /** A waiter that comes back returns 0 if it was let go, gives up its place if its time is over, and else sleeps again where it was. */
  lemma ResumeIs(s: State, t: nat, left: int)
    requires Queued(s) && t in s.calls && s.calls[t].status.Pending? && s.calls[t].runnable && Returns(s.calls[t].timeout, left)
    ensures
      var o := Apply(s, Resume(t, left));
      && o.Next? && o.state.count == s.count && o.state.granted == s.granted && o.state.next == s.next
      && o.state.calls.Keys == s.calls.Keys && (forall u | u in s.calls && u != t :: o.state.calls[u] == s.calls[u])
      && if t in s.granted then o.ret == Some(0) && o.state.calls[t].status == Acquired && o.state.waiting == s.waiting
         else if left <= 0 then
           && o.ret == Some(-ETIME) && o.state.calls[t].status == TimedOut && t in s.waiting
           && (forall u :: u in o.state.waiting <==> u in s.waiting && u != t) && Rising(o.state.waiting)
         else o.ret == None && o.state.waiting == s.waiting && o.state.calls[t] == s.calls[t].(timeout := left, runnable := false)
  {
    hide Without, Rising;
    assert Placed(s.waiting, s.granted, t, s.calls[t]);
    WithoutIs(s.waiting, t);
  }

  /** The trylock converts the count to a signed int: it reports failure with more than 2^31 left to acquire. */
  lemma TrylockIs(s: State)
    requires s.count < U32
    ensures Apply(s, Trylock).ret == (if 0 < s.count <= 0x8000_0000 then Some(0) else Some(1))
    ensures Apply(s, Trylock).state ==
      if 0 < s.count <= 0x8000_0000 then s.(count := s.count - 1, grants := s.grants + 1) else s
  {}

  lemma TrylockRefuses()
    ensures Apply(Init(0x8000_0001), Trylock) == Next(Init(0x8000_0001), Some(1))
  {}
}
