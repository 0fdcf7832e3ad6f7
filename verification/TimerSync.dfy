/**
 * The timer_seq protocol of linux/timer.c: how flush_timers and timer_delete_sync wait for a callback without knowing
 * which one runs. A step is a section under timer_lock; the callback itself runs between Fire and Finish, unlocked.
 */
module TimerSync {
  import opened Options

  const RANGE: nat := 0x1_0000_0000_0000_0000

  /** A call that went to sleep: of timer_delete_sync(timer), or of flush_timers. The rest is history at its start. */
  datatype Wait = Wait(timer: Option<nat>, stamp: nat, begun: nat, mods: nat)

  /** begun, done, mods: history, of callbacks started, of callbacks finished, of timers armed. */
  datatype State = State(stamp: nat, armed: set<nat>, running: Option<nat>, waits: map<nat, Wait>,
                         begun: nat, done: nat, mods: seq<nat>)

  const Init := State(0, {}, None, map[], 0, 0, [])

  datatype Step = Mod(timer: nat) | Del(timer: nat) | Fire(timer: nat) | Finish | Call(caller: nat, what: Option<nat>) | Wake(caller: nat)

  datatype Outcome = Ok(state: State) | Blocked | Bug

  predicate TimerRunning(s: State) { s.stamp % 2 == 1 }

  function Apply(s: State, step: Step): Outcome {
    match step
    case Mod(t) => Ok(s.(armed := s.armed + {t}, mods := s.mods + [t]))
    case Del(t) => Ok(s.(armed := s.armed - {t}))
    case Fire(t) =>
      if s.running.Some? || t !in s.armed then Blocked
      else
        var s' := s.(armed := s.armed - {t}, running := Some(t), stamp := (s.stamp + 1) % RANGE, begun := s.begun + 1);
        if TimerRunning(s') then Ok(s') else Bug
    case Finish =>
      if s.running.None? then Blocked
      else Ok(s.(running := None, stamp := (s.stamp + 1) % RANGE, done := s.done + 1))
    case Call(c, what) =>
      if c in s.waits then Blocked
      else
        var s' := s.(armed := if what.Some? then s.armed - {what.value} else s.armed);
        if TimerRunning(s') then Ok(s'.(waits := s.waits[c := Wait(what, s.stamp, s.begun, |s.mods|)])) else Ok(s')
    case Wake(c) =>
      if c !in s.waits || (TimerRunning(s) && s.stamp == s.waits[c].stamp) then Blocked
      else Ok(s.(waits := s.waits - {c}))
  }

  function Run(s: State, steps: seq<Step>): Outcome
    decreases |steps|
  {
    if |steps| == 0 then Ok(s)
    else
      var o := Run(s, steps[..|steps| - 1]);
      if o.Ok? then Apply(o.state, steps[|steps| - 1]) else o
  }

  /** Nobody armed t since there were n arms. */
  predicate LeftAlone(mods: seq<nat>, t: nat, n: nat) { n <= |mods| && t !in mods[n..] }

  ghost predicate WaitInv(s: State, w: Wait) {
    && 0 < w.begun <= s.begun && w.begun - 1 <= s.done && w.mods <= |s.mods|
    && w.stamp == (2 * w.begun - 1) % RANGE
    && (w.timer.Some? && LeftAlone(s.mods, w.timer.value, w.mods) ==>
          w.timer.value !in s.armed && (s.running == w.timer ==> s.begun == w.begun))
  }

  ghost predicate Inv(s: State) {
    && s.begun == s.done + (if s.running.Some? then 1 else 0)
    && s.stamp == (s.begun + s.done) % RANGE
    && forall c | c in s.waits :: WaitInv(s, s.waits[c])
  }

  /** The low bit of timer_seq says whether a callback runs, also after timer_seq has wrapped. */
  lemma Parity(s: State)
    requires Inv(s)
    ensures TimerRunning(s) <==> s.running.Some?
  {
    EvenRange(s.begun + s.done);
  }

  lemma EvenRange(x: nat)
    ensures x % RANGE % 2 == x % 2
  {
    assert x == x / RANGE * RANGE + x % RANGE;
    assert RANGE == 2 * (RANGE / 2);
    assert x / RANGE * RANGE == 2 * (x / RANGE * (RANGE / 2));
  }

  lemma ModKept(s: State, t: nat, w: Wait)
    requires WaitInv(s, w)
    ensures WaitInv(s.(armed := s.armed + {t}, mods := s.mods + [t]), w)
  {
    var log := s.mods + [t];
    assert log[w.mods..] == s.mods[w.mods..] + [t];
    assert log[w.mods..][|s.mods| - w.mods] == t;
    assert forall x | x in s.mods[w.mods..] :: x in log[w.mods..];
  }

  /** The BUG_ON of the timer thread never fires. */
  lemma StepInv(s: State, step: Step)
    requires Inv(s)
    ensures !Apply(s, step).Bug?
    ensures Apply(s, step).Ok? ==> Inv(Apply(s, step).state)
  {
    hide LeftAlone;
    Parity(s);
    EvenRange(s.begun + s.done + 1);
    Wraps(s.begun + s.done);
    match step
    case Mod(t) => forall c | c in s.waits ensures WaitInv(Apply(s, step).state, s.waits[c]) { ModKept(s, t, s.waits[c]); }
    case _ =>
  }

  lemma Wraps(x: nat)
    ensures (x % RANGE + 1) % RANGE == (x + 1) % RANGE
  {}

  lemma {:induction false} RunInv(steps: seq<Step>)
    ensures !Run(Init, steps).Bug?
    ensures Run(Init, steps).Ok? ==> Inv(Run(Init, steps).state)
    decreases |steps|
  {
    hide Apply;
    if |steps| != 0 {
      var n := |steps| - 1;
      RunInv(steps[..n]);
      if Run(Init, steps[..n]).Ok? { StepInv(Run(Init, steps[..n]).state, steps[n]); }
    }
  }

  /** Stamps of running states agree exactly when 2^63 callbacks, or a multiple, lie between. */
  lemma SameStamp(a: nat, b: nat)
    requires 0 < a <= b
    ensures (2 * a - 1) % RANGE == (2 * b - 1) % RANGE <==> (b - a) % (RANGE / 2) == 0
  {
    var d := b - a;
    var x, y := 2 * a - 1, 2 * b - 1;
    if x % RANGE == y % RANGE {
      assert y - x == (y / RANGE - x / RANGE) * RANGE;
      assert d == (y / RANGE - x / RANGE) * (RANGE / 2);
    } else if d % (RANGE / 2) == 0 {
      var k := d / (RANGE / 2);
      assert y == x + k * RANGE;
      Shift(x, k);
    }
  }

  lemma {:induction false} Shift(x: nat, k: nat)
    ensures (x + k * RANGE) % RANGE == x % RANGE
    decreases k
  {
    if k > 0 {
      Shift(x, k - 1);
      assert x + k * RANGE == x + (k - 1) * RANGE + RANGE;
    }
  }

  /**
   * A sleeper stays asleep exactly while a callback runs that is the one it saw, or one 2^63 (or a multiple) later.
   */
  lemma Asleep(steps: seq<Step>, c: nat)
    requires Run(Init, steps).Ok? && c in Run(Init, steps).state.waits
    ensures var s := Run(Init, steps).state;
      Apply(s, Wake(c)).Blocked? <==> s.running.Some? && (s.begun - s.waits[c].begun) % (RANGE / 2) == 0
  {
    hide LeftAlone;
    RunInv(steps);
    var s := Run(Init, steps).state;
    Parity(s);
    if s.running.Some? { SameStamp(s.waits[c].begun, s.begun); }
  }

  /**
   * When flush_timers or timer_delete_sync returns, every callback that had begun when it was called is over. When
   * timer_delete_sync returns and nobody armed its timer since, the timer is neither armed nor in its callback.
   */
  lemma SyncReturns(steps: seq<Step>, c: nat)
    requires Run(Init, steps).Ok? && c in Run(Init, steps).state.waits
    requires Apply(Run(Init, steps).state, Wake(c)).Ok?
    ensures var s := Run(Init, steps).state; var w := s.waits[c];
      && w.begun <= s.done
      && (w.timer.Some? && LeftAlone(s.mods, w.timer.value, w.mods) ==>
            w.timer.value !in s.armed && s.running != w.timer)
  {
    hide LeftAlone;
    RunInv(steps);
    Asleep(steps, c);
  }

  /** A call that need not sleep leaves the timer unarmed, with no callback running. */
  lemma SyncAtOnce(steps: seq<Step>, c: nat, t: nat)
    requires Run(Init, steps).Ok? && c !in Run(Init, steps).state.waits
    ensures var s := Run(Init, steps).state; var o := Apply(s, Call(c, Some(t)));
      o.Ok? && t !in o.state.armed && (c !in o.state.waits <==> o.state.running.None?)
  {
    RunInv(steps);
    Parity(Run(Init, steps).state);
  }

  // ------------------------------------------------------- the state as the run made it

  function Fires(steps: seq<Step>): nat {
    if |steps| == 0 then 0 else Fires(steps[..|steps| - 1]) + if steps[|steps| - 1].Fire? then 1 else 0
  }

  function Finishes(steps: seq<Step>): nat {
    if |steps| == 0 then 0 else Finishes(steps[..|steps| - 1]) + if steps[|steps| - 1].Finish? then 1 else 0
  }

  /** The timers armed, in order. */
  function Arms(steps: seq<Step>): seq<nat> {
    if |steps| == 0 then [] else Arms(steps[..|steps| - 1]) + if steps[|steps| - 1].Mod? then [steps[|steps| - 1].timer] else []
  }

  /** The last step that touched the timer armed it. */
  predicate Armed(steps: seq<Step>, t: nat)
    decreases |steps|
  {
    |steps| > 0 &&
    match steps[|steps| - 1]
    case Mod(x) => x == t || Armed(steps[..|steps| - 1], t)
    case Del(x) => x != t && Armed(steps[..|steps| - 1], t)
    case Fire(x) => x != t && Armed(steps[..|steps| - 1], t)
    case Call(_, what) => what != Some(t) && Armed(steps[..|steps| - 1], t)
    case _ => Armed(steps[..|steps| - 1], t)
  }

  /** The callback that began last, unless it has finished. */
  function Current(steps: seq<Step>): Option<nat>
    decreases |steps|
  {
    if |steps| == 0 then None
    else match steps[|steps| - 1]
      case Fire(x) => Some(x)
      case Finish => None
      case _ => Current(steps[..|steps| - 1])
  }

  /** After every run the heap holds the timers whose last step armed them, and the callback that runs is the last that began. */
  lemma {:induction false} StateIs(steps: seq<Step>, t: nat)
    requires Run(Init, steps).Ok?
    ensures var s := Run(Init, steps).state;
      && s.begun == Fires(steps) && s.done == Finishes(steps) && s.mods == Arms(steps)
      && s.running == Current(steps) && (t in s.armed <==> Armed(steps, t))
    decreases |steps|
  {
    if |steps| > 0 { StateIs(steps[..|steps| - 1], t); }
  }

  /** A timer fires exactly if it is armed and no callback runs; a callback that runs can finish; a call can always be made. */
  lemma StepsAre(steps: seq<Step>, t: nat, c: nat, what: Option<nat>)
    requires Run(Init, steps).Ok?
    ensures Run(Init, steps + [Fire(t)]).Ok? <==> Armed(steps, t) && Current(steps) == None
    ensures Run(Init, steps + [Finish]).Ok? <==> Current(steps).Some?
    ensures Run(Init, steps + [Mod(t)]).Ok? && Run(Init, steps + [Del(t)]).Ok?
    ensures c !in Run(Init, steps).state.waits ==>
      var o := Run(Init, steps + [Call(c, what)]);
      o.Ok? && (c in o.state.waits <==> Current(steps).Some?)
  {
    hide Armed, Current, Arms, Fires, Finishes, Inv;
    StateIs(steps, t);
    RunInv(steps);
    var s := Run(Init, steps).state;
    Parity(s);
    StepInv(s, Fire(t));
    Then(steps, Fire(t));
    Then(steps, Finish);
    Then(steps, Mod(t));
    Then(steps, Del(t));
    Then(steps, Call(c, what));
  }

  lemma Then(steps: seq<Step>, step: Step)
    requires Run(Init, steps).Ok?
    ensures Run(Init, steps + [step]) == Apply(Run(Init, steps).state, step)
  {
    hide Apply;
    assert (steps + [step])[..|steps|] == steps;
  }

  /** A sleeper's call is in the run, and the sleeper remembers how much of the run came before it. */
  lemma {:induction false} SleeperCalled(steps: seq<Step>, c: nat) returns (n: nat)
    requires Run(Init, steps).Ok? && c in Run(Init, steps).state.waits
    ensures n < |steps| && steps[n].Call? && steps[n].caller == c && Run(Init, steps[..n]).Ok?
    ensures var w := Run(Init, steps).state.waits[c]; w.timer == steps[n].what && w.begun == Fires(steps[..n]) && w.mods == |Arms(steps[..n])|
    decreases |steps|
  {
    hide Fires, Arms;
    var m := |steps| - 1;
    var s := Run(Init, steps[..m]).state;
    StateIs(steps[..m], 0);
    if c in s.waits {
      n := SleeperCalled(steps[..m], c);
      assert steps[..m][..n] == steps[..n];
    } else {
      n := m;
    }
  }

  lemma {:induction false} ArmsSince(steps: seq<Step>, n: nat, t: nat)
    requires n <= |steps| && forall i | n <= i < |steps| :: steps[i] != Mod(t)
    ensures |Arms(steps[..n])| <= |Arms(steps)| && Arms(steps)[..|Arms(steps[..n])|] == Arms(steps[..n]) && t !in Arms(steps)[|Arms(steps[..n])|..]
    decreases |steps|
  {
    if n == |steps| {
      assert steps[..n] == steps;
    } else {
      var m := |steps| - 1;
      ArmsSince(steps[..m], n, t);
      assert steps[..m][..n] == steps[..n];
      var a, k := Arms(steps[..m]), |Arms(steps[..n])|;
      assert Arms(steps)[k..] == a[k..] + Arms(steps)[|a|..];
    }
  }

  /**
   * When a call of flush_timers or timer_delete_sync that slept returns, every callback that had begun before the call
   * has finished; and if it was timer_delete_sync and the run did not arm the timer again after it, the timer is not
   * armed and is not the one whose callback runs.
   */
  lemma SyncRun(steps: seq<Step>, c: nat) returns (n: nat)
    requires Run(Init, steps).Ok? && c in Run(Init, steps).state.waits && Run(Init, steps + [Wake(c)]).Ok?
    ensures n < |steps| && steps[n].Call? && steps[n].caller == c && Fires(steps[..n]) <= Finishes(steps)
    ensures steps[n].what.Some? && (forall i | n <= i < |steps| :: steps[i] != Mod(steps[n].what.value)) ==>
      !Armed(steps, steps[n].what.value) && Current(steps) != steps[n].what
  {
    hide Apply, Fires, Finishes, Arms, Armed, Current;
    Then(steps, Wake(c));
    SyncReturns(steps, c);
    n := SleeperCalled(steps, c);
    StateIs(steps, 0);
    if steps[n].what.Some? && forall i | n <= i < |steps| :: steps[i] != Mod(steps[n].what.value) {
      StateIs(steps, steps[n].what.value);
      ArmsSince(steps, n, steps[n].what.value);
    }
  }
}
