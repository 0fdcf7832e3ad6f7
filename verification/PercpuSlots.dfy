/**
 * Per-CPU slots of linux/percpu.c: threads take a slot when they start and give it back when they exit. A step is a
 * section under bch_percpu_lock, except that the start of a thread on a new slot is cut where lock-free readers of
 * bch_percpu_nr_cpus can look: chunk installed, chunk initialised, slot published.
 */
module PercpuSlots {
  import opened Options

  const MAX_CPUS: nat := 256

  datatype State = State(
    nrCpus: nat,
    chunks: set<nat>,             // slots with a chunk
    ready: set<nat>,              // slots whose chunk has been initialised
    freeSlots: seq<nat>,
    mine: map<nat, nat>,          // the slot of each live thread
    starting: Option<nat>)        // the thread that is setting up a new slot and holds the lock

  const Init := State(0, {}, {}, [], map[], None)

  // A thread does Start, Initialise and Publish in this order on a new slot: the guard of Publish is that order.
  datatype Step = Start(thread: nat) | Initialise(thread: nat) | Publish(thread: nat) | Exit(thread: nat)

  /** Aborted: too many live threads. Overrun: a write past free_slots. */
  datatype Outcome = Ok(state: State) | Blocked | Aborted | Overrun

  function Apply(s: State, step: Step): Outcome {
    var t := step.thread;
    match step
    case Start(_) =>
      if t in s.mine || s.starting.Some? then Blocked
      else if |s.freeSlots| > 0 then
        Ok(s.(mine := s.mine[t := s.freeSlots[|s.freeSlots| - 1]], freeSlots := s.freeSlots[..|s.freeSlots| - 1]))
      else if s.nrCpus >= MAX_CPUS then Aborted
      else Ok(s.(mine := s.mine[t := s.nrCpus], chunks := s.chunks + {s.nrCpus}, starting := Some(t)))
    case Initialise(_) =>
      if s.starting != Some(t) || t !in s.mine then Blocked else Ok(s.(ready := s.ready + {s.mine[t]}))
    case Publish(_) =>
      if s.starting != Some(t) || t !in s.mine || s.mine[t] !in s.ready then Blocked
      else Ok(s.(nrCpus := s.mine[t] + 1, starting := None))
    case Exit(_) =>
      if t !in s.mine || s.starting.Some? then Blocked
      else if |s.freeSlots| >= MAX_CPUS then Overrun
      else Ok(s.(freeSlots := s.freeSlots + [s.mine[t]], mine := s.mine - {t}))
  }

  function Run(s: State, steps: seq<Step>): Outcome
    decreases |steps|
  {
    if |steps| == 0 then Ok(s)
    else
      var o := Run(s, steps[..|steps| - 1]);
      if o.Ok? then Apply(o.state, steps[|steps| - 1]) else o
  }

  /** Slots in use: the published ones, and one more while a thread sets it up. */
  function Slots(s: State): nat { s.nrCpus + if s.starting.Some? then 1 else 0 }

  /** The live thread holding each slot, and the free list, name every slot once and none twice. */
  ghost predicate Shared(mine: map<nat, nat>, free: seq<nat>, slots: nat) {
    && (forall t | t in mine :: mine[t] < slots && mine[t] !in free)
    && (forall t, u | t in mine && u in mine && mine[t] == mine[u] :: t == u)
    && (forall i | 0 <= i < |free| :: free[i] < slots)
    && (forall i, j | 0 <= i < j < |free| :: free[i] != free[j])
    && (forall id: nat | id < slots :: id in free || Held(mine, id))
    && |mine| + |free| == slots
  }

  ghost predicate Held(mine: map<nat, nat>, id: nat) { exists t | t in mine :: mine[t] == id }

  ghost predicate Inv(s: State) {
    && Shared(s.mine, s.freeSlots, Slots(s)) && Slots(s) <= MAX_CPUS
    && (s.starting.Some? ==> Claimed(s, s.starting.value))
    && (forall id: nat | id < s.nrCpus :: id in s.chunks && id in s.ready)
  }

  ghost predicate Claimed(s: State, t: nat) {
    t in s.mine && s.mine[t] == s.nrCpus && s.nrCpus in s.chunks && |s.freeSlots| == 0
  }

  lemma Removed(m: map<nat, nat>, t: nat)
    requires t in m
    ensures |m - {t}| == |m| - 1
  {
    assert (m - {t}).Keys == m.Keys - {t};
    assert |m - {t}| == |(m - {t}).Keys| && |m| == |m.Keys|;
  }

  lemma Added(m: map<nat, nat>, t: nat, id: nat)
    requires t !in m
    ensures |m[t := id]| == |m| + 1
  {
    assert m[t := id].Keys == m.Keys + {t};
    assert |m[t := id]| == |m[t := id].Keys| && |m| == |m.Keys|;
  }

  lemma Reused(mine: map<nat, nat>, free: seq<nat>, slots: nat, t: nat)
    requires Shared(mine, free, slots) && t !in mine && |free| > 0
    ensures Shared(mine[t := free[|free| - 1]], free[..|free| - 1], slots)
  {
    var id, rest := free[|free| - 1], free[..|free| - 1];
    var next := mine[t := id];
    Added(mine, t, id);
    assert id in free;
    forall k: nat | k < slots ensures k in rest || Held(next, k) {
      if k in free {
        if k == id { assert next[t] == k; }
      } else {
        var u :| u in mine && mine[u] == k;
        assert u in next && next[u] == k;
      }
    }
  }

  lemma Extended(mine: map<nat, nat>, slots: nat, t: nat)
    requires Shared(mine, [], slots) && t !in mine
    ensures Shared(mine[t := slots], [], slots + 1)
  {
    var next := mine[t := slots];
    Added(mine, t, slots);
    forall k: nat | k < slots + 1 ensures Held(next, k) {
      if k == slots { assert next[t] == k; } else {
        assert Held(mine, k);
        var u :| u in mine && mine[u] == k;
        assert u in next && next[u] == k;
      }
    }
  }

  lemma StillHeld(mine: map<nat, nat>, free: seq<nat>, slots: nat, t: nat)
    requires Shared(mine, free, slots) && t in mine
    ensures forall k: nat | k < slots :: k in free + [mine[t]] || Held(mine - {t}, k)
  {
    forall k: nat | k < slots ensures k in free + [mine[t]] || Held(mine - {t}, k) {
      if k in free { assert k in free + [mine[t]]; } else if k == mine[t] { assert (free + [mine[t]])[|free|] == k; } else {
        var u :| u in mine && mine[u] == k;
        assert u in mine - {t} && (mine - {t})[u] == k;
      }
    }
  }

  lemma Pushed(free: seq<nat>, id: nat)
    requires id !in free && forall i, j | 0 <= i < j < |free| :: free[i] != free[j]
    ensures forall i, j | 0 <= i < j < |free + [id]| :: (free + [id])[i] != (free + [id])[j]
    ensures forall x :: x in free + [id] <==> x in free || x == id
  {
    assert forall i | 0 <= i < |free| :: free[i] in free;
  }

  lemma Returned(mine: map<nat, nat>, free: seq<nat>, slots: nat, t: nat)
    requires Shared(mine, free, slots) && t in mine
    ensures |free| < slots && Shared(mine - {t}, free + [mine[t]], slots)
  {
    hide Held;
    Removed(mine, t);
    StillHeld(mine, free, slots, t);
    Pushed(free, mine[t]);
  }

  lemma StartInv(s: State, t: nat)
    requires Inv(s)
    ensures Apply(s, Start(t)).Ok? ==> Inv(Apply(s, Start(t)).state)
  {
    hide Shared;
    if t !in s.mine && s.starting.None? {
      if |s.freeSlots| > 0 { Reused(s.mine, s.freeSlots, s.nrCpus, t); } else {
        assert s.freeSlots == [];
        Extended(s.mine, s.nrCpus, t);
      }
    }
  }

  lemma InitialiseInv(s: State, t: nat)
    requires Inv(s)
    ensures Apply(s, Initialise(t)).Ok? ==> Inv(Apply(s, Initialise(t)).state)
  {
    hide Shared;
  }

  lemma PublishInv(s: State, t: nat)
    requires Inv(s)
    ensures Apply(s, Publish(t)).Ok? ==> Inv(Apply(s, Publish(t)).state)
  {
    hide Shared;
  }

  /**
   * Two live threads never share a slot, every slot is held or free, a published slot has an initialised chunk, and
   * free_slots is never overrun.
   */
  lemma StepInv(s: State, step: Step)
    requires Inv(s)
    ensures !Apply(s, step).Overrun?
    ensures Apply(s, step).Ok? ==> Inv(Apply(s, step).state)
  {
    hide Shared;
    match step
    case Start(t) => StartInv(s, t);
    case Initialise(t) => InitialiseInv(s, t);
    case Publish(t) => PublishInv(s, t);
    case Exit(t) => if t in s.mine { Returned(s.mine, s.freeSlots, Slots(s), t); }
  }

  lemma {:induction false} RunInv(steps: seq<Step>)
    ensures !Run(Init, steps).Overrun?
    ensures Run(Init, steps).Ok? ==> Inv(Run(Init, steps).state)
    decreases |steps|
  {
    hide Apply;
    if |steps| != 0 {
      var n := |steps| - 1;
      RunInv(steps[..n]);
      if Run(Init, steps[..n]).Ok? { StepInv(Run(Init, steps[..n]).state, steps[n]); }
    }
  }

  /**
   * What the two loops over the slots and the two calls of a thread may rely on after any run: a reader of
   * [0, nrCpus) finds initialised chunks; two live threads have different slots; and a new thread is turned away only
   * while 256 others are alive, however many have come and gone.
   */
  lemma AfterRun(steps: seq<Step>, t: nat, u: nat, id: nat)
    requires Run(Init, steps).Ok?
    ensures var s := Run(Init, steps).state;
      && (id < s.nrCpus ==> id in s.chunks && id in s.ready)
      && (t in s.mine && u in s.mine && t != u ==> s.mine[t] != s.mine[u])
      && (t !in s.mine && s.starting.None? ==> (Apply(s, Start(t)).Aborted? <==> |s.mine| == MAX_CPUS))
  {
    RunInv(steps);
  }

  // ---------------------------------------------------------------- a thread's calls

  lemma Then(s: State, steps: seq<Step>, step: Step)
    requires Run(s, steps).Ok?
    ensures Run(s, steps + [step]) == Apply(Run(s, steps).state, step)
  {
    hide Apply;
    assert (steps + [step])[..|steps|] == steps;
  }

  /** The steps of a thread's start: a slot that was given back is taken as it is, a new one is set up and published. */
  function Starting(s: State, t: nat): seq<Step> {
    if |s.freeSlots| > 0 then [Start(t)] else [Start(t), Initialise(t), Publish(t)]
  }

  /**
   * A thread that starts while fewer than 256 are alive gets a slot that nobody has: one given back if there is any,
   * and else the next one, which is then published with an initialised chunk; the others keep theirs.
   */
  lemma StartRuns(s: State, t: nat)
    requires Inv(s) && s.starting.None? && t !in s.mine && |s.mine| < MAX_CPUS
    ensures
      var o := Run(s, Starting(s, t));
      && o.Ok? && o.state.starting.None? && t in o.state.mine && o.state.mine == s.mine[t := o.state.mine[t]]
      && (forall u | u in s.mine :: s.mine[u] != o.state.mine[t])
      && if |s.freeSlots| > 0 then o.state.freeSlots + [o.state.mine[t]] == s.freeSlots && o.state.nrCpus == s.nrCpus
         else o.state.mine[t] == s.nrCpus && o.state.nrCpus == s.nrCpus + 1 && o.state.freeSlots == [] && s.nrCpus in o.state.chunks && s.nrCpus in o.state.ready
  {
    hide Run;
    Nothing(s);
    Then(s, [], Start(t));
    assert [] + [Start(t)] == [Start(t)];
    if |s.freeSlots| > 0 {
      var k := |s.freeSlots| - 1;
      assert s.freeSlots[k] in s.freeSlots && s.freeSlots == s.freeSlots[..k] + [s.freeSlots[k]];
    } else {
      assert s.freeSlots == [];
      Then(s, [Start(t)], Initialise(t));
      assert [Start(t)] + [Initialise(t)] == [Start(t), Initialise(t)];
      Then(s, [Start(t), Initialise(t)], Publish(t));
      assert [Start(t), Initialise(t)] + [Publish(t)] == [Start(t), Initialise(t), Publish(t)];
    }
  }

  lemma Nothing(s: State)
    ensures Run(s, []) == Ok(s)
  {}

  /** A thread that exits gives its slot back, and the next thread to start takes that one. */
  lemma ExitThenStart(s: State, t: nat, u: nat)
    requires Inv(s) && s.starting.None? && t in s.mine && (u !in s.mine || u == t)
    ensures Apply(s, Exit(t)).Ok? && Apply(s, Exit(t)).state.mine == s.mine - {t}
    ensures Run(s, [Exit(t), Start(u)]) == Ok(s.(mine := (s.mine - {t})[u := s.mine[t]]))
  {
    hide Run, Held;
    Returned(s.mine, s.freeSlots, s.nrCpus, t);
    Nothing(s);
    Then(s, [], Exit(t));
    assert [] + [Exit(t)] == [Exit(t)];
    Then(s, [Exit(t)], Start(u));
    assert [Exit(t)] + [Start(u)] == [Exit(t), Start(u)];
    assert (s.freeSlots + [s.mine[t]])[..|s.freeSlots|] == s.freeSlots;
  }
}
