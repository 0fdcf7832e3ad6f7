/**
 * The userspace workqueue (linux/workqueue.c) and the timer thread that feeds it (linux/timer.c),
 * as a state machine whose steps are the sections run under wq_lock or timer_lock.
 */
module Workqueue {
  import opened Options

  type Work = nat

  /** awake is state TASK_RUNNING; an idle worker that is not awake sleeps in schedule(). */
  datatype Worker = Worker(queue: nat, current: Option<Work>, awake: bool)

  datatype Queue = Queue(list: seq<Work>, maxActive: nat)

  /** The timer thread: waiting, about to run delayed_work_timer_fn, or past its critical section. */
  datatype TimerThread = Quiet | Firing(work: Work) | Fired

  datatype Op = CancelWorkSync | CancelDelayedSync | CancelDelayed | ModDelayed(queue: nat, delay: nat)

  /** A caller asleep in grab_pending's flush_timers, or in __flush_work with the pending bit in hand. */
  datatype Call = Flushing(work: Work, op: Op, seen: nat) | Waiting(work: Work)

  datatype State = State(
    queues: seq<Queue>,
    workers: seq<Worker>,
    pending: set<Work>,
    armed: set<Work>,         // entries of the pending_timers heap
    timerPending: set<Work>,  // timer->pending
    target: map<Work, nat>,   // dwork->wq
    timer: TimerThread,
    timerSeq: nat,
    calls: map<nat, Call>)

  datatype Outcome = Ok(state: State) | Blocked | Bug

  const WQ_DFL_ACTIVE: nat := 256

  const Init := State([], [], {}, {}, {}, map[], Quiet, 0, map[])

  // ------------------------------------------------------------ what code reads

  ghost predicate Runs(ws: seq<Worker>, i: nat, w: Work) { i < |ws| && ws[i].current == Some(w) }

  ghost predicate Running(ws: seq<Worker>, w: Work) { exists i :: Runs(ws, i, w) }

  predicate IdleAt(ws: seq<Worker>, i: nat, q: nat) { i < |ws| && ws[i].queue == q && ws[i].current == None }

  function NrIdle(ws: seq<Worker>, q: nat): nat {
    if |ws| == 0 then 0 else NrIdle(ws[..|ws| - 1], q) + if IdleAt(ws, |ws| - 1, q) then 1 else 0
  }

  function NrWorkers(ws: seq<Worker>, q: nat): nat {
    if |ws| == 0 then 0 else NrWorkers(ws[..|ws| - 1], q) + if ws[|ws| - 1].queue == q then 1 else 0
  }

  ghost predicate Listed(s: State, q: nat, w: Work) { q < |s.queues| && w in s.queues[q].list }

  /** list_empty(&work->entry) is false. */
  ghost predicate Linked(s: State, w: Work) { exists q :: Listed(s, q, w) }

  /** Index of the oldest item nobody is running, or |list|. */
  ghost function FirstRunnable(list: seq<Work>, ws: seq<Worker>): (k: nat)
    ensures k <= |list| && (k < |list| ==> !Running(ws, list[k])) && forall j | 0 <= j < k :: Running(ws, list[j])
  {
    if |list| == 0 then 0
    else if !Running(ws, list[0]) then 0
    else
      var k := FirstRunnable(list[1..], ws);
      assert forall j | 1 <= j < k + 1 :: list[j] == list[1..][j - 1];
      k + 1
  }

  // ------------------------------------------------------------------ sections

  /** wake_idle_workers. */
  function WakeIdle(ws: seq<Worker>, q: nat): (r: seq<Worker>)
    ensures |r| == |ws|
  {
    seq(|ws|, i requires 0 <= i < |ws| => if IdleAt(ws, i, q) then ws[i].(awake := true) else ws[i])
  }

  /** __queue_work. */
  ghost function Enqueue(s: State, q: nat, w: Work): Outcome {
    if q >= |s.queues| then Blocked
    else if w !in s.pending || Linked(s, w) then Bug
    else
      var queue := s.queues[q].(list := s.queues[q].list + [w]);
      var ws :=
        if |queue.list| > NrIdle(s.workers, q) && NrWorkers(s.workers, q) < queue.maxActive
        then s.workers + [Worker(q, None, true)] else s.workers;
      Ok(s.(queues := s.queues[q := queue], workers := WakeIdle(ws, q)))
  }

  /** __queue_delayed_work, add_timer included. */
  ghost function EnqueueDelayed(s: State, q: nat, w: Work, delay: nat): Outcome {
    if w in s.timerPending || Linked(s, w) then Bug
    else if delay == 0 then Enqueue(s, q, w)
    else if q >= |s.queues| then Blocked
    else Ok(s.(target := s.target[w := q], armed := s.armed + {w}, timerPending := s.timerPending + {w}))
  }

  ghost function Unlist(queues: seq<Queue>, w: Work): (r: seq<Queue>)
    ensures |r| == |queues|
  {
    seq(|queues|, q requires 0 <= q < |queues| => queues[q].(list := Without(queues[q].list, w)))
  }

  function Without(list: seq<Work>, w: Work): (r: seq<Work>)
    ensures forall x :: x in r <==> x in list && x != w
    ensures |r| <= |list|
  {
    if |list| == 0 then []
    else if list[0] == w then Without(list[1..], w)
    else [list[0]] + Without(list[1..], w)
  }

  /** One pass of grab_pending, and what the caller does with the bit in the same section. */
  ghost function Grab(s: State, c: nat, w: Work, op: Op): Outcome {
    if op.ModDelayed? && op.queue >= |s.queues| then Blocked
    else if w !in s.pending then
      if Linked(s, w) then Bug else Keep(s.(pending := s.pending + {w}), c, w, op)
    else if op != CancelWorkSync && w in s.armed then
      if Linked(s, w) then Bug else Keep(s.(armed := s.armed - {w}, timerPending := s.timerPending - {w}), c, w, op)
    else if Linked(s, w) then
      var t := if op == CancelWorkSync then s.timerPending else s.timerPending - {w};
      Keep(s.(queues := Unlist(s.queues, w), timerPending := t), c, w, op)
    else if op == CancelWorkSync then Bug
    else Ok(s.(timerPending := s.timerPending - {w}, calls := s.calls[c := Flushing(w, op, s.timerSeq)]))
  }

  /** __flush_work and clear_work_pending: one section with the grab, unless the item is running. */
  ghost function Settle(s: State, c: nat, w: Work): State {
    if Running(s.workers, w) then s.(calls := s.calls[c := Waiting(w)])
    else s.(pending := s.pending - {w}, calls := s.calls - {c})
  }

  /** After the grab: wait for the running instance, drop the bit, or queue afresh. */
  ghost function Keep(s: State, c: nat, w: Work, op: Op): Outcome {
    match op
    case CancelWorkSync => Ok(Settle(s, c, w))
    case CancelDelayedSync => Ok(Settle(s, c, w))
    case CancelDelayed => Ok(s.(pending := s.pending - {w}, calls := s.calls - {c}))
    case ModDelayed(q, delay) => EnqueueDelayed(s.(calls := s.calls - {c}), q, w, delay)
  }

  /** One pass of the worker loop for a worker that runs nothing. */
  ghost function Iterate(s: State, i: nat): Outcome
    requires i < |s.workers|
  {
    var q := s.workers[i].queue;
    if q >= |s.queues| then Blocked
    else
      var list := s.queues[q].list;
      var k := FirstRunnable(list, s.workers);
      if k == |list| then Ok(s.(workers := s.workers[i := Worker(q, None, false)]))
      else if list[k] !in s.pending then Bug
      else Ok(s.(queues := s.queues[q := s.queues[q].(list := list[..k] + list[k + 1..])],
                 pending := s.pending - {list[k]},
                 workers := s.workers[i := Worker(q, Some(list[k]), true)]))
  }

  ghost function FinishWork(s: State, i: nat): Outcome
    requires i < |s.workers|
  {
    var q := s.workers[i].queue;
    var ws := s.workers[i := s.workers[i].(current := None)];
    if q >= |s.queues| then Blocked
    else Iterate(s.(workers := if s.queues[q].list == [] then ws else WakeIdle(ws, q)), i)
  }

  datatype Step =
    | Alloc(maxActive: int)
    | QueueWork(queue: nat, work: Work)
    | QueueDelayed(queue: nat, work: Work, delay: nat)
    | Loop(worker: nat)
    | Finish(worker: nat)
    | TimerFire(work: Work)
    | TimerQueue
    | TimerDone
    | Start(caller: nat, work: Work, op: Op)
    | Again(caller: nat)
    | Return(caller: nat)

  ghost function Apply(s: State, step: Step): Outcome {
    match step
    case Alloc(max) => Ok(s.(queues := s.queues + [Queue([], if max > 0 then max else WQ_DFL_ACTIVE)]))
    case QueueWork(q, w) =>
      if w in s.pending then Ok(s) else Enqueue(s.(pending := s.pending + {w}), q, w)
    case QueueDelayed(q, w, delay) =>
      if w in s.pending then Ok(s) else EnqueueDelayed(s.(pending := s.pending + {w}), q, w, delay)
    case Loop(i) =>
      if i < |s.workers| && s.workers[i].current == None && s.workers[i].awake then Iterate(s, i) else Blocked
    case Finish(i) =>
      if i < |s.workers| && s.workers[i].current != None then FinishWork(s, i) else Blocked
    case TimerFire(w) =>
      if s.timer != Quiet || w !in s.armed then Blocked
      else if w !in s.timerPending || (s.timerSeq + 1) % 2 == 0 then Bug
      else Ok(s.(armed := s.armed - {w}, timerPending := s.timerPending - {w}, timer := Firing(w), timerSeq := s.timerSeq + 1))
    case TimerQueue =>
      if !s.timer.Firing? then Blocked
      else if s.timer.work !in s.target then Bug
      else Enqueue(s.(timer := Fired), s.target[s.timer.work], s.timer.work)
    case TimerDone =>
      if s.timer != Fired then Blocked else Ok(s.(timer := Quiet, timerSeq := s.timerSeq + 1))
    case Start(c, w, op) =>
      if c in s.calls then Blocked else Grab(s, c, w, op)
    case Again(c) =>
      if c !in s.calls || !s.calls[c].Flushing? then Blocked
      else if s.timerSeq % 2 == 1 && s.calls[c].seen == s.timerSeq then Blocked
      else Grab(s, c, s.calls[c].work, s.calls[c].op)
    case Return(c) =>
      if c !in s.calls || !s.calls[c].Waiting? || Running(s.workers, s.calls[c].work) then Blocked
      else Ok(s.(pending := s.pending - {s.calls[c].work}, calls := s.calls - {c}))
  }

  /** What a sequence of steps does; it stops at the first that is blocked or trips a BUG_ON. */
  ghost function Run(s: State, steps: seq<Step>): Outcome
    decreases |steps|
  {
    if |steps| == 0 then Ok(s)
    else
      var o := Run(s, steps[..|steps| - 1]);
      if o.Ok? then Apply(o.state, steps[|steps| - 1]) else o
  }

  // ------------------------------------------------------- who owns the pending bit

  datatype Place = InQueue(queue: nat) | InTimer | InCallback | InHand(caller: nat)

  ghost predicate At(s: State, w: Work, p: Place) {
    match p
    case InQueue(q) => Listed(s, q, w)
    case InTimer => w in s.armed
    case InCallback => s.timer == Firing(w)
    case InHand(c) => c in s.calls && s.calls[c] == Waiting(w)
  }

  /** The pending bit is set exactly for the items that are in some place, and no item is in two. */
  ghost predicate Owned(s: State) {
    && (forall w, p | At(s, w, p) :: w in s.pending)
    && (forall w | w in s.pending :: exists p :: At(s, w, p))
    && (forall w, p, p' | At(s, w, p) && At(s, w, p') :: p == p')
  }

  predicate NoDup(list: seq<Work>) { forall i, j | 0 <= i < j < |list| :: list[i] != list[j] }

  ghost predicate Lists(s: State) { forall q | 0 <= q < |s.queues| :: NoDup(s.queues[q].list) }

  /** No item is the current_work of two workers. */
  ghost predicate Exclusive(ws: seq<Worker>) {
    forall i, j, w | Runs(ws, i, w) && Runs(ws, j, w) :: i == j
  }

  ghost predicate Sane(s: State) {
    && s.timerPending == s.armed
    && (s.timerSeq % 2 == 1 <==> s.timer != Quiet)
    && (forall w | w in s.armed || s.timer == Firing(w) :: w in s.target && s.target[w] < |s.queues|)
    && (forall i | 0 <= i < |s.workers| :: s.workers[i].queue < |s.queues|)
    && (forall c | c in s.calls && s.calls[c].Flushing? :: s.calls[c].op != CancelWorkSync)
  }

  /** Room for the queued work: a free worker for each item, unless the queue is at its limit. */
  ghost predicate Ample(s: State, q: nat)
    requires q < |s.queues|
  {
    && NrWorkers(s.workers, q) <= s.queues[q].maxActive
    && (|s.queues[q].list| <= NrIdle(s.workers, q) || NrWorkers(s.workers, q) == s.queues[q].maxActive)
  }

  ghost predicate AllAmple(s: State) { forall q | 0 <= q < |s.queues| :: Ample(s, q) }

  ghost predicate Rest(s: State) { Exclusive(s.workers) && Sane(s) && AllAmple(s) }

  ghost predicate Inv(s: State) {
    Owned(s) && Lists(s) && Rest(s)
  }

  /** Owned, for every item but w. */
  ghost predicate OwnedBut(s: State, w: Work) {
    && (forall x, p | x != w && At(s, x, p) :: x in s.pending)
    && (forall x | x != w && x in s.pending :: exists p :: At(s, x, p))
    && (forall x, p, p' | x != w && At(s, x, p) && At(s, x, p') :: p == p')
  }

  ghost predicate SameBut(s: State, s': State, w: Work) {
    && (forall x, p | x != w :: At(s', x, p) <==> At(s, x, p))
    && (forall x | x != w :: x in s'.pending <==> x in s.pending)
  }

  ghost predicate Nowhere(s: State, w: Work) { forall p :: !At(s, w, p) }

  /** The bit is set and belongs to the section now holding wq_lock. */
  ghost predicate Loose(s: State, w: Work) {
    OwnedBut(s, w) && Nowhere(s, w) && w in s.pending
  }

  lemma Loosened(s: State, s': State, w: Work)
    requires OwnedBut(s, w) && SameBut(s, s', w) && Nowhere(s', w) && w in s'.pending
    ensures Loose(s', w)
  {
    hide At;
    forall x | x != w && x in s'.pending ensures exists p :: At(s', x, p) {
      var p :| At(s, x, p);
      assert At(s', x, p);
    }
  }

  /** w ends in one place, or in none with its bit clear; the others stay where they were. */
  lemma Moved(s: State, s': State, w: Work, to: Option<Place>)
    requires OwnedBut(s, w) && SameBut(s, s', w)
    requires forall p :: At(s', w, p) <==> to == Some(p)
    requires w in s'.pending <==> to.Some?
    ensures Owned(s')
  {
    hide At;
    forall x | x in s'.pending ensures exists p :: At(s', x, p) {
      if x == w {
        assert At(s', w, to.value);
      } else {
        var p :| At(s, x, p);
        assert At(s', x, p);
      }
    }
  }

  lemma OneFewer(s: State, w: Work, p: Place)
    requires Owned(s) && At(s, w, p)
    ensures OwnedBut(s, w) && w in s.pending && forall p' | At(s, w, p') :: p' == p
  {}

  lemma UnownedNowhere(s: State, w: Work)
    requires Owned(s) && w !in s.pending
    ensures OwnedBut(s, w) && Nowhere(s, w)
  {}

  lemma LooseUnlinked(s: State, w: Work)
    requires Nowhere(s, w)
    ensures !Linked(s, w)
  {
    forall q ensures !Listed(s, q, w) {
      assert q >= 0 ==> !At(s, w, InQueue(q));
    }
  }

  // ------------------------------------------------------------- placing the bit

  lemma EnqueueOwned(s: State, q: nat, w: Work)
    requires Loose(s, w) && Lists(s) && q < |s.queues|
    ensures Enqueue(s, q, w).Ok?
    ensures Owned(Enqueue(s, q, w).state) && Lists(Enqueue(s, q, w).state)
  {
    hide NrIdle, NrWorkers, WakeIdle;
    LooseUnlinked(s, w);
    var s' := Enqueue(s, q, w).state;
    assert forall k: nat, x | k < |s.queues| :: x in s'.queues[k].list <==> x in s.queues[k].list || (k == q && x == w);
    forall p ensures At(s', w, p) <==> p == InQueue(q) {
      assert !At(s, w, p);
    }
    forall x, p | x != w ensures At(s', x, p) <==> At(s, x, p) {}
    Moved(s, s', w, Some(InQueue(q)));
    assert !Listed(s, q, w);
    assert NoDup(s.queues[q].list + [w]);
  }

  lemma ArmOwned(s: State, q: nat, w: Work, delay: nat)
    requires Loose(s, w) && Lists(s) && q < |s.queues| && s.timerPending == s.armed
    ensures EnqueueDelayed(s, q, w, delay).Ok?
    ensures Owned(EnqueueDelayed(s, q, w, delay).state) && Lists(EnqueueDelayed(s, q, w, delay).state)
  {
    hide Enqueue;
    LooseUnlinked(s, w);
    assert !At(s, w, InTimer);
    if delay == 0 {
      EnqueueOwned(s, q, w);
    } else {
      var s' := EnqueueDelayed(s, q, w, delay).state;
      forall p ensures At(s', w, p) <==> p == InTimer {
        assert !At(s, w, p);
      }
      Moved(s, s', w, Some(InTimer));
    }
  }

  lemma HandOwned(s: State, c: nat, w: Work)
    requires Loose(s, w) && (c in s.calls ==> s.calls[c].Flushing?)
    ensures Owned(s.(calls := s.calls[c := Waiting(w)]))
  {
    var s' := s.(calls := s.calls[c := Waiting(w)]);
    forall p ensures At(s', w, p) <==> p == InHand(c) {
      assert !At(s, w, p);
    }
    Moved(s, s', w, Some(InHand(c)));
  }

  lemma DropOwned(s: State, w: Work)
    requires Loose(s, w)
    ensures Owned(s.(pending := s.pending - {w}))
  {
    var s' := s.(pending := s.pending - {w});
    forall p ensures !At(s', w, p) { assert !At(s, w, p); }
    Moved(s, s', w, None);
  }

  // -------------------------------------------------------------- taking the bit

  lemma TakeFree(s: State, w: Work)
    requires Owned(s) && w !in s.pending
    ensures Loose(s.(pending := s.pending + {w}), w)
  {
    var s' := s.(pending := s.pending + {w});
    UnownedNowhere(s, w);
    forall p ensures !At(s', w, p) { assert !At(s, w, p); }
    Loosened(s, s', w);
  }

  lemma TakeArmed(s: State, w: Work)
    requires Owned(s) && w in s.armed
    ensures Loose(s.(armed := s.armed - {w}, timerPending := s.timerPending - {w}), w)
  {
    var s' := s.(armed := s.armed - {w}, timerPending := s.timerPending - {w});
    OneFewer(s, w, InTimer);
    forall p ensures !At(s', w, p) { assert At(s, w, p) ==> p == InTimer; }
    Loosened(s, s', w);
  }

  lemma TakeListed(s: State, w: Work, q: nat, t: set<Work>)
    requires Owned(s) && Listed(s, q, w)
    ensures Loose(s.(queues := Unlist(s.queues, w), timerPending := t), w)
  {
    var s' := s.(queues := Unlist(s.queues, w), timerPending := t);
    OneFewer(s, w, InQueue(q));
    forall p ensures !At(s', w, p) { assert At(s, w, p) ==> p == InQueue(q); }
    Loosened(s, s', w);
  }

  lemma TakeFiring(s: State, w: Work)
    requires Owned(s) && s.timer == Firing(w)
    ensures Loose(s.(timer := Fired), w)
  {
    var s' := s.(timer := Fired);
    OneFewer(s, w, InCallback);
    forall p ensures !At(s', w, p) { assert At(s, w, p) ==> p == InCallback; }
    Loosened(s, s', w);
  }

  lemma TakeHeld(s: State, c: nat, w: Work)
    requires Owned(s) && c in s.calls && s.calls[c] == Waiting(w)
    ensures Loose(s.(calls := s.calls - {c}), w)
  {
    var s' := s.(calls := s.calls - {c});
    OneFewer(s, w, InHand(c));
    forall p ensures !At(s', w, p) { assert At(s, w, p) ==> p == InHand(c); }
    Loosened(s, s', w);
  }

  lemma {:induction false} WithoutNoDup(list: seq<Work>, w: Work)
    requires NoDup(list)
    ensures NoDup(Without(list, w))
    decreases |list|
  {
    if |list| != 0 {
      var r := Without(list[1..], w);
      WithoutNoDup(list[1..], w);
      assert list[0] !in list[1..];
      forall i, j | 0 <= i < j < |([list[0]] + r)| ensures ([list[0]] + r)[i] != ([list[0]] + r)[j] {
        if i == 0 { assert r[j - 1] in r; }
      }
    }
  }

  lemma UnlistLists(s: State, w: Work)
    requires Lists(s)
    ensures forall q | 0 <= q < |s.queues| :: NoDup(Unlist(s.queues, w)[q].list)
  {
    forall q | 0 <= q < |s.queues| ensures NoDup(Unlist(s.queues, w)[q].list) {
      WithoutNoDup(s.queues[q].list, w);
    }
  }

  // ------------------------------------------------------------ the worker's step

  lemma TakeFirst(s: State, q: nat, k: nat, ws: seq<Worker>)
    requires Owned(s) && Lists(s) && q < |s.queues| && k < |s.queues[q].list|
    ensures s.queues[q].list[k] in s.pending
    ensures
      var list := s.queues[q].list;
      var s' := s.(queues := s.queues[q := s.queues[q].(list := list[..k] + list[k + 1..])], pending := s.pending - {list[k]}, workers := ws);
      Owned(s') && Lists(s')
  {
    var list := s.queues[q].list;
    var w := list[k];
    var rest := list[..k] + list[k + 1..];
    var s' := s.(queues := s.queues[q := s.queues[q].(list := rest)], pending := s.pending - {w}, workers := ws);
    assert Listed(s, q, w) && At(s, w, InQueue(q));
    OneFewer(s, w, InQueue(q));
    RestOf(list, k);
    forall p ensures !At(s', w, p) { assert At(s, w, p) ==> p == InQueue(q); }
    forall x, p | x != w ensures At(s', x, p) <==> At(s, x, p) {}
    Moved(s, s', w, None);
  }

  lemma RestOf(list: seq<Work>, k: nat)
    requires NoDup(list) && k < |list|
    ensures NoDup(list[..k] + list[k + 1..]) && forall x :: x in list[..k] + list[k + 1..] <==> x in list && x != list[k]
  {
    var rest := list[..k] + list[k + 1..];
    forall x ensures x in rest <==> x in list && x != list[k] {
      if x in list && x != list[k] {
        var j :| 0 <= j < |list| && list[j] == x;
        assert rest[if j < k then j else j - 1] == x;
      }
    }
  }

  lemma SameWorkersOwned(s: State, ws: seq<Worker>)
    requires Owned(s) && Lists(s)
    ensures Owned(s.(workers := ws)) && Lists(s.(workers := ws))
  {
    var s' := s.(workers := ws);
    assert forall x, p :: At(s', x, p) <==> At(s, x, p);
    forall x | x in s'.pending ensures exists p :: At(s', x, p) {
      var p :| At(s, x, p);
      assert At(s', x, p);
    }
  }

  lemma IterateOwned(s: State, i: nat)
    requires Owned(s) && Lists(s) && i < |s.workers| && s.workers[i].queue < |s.queues|
    ensures Iterate(s, i).Ok? && Owned(Iterate(s, i).state) && Lists(Iterate(s, i).state)
  {
    hide Owned, Lists;
    var q := s.workers[i].queue;
    var list := s.queues[q].list;
    var k := FirstRunnable(list, s.workers);
    if k == |list| {
      SameWorkersOwned(s, s.workers[i := Worker(q, None, false)]);
    } else {
      TakeFirst(s, q, k, s.workers[i := Worker(q, Some(list[k]), true)]);
    }
  }

  lemma FinishOwned(s: State, i: nat)
    requires Owned(s) && Lists(s) && i < |s.workers| && s.workers[i].queue < |s.queues|
    ensures FinishWork(s, i).Ok? && Owned(FinishWork(s, i).state) && Lists(FinishWork(s, i).state)
  {
    hide Owned, Lists, Iterate;
    var q := s.workers[i].queue;
    var ws := s.workers[i := s.workers[i].(current := None)];
    var ws' := if s.queues[q].list == [] then ws else WakeIdle(ws, q);
    SameWorkersOwned(s, ws');
    IterateOwned(s.(workers := ws'), i);
  }

  // -------------------------------------------------------------- grab_pending

  lemma KeepOwned(s: State, c: nat, w: Work, op: Op)
    requires Loose(s, w) && Lists(s) && s.timerPending == s.armed && (c in s.calls ==> s.calls[c].Flushing?)
    requires op.ModDelayed? ==> op.queue < |s.queues|
    ensures Keep(s, c, w, op).Ok? && Owned(Keep(s, c, w, op).state) && Lists(Keep(s, c, w, op).state)
  {
    hide Owned, Lists, Loose, EnqueueDelayed, Running;
    LeaveCall(s, c, w);
    DropOwned(s.(calls := s.calls - {c}), w);
    HandOwned(s, c, w);
    match op
    case ModDelayed(q, delay) => ArmOwned(s.(calls := s.calls - {c}), q, w, delay);
    case _ => SameLists(s, Keep(s, c, w, op).state);
  }

  lemma SameLists(s: State, s': State)
    requires Lists(s) && s'.queues == s.queues
    ensures Lists(s')
  {}

  lemma LeaveCall(s: State, c: nat, w: Work)
    requires Loose(s, w) && Lists(s) && (c in s.calls ==> s.calls[c].Flushing?)
    ensures Loose(s.(calls := s.calls - {c}), w) && Lists(s.(calls := s.calls - {c}))
  {
    var s' := s.(calls := s.calls - {c});
    forall p ensures !At(s', w, p) { assert !At(s, w, p); }
    Loosened(s, s', w);
  }

  /** cancel_work_sync finds the bit with a timer, a timer callback or another canceller. */
  ghost predicate Misused(s: State, w: Work) {
    w in s.armed || s.timer == Firing(w) || exists c :: At(s, w, InHand(c))
  }

  lemma MisusedIs(s: State, w: Work)
    requires Owned(s)
    ensures w in s.pending && !Linked(s, w) <==> Misused(s, w)
  {
    if w in s.pending {
      var p :| At(s, w, p);
      match p
      case InQueue(q) => assert Listed(s, q, w); OneFewer(s, w, p); assert !At(s, w, InTimer) && !At(s, w, InCallback);
      case InTimer => NotListed(s, w, p);
      case InCallback => NotListed(s, w, p);
      case InHand(c) => NotListed(s, w, p);
    } else {
      assert !At(s, w, InTimer) && !At(s, w, InCallback);
    }
  }

  lemma NotListed(s: State, w: Work, p: Place)
    requires Owned(s) && At(s, w, p) && !p.InQueue?
    ensures !Linked(s, w)
  {
    if Linked(s, w) {
      var q :| Listed(s, q, w);
      assert At(s, w, InQueue(q));
    }
  }

  lemma GrabOwned(s: State, c: nat, w: Work, op: Op)
    requires Owned(s) && Lists(s) && s.timerPending == s.armed && (c in s.calls ==> s.calls[c].Flushing?)
    requires op.ModDelayed? ==> op.queue < |s.queues|
    ensures Grab(s, c, w, op).Bug? <==> op == CancelWorkSync && Misused(s, w)
    ensures !Grab(s, c, w, op).Blocked?
    ensures Grab(s, c, w, op).Ok? ==> Owned(Grab(s, c, w, op).state) && Lists(Grab(s, c, w, op).state)
  {
    hide Keep, Owned, Lists, Misused, Linked, At, Loose;
    MisusedIs(s, w);
    if w !in s.pending {
      TakeFree(s, w);
      Unlinked(s, w);
      var s1 := s.(pending := s.pending + {w});
      SameLists(s, s1);
      KeepOwned(s1, c, w, op);
    } else if op != CancelWorkSync && w in s.armed {
      ArmedUnlinked(s, w);
      TakeArmed(s, w);
      var s1 := s.(armed := s.armed - {w}, timerPending := s.timerPending - {w});
      SameLists(s, s1);
      KeepOwned(s1, c, w, op);
    } else if Linked(s, w) {
      GrabListed(s, c, w, op);
    } else if op != CancelWorkSync {
      FlushOwned(s, c, w, op);
    }
  }

  lemma Unlinked(s: State, w: Work)
    requires Owned(s) && w !in s.pending
    ensures !Linked(s, w)
  {
    UnownedNowhere(s, w);
    LooseUnlinked(s, w);
  }

  lemma ArmedUnlinked(s: State, w: Work)
    requires Owned(s) && w in s.armed
    ensures !Linked(s, w)
  {
    NotListed(s, w, InTimer);
  }

  lemma GrabListed(s: State, c: nat, w: Work, op: Op)
    requires Owned(s) && Lists(s) && s.timerPending == s.armed && (c in s.calls ==> s.calls[c].Flushing?)
    requires op.ModDelayed? ==> op.queue < |s.queues|
    requires Linked(s, w) && w in s.pending && (op == CancelWorkSync || w !in s.armed)
    ensures Grab(s, c, w, op).Ok? && Owned(Grab(s, c, w, op).state) && Lists(Grab(s, c, w, op).state)
  {
    hide Keep, Owned, Lists, Misused, At, Loose, Without;
    var q :| Listed(s, q, w);
    var t := if op == CancelWorkSync then s.timerPending else s.timerPending - {w};
    assert t == s.armed;
    var s1 := s.(queues := Unlist(s.queues, w), timerPending := t);
    TakeListed(s, w, q, t);
    UnlistLists(s, w);
    assert Lists(s1) by { ListsFrom(s1); }
    KeepOwned(s1, c, w, op);
  }

  lemma ListsFrom(s: State)
    requires forall q | 0 <= q < |s.queues| :: NoDup(s.queues[q].list)
    ensures Lists(s)
  {}

  lemma FlushOwned(s: State, c: nat, w: Work, op: Op)
    requires Owned(s) && Lists(s) && s.timerPending == s.armed && (c in s.calls ==> s.calls[c].Flushing?)
    ensures
      var s' := s.(timerPending := s.timerPending - {w}, calls := s.calls[c := Flushing(w, op, s.timerSeq)]);
      Owned(s') && Lists(s')
  {
    var s' := s.(timerPending := s.timerPending - {w}, calls := s.calls[c := Flushing(w, op, s.timerSeq)]);
    assert forall x, p :: At(s', x, p) <==> At(s, x, p);
    forall x | x in s'.pending ensures exists p :: At(s', x, p) {
      var p :| At(s, x, p);
      assert At(s', x, p);
    }
  }

  // -------------------------------------------------------------- who runs what

  /** ws' runs what ws runs, worker for worker; any further workers are idle. */
  ghost predicate SameCurrents(ws: seq<Worker>, ws': seq<Worker>) {
    && |ws| <= |ws'|
    && (forall i | 0 <= i < |ws| :: ws'[i].current == ws[i].current && ws'[i].queue == ws[i].queue)
    && (forall i | |ws| <= i < |ws'| :: ws'[i].current == None)
  }

  lemma SameCurrentsRuns(ws: seq<Worker>, ws': seq<Worker>)
    requires SameCurrents(ws, ws')
    ensures forall i, w :: Runs(ws', i, w) <==> Runs(ws, i, w)
    ensures forall w :: Running(ws', w) <==> Running(ws, w)
    ensures Exclusive(ws) ==> Exclusive(ws')
  {
    forall w ensures Running(ws', w) <==> Running(ws, w) {
      if Running(ws, w) { var i :| Runs(ws, i, w); assert Runs(ws', i, w); }
      if Running(ws', w) { var i :| Runs(ws', i, w); assert Runs(ws, i, w); }
    }
  }

  lemma IterateExclusive(s: State, i: nat)
    requires Exclusive(s.workers) && i < |s.workers| && s.workers[i].current == None && Iterate(s, i).Ok?
    ensures Exclusive(Iterate(s, i).state.workers)
  {
    var s' := Iterate(s, i).state;
    var list := s.queues[s.workers[i].queue].list;
    var k := FirstRunnable(list, s.workers);
    forall a, b, w | Runs(s'.workers, a, w) && Runs(s'.workers, b, w) ensures a == b {
      assert a != i ==> Runs(s.workers, a, w);
      assert b != i ==> Runs(s.workers, b, w);
    }
  }

  lemma ClearExclusive(ws: seq<Worker>, i: nat)
    requires Exclusive(ws) && i < |ws|
    ensures Exclusive(ws[i := ws[i].(current := None)])
  {
    var ws' := ws[i := ws[i].(current := None)];
    forall a, b, w | Runs(ws', a, w) && Runs(ws', b, w) ensures a == b {
      assert Runs(ws, a, w) && Runs(ws, b, w);
    }
  }

  // ------------------------------------------------------------------ counting

  lemma {:induction false} NrIdleSame(ws: seq<Worker>, ws': seq<Worker>, q: nat)
    requires |ws| == |ws'| && forall i | 0 <= i < |ws| :: IdleAt(ws, i, q) == IdleAt(ws', i, q)
    ensures NrIdle(ws, q) == NrIdle(ws', q)
    decreases |ws|
  {
    if |ws| != 0 {
      var n := |ws| - 1;
      forall i | 0 <= i < n ensures IdleAt(ws[..n], i, q) == IdleAt(ws'[..n], i, q) {
        assert IdleAt(ws, i, q) == IdleAt(ws', i, q);
      }
      NrIdleSame(ws[..n], ws'[..n], q);
      assert IdleAt(ws, n, q) == IdleAt(ws', n, q);
    }
  }

  lemma {:induction false} NrWorkersSame(ws: seq<Worker>, ws': seq<Worker>, q: nat)
    requires |ws| == |ws'| && forall i | 0 <= i < |ws| :: ws[i].queue == ws'[i].queue
    ensures NrWorkers(ws, q) == NrWorkers(ws', q)
    decreases |ws|
  {
    if |ws| != 0 {
      var n := |ws| - 1;
      NrWorkersSame(ws[..n], ws'[..n], q);
    }
  }

  function One(b: bool): nat { if b then 1 else 0 }

  lemma {:induction false} NrIdleUpdate(ws: seq<Worker>, i: nat, x: Worker, q: nat)
    requires i < |ws|
    ensures NrIdle(ws[i := x], q) + One(IdleAt(ws, i, q)) == NrIdle(ws, q) + One(IdleAt(ws[i := x], i, q))
    decreases |ws|
  {
    var n := |ws| - 1;
    var ws' := ws[i := x];
    if i == n {
      assert ws'[..n] == ws[..n];
    } else {
      assert ws'[..n] == ws[..n][i := x];
      NrIdleUpdate(ws[..n], i, x, q);
      assert IdleAt(ws', n, q) == IdleAt(ws, n, q);
      assert IdleAt(ws'[..n], i, q) == IdleAt(ws', i, q);
      assert IdleAt(ws[..n], i, q) == IdleAt(ws, i, q);
    }
  }

  lemma NrAppend(ws: seq<Worker>, x: Worker, q: nat)
    ensures NrIdle(ws + [x], q) == NrIdle(ws, q) + One(x.queue == q && x.current == None)
    ensures NrWorkers(ws + [x], q) == NrWorkers(ws, q) + One(x.queue == q)
  {
    assert (ws + [x])[..|ws|] == ws;
  }

  lemma NrWake(ws: seq<Worker>, q: nat, k: nat)
    ensures NrIdle(WakeIdle(ws, q), k) == NrIdle(ws, k) && NrWorkers(WakeIdle(ws, q), k) == NrWorkers(ws, k)
  {
    NrIdleSame(ws, WakeIdle(ws, q), k);
    NrWorkersSame(ws, WakeIdle(ws, q), k);
  }

  // --------------------------------------- the rest of the invariant, section by section

  lemma GrowAmple(s: State, q: nat, w: Work)
    requires AllAmple(s) && Enqueue(s, q, w).Ok?
    ensures AllAmple(Enqueue(s, q, w).state)
  {
    hide WakeIdle, NrIdle, NrWorkers, Linked;
    var s' := Enqueue(s, q, w).state;
    var x := Worker(q, None, true);
    forall k: nat | k < |s'.queues| ensures Ample(s', k) {
      assert Ample(s, k) && Ample(s, q);
      NrAppend(s.workers, x, k);
      NrAppend(s.workers, x, q);
      NrWake(s.workers, q, k);
      NrWake(s.workers + [x], q, k);
    }
  }

  lemma EnqueueRest(s: State, q: nat, w: Work)
    requires Rest(s) && Enqueue(s, q, w).Ok?
    ensures Rest(Enqueue(s, q, w).state)
  {
    hide NrIdle, NrWorkers, Linked, AllAmple, Exclusive;
    var s' := Enqueue(s, q, w).state;
    GrowAmple(s, q, w);
    assert SameCurrents(s.workers, s'.workers);
    SameCurrentsRuns(s.workers, s'.workers);
  }

  lemma ArmRest(s: State, q: nat, w: Work, delay: nat)
    requires Rest(s) && EnqueueDelayed(s, q, w, delay).Ok?
    ensures Rest(EnqueueDelayed(s, q, w, delay).state)
  {
    hide Enqueue, Linked, Exclusive;
    if delay == 0 {
      EnqueueRest(s, q, w);
    } else {
      var s' := EnqueueDelayed(s, q, w, delay).state;
      AmpleSame(s, s');
    }
  }

  lemma AmpleSame(s: State, s': State)
    requires AllAmple(s) && s'.workers == s.workers && |s'.queues| == |s.queues|
    requires forall q | 0 <= q < |s.queues| :: |s'.queues[q].list| <= |s.queues[q].list| && s'.queues[q].maxActive == s.queues[q].maxActive
    ensures AllAmple(s')
  {
    hide NrIdle, NrWorkers;
    forall q | 0 <= q < |s'.queues| ensures Ample(s', q) { assert Ample(s, q); }
  }

  lemma KeepRest(s: State, c: nat, w: Work, op: Op)
    requires Rest(s) && Keep(s, c, w, op).Ok?
    ensures Rest(Keep(s, c, w, op).state)
  {
    hide Exclusive, AllAmple, EnqueueDelayed, Running;
    var s1 := s.(calls := s.calls - {c});
    AmpleSame(s, s1);
    AmpleSame(s, s.(calls := s.calls[c := Waiting(w)]));
    AmpleSame(s, s.(pending := s.pending - {w}, calls := s.calls - {c}));
    match op
    case ModDelayed(q, delay) => ArmRest(s1, q, w, delay);
    case _ =>
  }

  lemma GrabRest(s: State, c: nat, w: Work, op: Op)
    requires Rest(s) && Grab(s, c, w, op).Ok?
    ensures Rest(Grab(s, c, w, op).state)
  {
    hide Exclusive, AllAmple, Keep, Linked, Without;
    if w !in s.pending {
      var s1 := s.(pending := s.pending + {w});
      AmpleSame(s, s1);
      KeepRest(s1, c, w, op);
    } else if op != CancelWorkSync && w in s.armed {
      var s1 := s.(armed := s.armed - {w}, timerPending := s.timerPending - {w});
      AmpleSame(s, s1);
      KeepRest(s1, c, w, op);
    } else if Linked(s, w) {
      var t := if op == CancelWorkSync then s.timerPending else s.timerPending - {w};
      var s1 := s.(queues := Unlist(s.queues, w), timerPending := t);
      AmpleSame(s, s1);
      assert t == s.armed;
      KeepRest(s1, c, w, op);
    } else {
      AmpleSame(s, Grab(s, c, w, op).state);
    }
  }

  lemma IterateAmple(s: State, i: nat)
    requires AllAmple(s) && i < |s.workers| && s.workers[i].current == None && Iterate(s, i).Ok?
    ensures AllAmple(Iterate(s, i).state)
  {
    hide NrIdle, NrWorkers, Running;
    var s' := Iterate(s, i).state;
    var q := s.workers[i].queue;
    forall k: nat | k < |s'.queues| ensures Ample(s', k) {
      assert Ample(s, k);
      NrIdleUpdate(s.workers, i, s'.workers[i], k);
      NrWorkersSame(s.workers, s'.workers, k);
    }
  }

  lemma IterateRest(s: State, i: nat)
    requires Rest(s) && i < |s.workers| && s.workers[i].current == None && Iterate(s, i).Ok?
    ensures Rest(Iterate(s, i).state)
  {
    hide Exclusive, AllAmple, Running;
    IterateAmple(s, i);
    IterateExclusive(s, i);
  }

  lemma FinishRest(s: State, i: nat)
    requires Rest(s) && i < |s.workers| && s.workers[i].current != None && FinishWork(s, i).Ok?
    ensures Rest(FinishWork(s, i).state)
  {
    hide Exclusive, AllAmple, Iterate, Running;
    var q := s.workers[i].queue;
    var ws := s.workers[i := s.workers[i].(current := None)];
    ClearExclusive(s.workers, i);
    ClearAmple(s, i);
    var s1 := s.(workers := ws);
    var s2 := s.(workers := WakeIdle(ws, q));
    WakeRest(s1, q);
    if s.queues[q].list == [] { IterateRest(s1, i); } else { IterateRest(s2, i); }
  }

  lemma ClearAmple(s: State, i: nat)
    requires AllAmple(s) && i < |s.workers| && s.workers[i].current != None
    ensures AllAmple(s.(workers := s.workers[i := s.workers[i].(current := None)]))
  {
    hide NrIdle, NrWorkers;
    var s' := s.(workers := s.workers[i := s.workers[i].(current := None)]);
    forall k: nat | k < |s'.queues| ensures Ample(s', k) {
      assert Ample(s, k);
      NrIdleUpdate(s.workers, i, s'.workers[i], k);
      NrWorkersSame(s.workers, s'.workers, k);
    }
  }

  lemma WakeRest(s: State, q: nat)
    requires Rest(s)
    ensures Rest(s.(workers := WakeIdle(s.workers, q)))
  {
    hide Exclusive, NrIdle, NrWorkers;
    var s' := s.(workers := WakeIdle(s.workers, q));
    assert SameCurrents(s.workers, s'.workers);
    SameCurrentsRuns(s.workers, s'.workers);
    forall k: nat | k < |s'.queues| ensures Ample(s', k) {
      assert Ample(s, k);
      NrWake(s.workers, q, k);
    }
  }

  // ------------------------------------------------------------------- every step

  /** The call that trips grab_pending's BUG_ON(!is_dwork). */
  ghost predicate Improper(s: State, step: Step) {
    step.Start? && step.caller !in s.calls && step.op == CancelWorkSync && Misused(s, step.work)
  }

  lemma AllocInv(s: State, max: int)
    requires Inv(s)
    ensures Inv(Apply(s, Alloc(max)).state)
  {
    var s' := Apply(s, Alloc(max)).state;
    assert forall x, p :: At(s', x, p) <==> At(s, x, p);
    forall x | x in s'.pending ensures exists p :: At(s', x, p) {
      var p :| At(s, x, p);
      assert At(s', x, p);
    }
    NoWorkersYet(s.workers, |s.queues|);
    forall q: nat | q < |s'.queues| ensures Ample(s', q) {
      assert q < |s.queues| ==> Ample(s, q);
    }
  }

  lemma {:induction false} NoWorkersYet(ws: seq<Worker>, q: nat)
    requires forall i | 0 <= i < |ws| :: ws[i].queue < q
    ensures NrWorkers(ws, q) == 0 && NrIdle(ws, q) == 0
    decreases |ws|
  {
    if |ws| != 0 { NoWorkersYet(ws[..|ws| - 1], q); }
  }

  lemma QueueInv(s: State, q: nat, w: Work, delay: nat)
    requires Inv(s) && w !in s.pending && q < |s.queues|
    ensures
      var s1 := s.(pending := s.pending + {w});
      && Enqueue(s1, q, w).Ok? && Inv(Enqueue(s1, q, w).state)
      && EnqueueDelayed(s1, q, w, delay).Ok? && Inv(EnqueueDelayed(s1, q, w, delay).state)
  {
    hide Owned, Lists, Exclusive, AllAmple, Enqueue, EnqueueDelayed, Loose;
    var s1 := s.(pending := s.pending + {w});
    TakeFree(s, w);
    SameLists(s, s1);
    AmpleSame(s, s1);
    EnqueueOwned(s1, q, w);
    EnqueueRest(s1, q, w);
    ArmOwned(s1, q, w, delay);
    ArmRest(s1, q, w, delay);
  }

  lemma TimerInv(s: State, step: Step)
    requires Inv(s) && (step.TimerFire? || step.TimerQueue? || step.TimerDone?)
    ensures !Apply(s, step).Bug? && (Apply(s, step).Ok? ==> Inv(Apply(s, step).state))
  {
    hide Exclusive, AllAmple, Enqueue, Lists, Owned;
    if Apply(s, step).Ok? || step.TimerQueue? {
      match step
      case TimerFire(w) =>
        FireOwned(s, w);
        AmpleSame(s, Apply(s, step).state);
        SameLists(s, Apply(s, step).state);
      case TimerQueue =>
        if s.timer.Firing? {
          var w := s.timer.work;
          var s1 := s.(timer := Fired);
          TakeFiring(s, w);
          SameLists(s, s1);
          AmpleSame(s, s1);
          EnqueueOwned(s1, s.target[w], w);
          EnqueueRest(s1, s.target[w], w);
        }
      case TimerDone =>
        QuietOwned(s);
        AmpleSame(s, Apply(s, step).state);
        SameLists(s, Apply(s, step).state);
    }
  }

  lemma FireOwned(s: State, w: Work)
    requires Owned(s) && w in s.armed && s.timer == Quiet
    ensures Owned(s.(armed := s.armed - {w}, timerPending := s.timerPending - {w}, timer := Firing(w), timerSeq := s.timerSeq + 1))
  {
    var s' := s.(armed := s.armed - {w}, timerPending := s.timerPending - {w}, timer := Firing(w), timerSeq := s.timerSeq + 1);
    OneFewer(s, w, InTimer);
    forall p ensures At(s', w, p) <==> p == InCallback { assert At(s, w, p) ==> p == InTimer; }
    Moved(s, s', w, Some(InCallback));
  }

  lemma QuietOwned(s: State)
    requires Owned(s) && s.timer == Fired
    ensures Owned(s.(timer := Quiet, timerSeq := s.timerSeq + 1))
  {
    var s' := s.(timer := Quiet, timerSeq := s.timerSeq + 1);
    assert forall x, p :: At(s', x, p) <==> At(s, x, p);
    forall x | x in s'.pending ensures exists p :: At(s', x, p) {
      var p :| At(s, x, p);
      assert At(s', x, p);
    }
  }

  lemma ReturnInv(s: State, c: nat)
    requires Inv(s) && Apply(s, Return(c)).Ok?
    ensures Inv(Apply(s, Return(c)).state)
  {
    hide Exclusive, AllAmple, Lists, Owned, Running;
    var w := s.calls[c].work;
    var s' := Apply(s, Return(c)).state;
    TakeHeld(s, c, w);
    DropOwned(s.(calls := s.calls - {c}), w);
    AmpleSame(s, s');
    SameLists(s, s');
  }

  /** Every section keeps the invariant, and only a misused cancel_work_sync trips a BUG_ON. */
  lemma StepInv(s: State, step: Step)
    requires Inv(s)
    ensures Apply(s, step).Bug? <==> Improper(s, step)
    ensures Apply(s, step).Ok? ==> Inv(Apply(s, step).state)
  {
    hide Owned, Lists, Exclusive, AllAmple, Enqueue, EnqueueDelayed, Iterate, FinishWork, Grab, Misused;
    match step
    case Alloc(max) => AllocInv(s, max);
    case QueueWork(q, w) => if w !in s.pending && q < |s.queues| { QueueInv(s, q, w, 0); } else if q >= |s.queues| { NoQueue(s, q, w, 0); }
    case QueueDelayed(q, w, delay) => if w !in s.pending && q < |s.queues| { QueueInv(s, q, w, delay); } else if q >= |s.queues| { NoQueue(s, q, w, delay); }
    case Loop(i) =>
      if i < |s.workers| && s.workers[i].current == None {
        IterateOwned(s, i);
        IterateRest(s, i);
      }
    case Finish(i) =>
      if i < |s.workers| && s.workers[i].current != None {
        FinishOwned(s, i);
        FinishRest(s, i);
      }
    case Start(c, w, op) => if c !in s.calls { GrabInv(s, c, w, op); }
    case Again(c) => if c in s.calls && s.calls[c].Flushing? { GrabInv(s, c, s.calls[c].work, s.calls[c].op); }
    case Return(c) => if Apply(s, step).Ok? { ReturnInv(s, c); }
    case _ => TimerInv(s, step);
  }

  lemma NoQueue(s: State, q: nat, w: Work, delay: nat)
    requires Inv(s) && q >= |s.queues|
    ensures
      var s1 := s.(pending := s.pending + {w});
      w !in s.pending ==> Enqueue(s1, q, w).Blocked? && EnqueueDelayed(s1, q, w, delay).Blocked?
  {
    if w !in s.pending {
      UnownedNowhere(s, w);
      var s1 := s.(pending := s.pending + {w});
      forall p ensures !At(s1, w, p) { assert !At(s, w, p); }
      LooseUnlinked(s1, w);
      assert !At(s, w, InTimer);
    }
  }

  lemma GrabInv(s: State, c: nat, w: Work, op: Op)
    requires Inv(s) && (c in s.calls ==> s.calls[c].Flushing?)
    ensures Grab(s, c, w, op).Bug? <==> op == CancelWorkSync && Misused(s, w)
    ensures Grab(s, c, w, op).Ok? ==> Inv(Grab(s, c, w, op).state)
  {
    hide Owned, Lists, Rest, Keep, Misused, Linked;
    RestTimer(s);
    if op.ModDelayed? ==> op.queue < |s.queues| {
      GrabOwned(s, c, w, op);
      if Grab(s, c, w, op).Ok? { GrabRest(s, c, w, op); }
    }
  }

  lemma RestTimer(s: State)
    requires Rest(s)
    ensures s.timerPending == s.armed
  {}

  lemma InitInv()
    ensures Inv(Init)
  {}

  /** Every reachable state satisfies the invariant. */
  lemma {:induction false} RunInv(steps: seq<Step>)
    requires Run(Init, steps).Ok?
    ensures Inv(Run(Init, steps).state)
    decreases |steps|
  {
    hide Inv, Apply;
    InitInv();
    if |steps| != 0 {
      RunInv(steps[..|steps| - 1]);
      StepInv(Run(Init, steps[..|steps| - 1]).state, steps[|steps| - 1]);
    }
  }

  /** A run that trips a BUG_ON does so at an improper cancel_work_sync. */
  lemma {:induction false} RunBug(steps: seq<Step>) returns (n: nat)
    requires Run(Init, steps).Bug?
    ensures n < |steps| && Run(Init, steps[..n]).Ok? && Improper(Run(Init, steps[..n]).state, steps[n])
    decreases |steps|
  {
    hide Inv, Apply, Improper;
    n := |steps| - 1;
    var before := Run(Init, steps[..n]);
    if before.Ok? {
      RunInv(steps[..n]);
      StepInv(before.state, steps[n]);
    } else {
      var m := RunBug(steps[..n]);
      assert steps[..n][..m] == steps[..m];
      n := m;
    }
  }

  /** Neither delayed queueing nor mod_delayed_work is ever used on w. */
  predicate PlainStep(step: Step, w: Work) {
    match step
    case QueueDelayed(_, x, _) => x != w
    case Start(_, x, op) => x != w || !op.ModDelayed?
    case _ => true
  }

  ghost predicate Plain(s: State, w: Work) {
    && w !in s.armed && s.timer != Firing(w)
    && forall c | c in s.calls && s.calls[c].Flushing? && s.calls[c].work == w :: !s.calls[c].op.ModDelayed?
  }

  lemma PlainStepKeeps(s: State, step: Step, w: Work)
    requires Plain(s, w) && PlainStep(step, w) && Apply(s, step).Ok?
    ensures Plain(Apply(s, step).state, w)
  {
    hide Enqueue, Grab, FinishWork, Running, FirstRunnable;
    match step
    case QueueWork(q, x) => if x !in s.pending { EnqueueFrame(s.(pending := s.pending + {x}), q, x); }
    case QueueDelayed(q, x, delay) => if x !in s.pending && delay == 0 { EnqueueFrame(s.(pending := s.pending + {x}), q, x); }
    case TimerQueue => EnqueueFrame(s.(timer := Fired), s.target[s.timer.work], s.timer.work);
    case Start(c, x, op) => PlainGrab(s, c, x, op, w);
    case Again(c) => PlainGrab(s, c, s.calls[c].work, s.calls[c].op, w);
    case Finish(i) => FinishFrame(s, i);
    case _ =>
  }

  lemma EnqueueFrame(s: State, q: nat, w: Work)
    requires Enqueue(s, q, w).Ok?
    ensures var s' := Enqueue(s, q, w).state; s' == s.(queues := s'.queues, workers := s'.workers)
  {
    hide NrIdle, NrWorkers, WakeIdle, Linked;
  }

  lemma FinishFrame(s: State, i: nat)
    requires i < |s.workers| && FinishWork(s, i).Ok?
    ensures var s' := FinishWork(s, i).state; s' == s.(queues := s'.queues, workers := s'.workers, pending := s'.pending)
  {
    hide WakeIdle, Running, FirstRunnable;
  }

  lemma PlainKeep(s: State, c: nat, x: Work, op: Op, w: Work)
    requires Plain(s, w) && Keep(s, c, x, op).Ok? && (x == w ==> !op.ModDelayed?)
    ensures Plain(Keep(s, c, x, op).state, w)
  {
    hide Enqueue, Linked;
    if op.ModDelayed? && op.delay == 0 { EnqueueFrame(s.(calls := s.calls - {c}), op.queue, x); }
  }

  lemma PlainGrab(s: State, c: nat, x: Work, op: Op, w: Work)
    requires Plain(s, w) && Grab(s, c, x, op).Ok? && (x == w ==> !op.ModDelayed?)
    ensures Plain(Grab(s, c, x, op).state, w)
  {
    hide Keep, Linked, Unlist;
    if x !in s.pending {
      PlainKeep(s.(pending := s.pending + {x}), c, x, op, w);
    } else if op != CancelWorkSync && x in s.armed {
      PlainKeep(s.(armed := s.armed - {x}, timerPending := s.timerPending - {x}), c, x, op, w);
    } else if Linked(s, x) {
      var t := if op == CancelWorkSync then s.timerPending else s.timerPending - {x};
      PlainKeep(s.(queues := Unlist(s.queues, x), timerPending := t), c, x, op, w);
    }
  }

  /** For an item that is never delayed, cancel_work_sync is improper just when another canceller has the item. */
  lemma {:induction false} PlainMisuse(steps: seq<Step>, w: Work)
    requires Run(Init, steps).Ok? && forall k | 0 <= k < |steps| :: PlainStep(steps[k], w)
    ensures Plain(Run(Init, steps).state, w)
    ensures Misused(Run(Init, steps).state, w) <==> exists c :: At(Run(Init, steps).state, w, InHand(c))
    decreases |steps|
  {
    hide Apply, PlainStep, At;
    if |steps| != 0 {
      var n := |steps| - 1;
      PlainMisuse(steps[..n], w);
      PlainStepKeeps(Run(Init, steps[..n]).state, steps[n], w);
    }
  }

  /** No call of the cancel family on w is in progress. */
  ghost predicate NoneInFlight(s: State, w: Work) { forall c | c in s.calls :: s.calls[c].work != w }

  /** Step n is not cancel_work_sync, or its item was never delayed and nobody else is cancelling it. */
  ghost predicate Proper(steps: seq<Step>, n: nat)
    requires n < |steps|
  {
    steps[n].Start? && steps[n].op == CancelWorkSync && Run(Init, steps[..n]).Ok? ==>
      && (forall k | 0 <= k < n :: PlainStep(steps[k], steps[n].work))
      && NoneInFlight(Run(Init, steps[..n]).state, steps[n].work)
  }

  /** With cancel_work_sync kept to plain items, one canceller at a time, no run trips a BUG_ON. */
  lemma NoBug(steps: seq<Step>)
    requires forall n: nat | n < |steps| :: Proper(steps, n)
    ensures !Run(Init, steps).Bug?
  {
    hide Run, PlainStep, Plain, Apply;
    if Run(Init, steps).Bug? {
      var n := RunBug(steps);
      assert Proper(steps, n);
      var s := Run(Init, steps[..n]).state;
      PlainMisuse(steps[..n], steps[n].work);
    }
  }

  /** cancel_work_sync of an item whose timer is armed. */
  const DelayedSteps := [Alloc(0), QueueDelayed(0, 7, 5), Start(0, 7, CancelWorkSync)]

  lemma DelayedBug()
    ensures Run(Init, DelayedSteps).Bug?
  {
    hide Apply, Run;
    var s1 := State([Queue([], 256)], [], {}, {}, {}, map[], Quiet, 0, map[]);
    var s2 := s1.(pending := {7}, armed := {7}, timerPending := {7}, target := map[7 := 0]);
    DelayedAlloc(s1);
    DelayedQueue(s1, s2);
    DelayedCancel(s2);
    var p1 := [Alloc(0)];
    var p2 := p1 + [QueueDelayed(0, 7, 5)];
    RunMore(Init, p1, QueueDelayed(0, 7, 5));
    RunMore(Init, p2, Start(0, 7, CancelWorkSync));
    assert DelayedSteps == p2 + [Start(0, 7, CancelWorkSync)];
  }

  lemma DelayedAlloc(s1: State)
    requires s1 == State([Queue([], 256)], [], {}, {}, {}, map[], Quiet, 0, map[])
    ensures Run(Init, [Alloc(0)]) == Ok(s1)
  {
    assert [Alloc(0)][..0] == [];
  }

  lemma DelayedQueue(s1: State, s2: State)
    requires s1 == State([Queue([], 256)], [], {}, {}, {}, map[], Quiet, 0, map[])
    requires s2 == s1.(pending := {7}, armed := {7}, timerPending := {7}, target := map[7 := 0])
    ensures Apply(s1, QueueDelayed(0, 7, 5)) == Ok(s2)
  {
    assert !Linked(s1.(pending := {7}), 7);
  }

  lemma DelayedCancel(s2: State)
    requires s2 == State([Queue([], 256)], [], {7}, {7}, {7}, map[7 := 0], Quiet, 0, map[])
    ensures Apply(s2, Start(0, 7, CancelWorkSync)).Bug?
  {
    assert !Linked(s2, 7);
  }

  /** cancel_work_sync of a running item that another caller is cancelling. */
  const TwiceSteps := [Alloc(0), Alloc(0), QueueWork(0, 7), Loop(0), Start(0, 7, CancelWorkSync), Start(1, 7, CancelWorkSync)]

  lemma TwiceBug()
    ensures Run(Init, TwiceSteps).Bug?
  {
    hide Running, FirstRunnable, Apply, Run, Lost;
    var w: Work := 7;
    var s2, s3, s4 := Lost([], [], []), Lost([Worker(0, None, true)], [w], []), Lost([Worker(0, Some(w), true)], [], []);
    LostStart(s2);
    LostQueue0(s2, s3, w);
    LostLoop0(s3, s4, w);
    TwiceCancel(s4, w);
    var p2 := [Alloc(0), Alloc(0)];
    var p3 := p2 + [QueueWork(0, w)];
    var p4 := p3 + [Loop(0)];
    var p5 := p4 + [Start(0, w, CancelWorkSync)];
    RunMore(Init, p2, QueueWork(0, w));
    RunMore(Init, p3, Loop(0));
    RunMore(Init, p4, Start(0, w, CancelWorkSync));
    RunMore(Init, p5, Start(1, w, CancelWorkSync));
    assert TwiceSteps == p5 + [Start(1, w, CancelWorkSync)];
  }

  lemma TwiceCancel(s4: State, w: Work)
    requires s4 == Lost([Worker(0, Some(w), true)], [], [])
    ensures Apply(s4, Start(0, w, CancelWorkSync)).Ok?
    ensures Apply(Apply(s4, Start(0, w, CancelWorkSync)).state, Start(1, w, CancelWorkSync)).Bug?
  {
    assert Runs(s4.workers, 0, w);
    assert s4.pending == {};
    forall s: State | s.queues == s4.queues ensures !Linked(s, w) { assert forall q :: !Listed(s, q, w); }
  }

  // -------------------------------------------------------------------- cancelling

  /** Neither queued, armed nor about to be queued by a timer, and nobody runs it. */
  ghost predicate Still(s: State, w: Work) {
    w !in s.pending && Nowhere(s, w) && !Running(s.workers, w)
  }

  /** cancel_work_sync and cancel_delayed_work_sync, having waited, return with the item still. */
  lemma CancelReturns(s: State, c: nat)
    requires Inv(s) && Apply(s, Return(c)).Ok?
    ensures Still(Apply(s, Return(c)).state, s.calls[c].work)
  {
    hide Owned, Rest, Lists, Running;
    ReturnInv(s, c);
    UnownedNowhere(Apply(s, Return(c)).state, s.calls[c].work);
  }

  /** flush_work returns once the bit is clear and nobody runs the item: the item is then nowhere at all. */
  lemma FlushReturns(s: State, w: Work)
    requires Inv(s) && w !in s.pending && !Running(s.workers, w)
    ensures Still(s, w)
  {
    hide Owned, Rest, Lists, Running;
    UnownedNowhere(s, w);
  }

  lemma GrabAtOnce(s: State, c: nat, w: Work, op: Op)
    requires op == CancelWorkSync || op == CancelDelayedSync
    requires Grab(s, c, w, op).Ok? && c !in Grab(s, c, w, op).state.calls
    ensures w !in Grab(s, c, w, op).state.pending && !Running(Grab(s, c, w, op).state.workers, w)
  {
    hide Linked, Unlist, Running;
  }

  /** and so they do when they need not wait, at the first try or after flush_timers. */
  lemma CancelAtOnce(s: State, step: Step, c: nat, w: Work, op: Op)
    requires Inv(s) && (op == CancelWorkSync || op == CancelDelayedSync)
    requires step == Start(c, w, op) || (step == Again(c) && c in s.calls && s.calls[c].Flushing? && s.calls[c].work == w && s.calls[c].op == op)
    requires Apply(s, step).Ok? && c !in Apply(s, step).state.calls
    ensures Still(Apply(s, step).state, w)
  {
    hide Inv, Still, Grab, Running;
    StepInv(s, step);
    GrabAtOnce(s, c, w, op);
    FlushReturns(Apply(s, step).state, w);
  }

  lemma HeldUnlisted(s: State, c: nat, w: Work)
    requires Owned(s) && At(s, w, InHand(c))
    ensures forall q :: !Listed(s, q, w)
  {
    NotListed(s, w, InHand(c));
  }

  lemma IterateStarts(s: State, i: nat, w: Work)
    requires i < |s.workers| && Iterate(s, i).Ok? && forall q :: !Listed(s, q, w)
    ensures forall k | Runs(Iterate(s, i).state.workers, k, w) :: Runs(s.workers, k, w)
  {
    hide Running;
    var q := s.workers[i].queue;
    assert !Listed(s, q, w);
  }

  lemma WorkersOfEnqueue(s: State, q: nat, w: Work)
    requires Enqueue(s, q, w).Ok?
    ensures SameCurrents(s.workers, Enqueue(s, q, w).state.workers) && Enqueue(s, q, w).state.calls == s.calls
  {
    hide NrIdle, NrWorkers, Linked;
  }

  lemma WorkersOfGrab(s: State, c: nat, w: Work, op: Op)
    requires Grab(s, c, w, op).Ok?
    ensures SameCurrents(s.workers, Grab(s, c, w, op).state.workers)
    ensures forall d | d != c :: (d in Grab(s, c, w, op).state.calls <==> d in s.calls) && (d in s.calls ==> Grab(s, c, w, op).state.calls[d] == s.calls[d])
  {
    hide Enqueue, Linked, Unlist;
    if op.ModDelayed? {
      forall s1: State | Enqueue(s1, op.queue, w).Ok? ensures SameCurrents(s1.workers, Enqueue(s1, op.queue, w).state.workers) && Enqueue(s1, op.queue, w).state.calls == s1.calls {
        WorkersOfEnqueue(s1, op.queue, w);
      }
    }
  }

  /** While a canceller holds w, no section but its own return lets go of w, and none starts it. */
  lemma HeldStep(s: State, step: Step, c: nat, w: Work)
    requires Inv(s) && At(s, w, InHand(c)) && step != Return(c) && Apply(s, step).Ok?
    ensures At(Apply(s, step).state, w, InHand(c))
    ensures forall k | Runs(Apply(s, step).state.workers, k, w) :: Runs(s.workers, k, w)
  {
    hide Owned, Lists, Rest, Enqueue, Iterate, FinishWork, Grab, Running;
    HeldUnlisted(s, c, w);
    match step
    case QueueWork(q, x) => if x !in s.pending { WorkersOfEnqueue(s.(pending := s.pending + {x}), q, x); }
    case QueueDelayed(q, x, delay) => if x !in s.pending && delay == 0 { WorkersOfEnqueue(s.(pending := s.pending + {x}), q, x); }
    case Loop(i) => HeldLoop(s, i, w);
    case Finish(i) => HeldFinish(s, i, w);
    case TimerQueue => WorkersOfEnqueue(s.(timer := Fired), s.target[s.timer.work], s.timer.work);
    case Start(d, x, op) => WorkersOfGrab(s, d, x, op);
    case Again(d) => WorkersOfGrab(s, d, s.calls[d].work, s.calls[d].op);
    case _ =>
  }

  lemma HeldLoop(s: State, i: nat, w: Work)
    requires i < |s.workers| && Iterate(s, i).Ok? && forall q :: !Listed(s, q, w)
    ensures Iterate(s, i).state.calls == s.calls
    ensures forall k | Runs(Iterate(s, i).state.workers, k, w) :: Runs(s.workers, k, w)
  {
    hide Running;
    IterateStarts(s, i, w);
  }

  lemma HeldFinish(s: State, i: nat, w: Work)
    requires i < |s.workers| && FinishWork(s, i).Ok? && forall q :: !Listed(s, q, w)
    ensures FinishWork(s, i).state.calls == s.calls
    ensures forall k | Runs(FinishWork(s, i).state.workers, k, w) :: Runs(s.workers, k, w)
  {
    hide Iterate;
    var q := s.workers[i].queue;
    var ws := s.workers[i := s.workers[i].(current := None)];
    var s1 := s.(workers := if s.queues[q].list == [] then ws else WakeIdle(ws, q));
    forall q ensures !Listed(s1, q, w) { assert !Listed(s, q, w); }
    HeldLoop(s1, i, w);
    assert forall k | Runs(s1.workers, k, w) :: Runs(s.workers, k, w);
  }

  /** From the grab to the return, over any run: the item is never started, not even by re-queueing itself. */
  lemma {:induction false} CancelRun(s: State, steps: seq<Step>, c: nat, w: Work)
    requires Inv(s) && At(s, w, InHand(c)) && Run(s, steps).Ok?
    requires forall k | 0 <= k < |steps| :: steps[k] != Return(c)
    ensures Inv(Run(s, steps).state) && At(Run(s, steps).state, w, InHand(c))
    ensures forall k | Runs(Run(s, steps).state.workers, k, w) :: Runs(s.workers, k, w)
    decreases |steps|
  {
    hide Inv, Apply, At;
    if |steps| != 0 {
      var n := |steps| - 1;
      CancelRun(s, steps[..n], c, w);
      var mid := Run(s, steps[..n]).state;
      StepInv(mid, steps[n]);
      HeldStep(mid, steps[n], c, w);
    }
  }

  // --------------------------------------------------------------- lost wakeups

  predicate Asleep(s: State, i: nat) { i < |s.workers| && s.workers[i].current == None && !s.workers[i].awake }

  /** A worker sleeps only while somebody runs every item on its queue. */
  ghost predicate Wakeful(s: State) {
    forall i: nat, w: Work | Asleep(s, i) && Listed(s, s.workers[i].queue, w) :: Running(s.workers, w)
  }

  /** The item worker i finishes sits on another queue, where a worker went to sleep over it. */
  ghost predicate Stranded(s: State, i: nat) {
    && i < |s.workers| && s.workers[i].current.Some?
    && exists j: nat :: Asleep(s, j) && s.workers[j].queue != s.workers[i].queue && Listed(s, s.workers[j].queue, s.workers[i].current.value)
  }

  /** No worker newly sleeps, no list of a sleeper grows, and what runs still runs. */
  lemma WakefulKept(s: State, s': State)
    requires Wakeful(s)
    requires forall i: nat | Asleep(s', i) :: Asleep(s, i) && s'.workers[i].queue == s.workers[i].queue
    requires forall i: nat, w: Work | Asleep(s', i) && Listed(s', s'.workers[i].queue, w) :: Listed(s, s'.workers[i].queue, w)
    requires forall w: Work | Running(s.workers, w) :: Running(s'.workers, w)
    ensures Wakeful(s')
  {
    hide Running, Listed;
    forall i: nat, w: Work | Asleep(s', i) && Listed(s', s'.workers[i].queue, w) ensures Running(s'.workers, w) {
      assert Asleep(s, i) && Listed(s, s.workers[i].queue, w);
    }
  }

  lemma EnqueueWakeful(s: State, q: nat, w: Work)
    requires Wakeful(s) && Enqueue(s, q, w).Ok?
    ensures Wakeful(Enqueue(s, q, w).state)
  {
    hide NrIdle, NrWorkers, Linked, Running;
    var s' := Enqueue(s, q, w).state;
    WorkersOfEnqueue(s, q, w);
    SameCurrentsRuns(s.workers, s'.workers);
    forall i: nat | Asleep(s', i) ensures Asleep(s, i) && s'.workers[i].queue == s.workers[i].queue && s'.workers[i].queue != q {}
    WakefulKept(s, s');
  }

  lemma PlainWakeful(s: State, s': State)
    requires Wakeful(s) && s'.workers == s.workers && |s'.queues| >= |s.queues|
    requires forall q: nat, w: Work | Listed(s', q, w) :: Listed(s, q, w)
    ensures Wakeful(s')
  {
    hide Running, Listed;
    WakefulKept(s, s');
  }

  lemma ArmWakeful(s: State, q: nat, w: Work, delay: nat)
    requires Wakeful(s) && EnqueueDelayed(s, q, w, delay).Ok?
    ensures Wakeful(EnqueueDelayed(s, q, w, delay).state)
  {
    hide Enqueue, Wakeful, Linked;
    if delay == 0 { EnqueueWakeful(s, q, w); } else { PlainWakeful(s, EnqueueDelayed(s, q, w, delay).state); }
  }

  lemma KeepWakeful(s: State, c: nat, w: Work, op: Op)
    requires Wakeful(s) && Keep(s, c, w, op).Ok?
    ensures Wakeful(Keep(s, c, w, op).state)
  {
    hide EnqueueDelayed, Wakeful;
    PlainWakeful(s, s.(calls := s.calls - {c}));
    match op
    case ModDelayed(q, delay) => ArmWakeful(s.(calls := s.calls - {c}), q, w, delay);
    case _ => PlainWakeful(s, Keep(s, c, w, op).state);
  }

  lemma GrabWakeful(s: State, c: nat, w: Work, op: Op)
    requires Wakeful(s) && Grab(s, c, w, op).Ok?
    ensures Wakeful(Grab(s, c, w, op).state)
  {
    hide Keep, Wakeful, Linked;
    PlainWakeful(s, s.(pending := s.pending + {w}));
    PlainWakeful(s, s.(armed := s.armed - {w}, timerPending := s.timerPending - {w}));
    var t := if op == CancelWorkSync then s.timerPending else s.timerPending - {w};
    var s1 := s.(queues := Unlist(s.queues, w), timerPending := t);
    PlainWakeful(s, s1);
    if w !in s.pending {
      KeepWakeful(s.(pending := s.pending + {w}), c, w, op);
    } else if op != CancelWorkSync && w in s.armed {
      KeepWakeful(s.(armed := s.armed - {w}, timerPending := s.timerPending - {w}), c, w, op);
    } else if Linked(s, w) {
      KeepWakeful(s1, c, w, op);
    } else {
      PlainWakeful(s, Grab(s, c, w, op).state);
    }
  }

  lemma RunningUpdate(ws: seq<Worker>, i: nat, x: Worker, w: Work)
    requires i < |ws| && ws[i].current == None
    ensures Running(ws, w) ==> Running(ws[i := x], w)
    ensures x.current == Some(w) ==> Running(ws[i := x], w)
    ensures x.current != Some(w) && Running(ws[i := x], w) ==> Running(ws, w)
  {
    if Running(ws, w) { var k: nat :| Runs(ws, k, w); assert Runs(ws[i := x], k, w); }
    if x.current == Some(w) { assert Runs(ws[i := x], i, w); }
    if x.current != Some(w) && Running(ws[i := x], w) { var k: nat :| Runs(ws[i := x], k, w); assert Runs(ws, k, w); }
  }

  lemma IterateWakeful(s: State, i: nat)
    requires Wakeful(s) && i < |s.workers| && s.workers[i].current == None && Iterate(s, i).Ok?
    ensures Wakeful(Iterate(s, i).state)
  {
    hide Running;
    var s' := Iterate(s, i).state;
    var q := s.workers[i].queue;
    var list := s.queues[q].list;
    var k := FirstRunnable(list, s.workers);
    forall w: Work ensures Running(s.workers, w) ==> Running(s'.workers, w) { RunningUpdate(s.workers, i, s'.workers[i], w); }
    if k == |list| {
      forall j: nat, w: Work | Asleep(s', j) && Listed(s', s'.workers[j].queue, w) ensures Running(s'.workers, w) {
        assert j != i ==> Asleep(s, j) && Listed(s, s.workers[j].queue, w);
        assert j == i ==> w in list;
      }
    } else {
      forall j: nat, w: Work | Asleep(s', j) && Listed(s', s'.workers[j].queue, w) ensures Listed(s, s'.workers[j].queue, w) {}
      WakefulKept(s, s');
    }
  }

  /** Finishing keeps sleepers justified just when the item is not stranded. */
  lemma FinishWakeful(s: State, i: nat)
    requires Inv(s) && Wakeful(s) && i < |s.workers| && s.workers[i].current != None && FinishWork(s, i).Ok?
    ensures Wakeful(FinishWork(s, i).state) <==> !Stranded(s, i)
  {
    hide Inv, Iterate, Wakeful, Stranded, Running;
    var q := s.workers[i].queue;
    var w := s.workers[i].current.value;
    var ws := s.workers[i := s.workers[i].(current := None)];
    var s1 := s.(workers := if s.queues[q].list == [] then ws else WakeIdle(ws, q));
    if Stranded(s, i) {
      FinishStrands(s, s1, i);
    } else {
      ClearedWakeful(s, s1, i);
      IterateWakeful(s1, i);
    }
  }

  /** s1 is s with worker i's item cleared and, if its queue has work, the idle workers of that queue awake. */
  ghost predicate Cleared(s: State, s1: State, i: nat) {
    && i < |s.workers| && s.workers[i].current != None && s.workers[i].queue < |s.queues|
    && var q := s.workers[i].queue;
    && var ws := s.workers[i := s.workers[i].(current := None)];
    s1 == s.(workers := if s.queues[q].list == [] then ws else WakeIdle(ws, q))
  }

  lemma ClearedRunning(s: State, s1: State, i: nat, w: Work)
    requires Cleared(s, s1, i)
    ensures Some(w) != s.workers[i].current && Running(s.workers, w) ==> Running(s1.workers, w)
    ensures Running(s1.workers, w) ==> exists k: nat :: k != i && Runs(s.workers, k, w)
  {
    if Some(w) != s.workers[i].current && Running(s.workers, w) {
      var k: nat :| Runs(s.workers, k, w);
      assert Runs(s1.workers, k, w);
    }
    if Running(s1.workers, w) {
      var k: nat :| Runs(s1.workers, k, w);
      assert k != i && Runs(s.workers, k, w);
    }
  }

  lemma ClearedWakeful(s: State, s1: State, i: nat)
    requires Cleared(s, s1, i) && Wakeful(s) && !Stranded(s, i)
    ensures Wakeful(s1)
  {
    hide Running;
    var q := s.workers[i].queue;
    forall j: nat, w: Work | Asleep(s1, j) && Listed(s1, s1.workers[j].queue, w) ensures Running(s1.workers, w) {
      assert s1.workers[j].queue != q;
      assert Asleep(s, j) && Listed(s, s.workers[j].queue, w);
      ClearedRunning(s, s1, i, w);
    }
  }

  lemma FinishStrands(s: State, s1: State, i: nat)
    requires Inv(s) && Cleared(s, s1, i) && Stranded(s, i) && Iterate(s1, i).Ok?
    ensures !Wakeful(Iterate(s1, i).state)
  {
    hide Running, Rest, Lists, FirstRunnable;
    var q := s.workers[i].queue;
    var w := s.workers[i].current.value;
    var j: nat :| Asleep(s, j) && s.workers[j].queue != q && Listed(s, s.workers[j].queue, w);
    var s' := Iterate(s1, i).state;
    var q2 := s.workers[j].queue;
    assert Asleep(s', j) && s'.workers[j].queue == q2 && Listed(s', q2, w);
    OneQueue(s, w, q2, q);
    assert s'.workers[i].current != Some(w);
    RunningUpdate(s1.workers, i, s'.workers[i], w);
    ClearedRunning(s, s1, i, w);
    NotTwice(s, i, w);
  }

  lemma OneQueue(s: State, w: Work, q: nat, k: nat)
    requires Owned(s) && Listed(s, q, w) && k != q
    ensures !Listed(s, k, w)
  {
    assert At(s, w, InQueue(q));
    assert At(s, w, InQueue(k)) ==> InQueue(k) == InQueue(q);
  }

  lemma NotTwice(s: State, i: nat, w: Work)
    requires Inv(s) && Runs(s.workers, i, w)
    ensures !exists k: nat :: k != i && Runs(s.workers, k, w)
  {}

  lemma StepWakeful(s: State, step: Step)
    requires Inv(s) && Wakeful(s) && Apply(s, step).Ok?
    ensures Wakeful(Apply(s, step).state) <==> !(step.Finish? && Stranded(s, step.worker))
  {
    hide Inv, Wakeful, Enqueue, EnqueueDelayed, Iterate, FinishWork, Grab, Stranded, Running;
    match step
    case QueueWork(q, w) =>
      if w !in s.pending {
        PlainWakeful(s, s.(pending := s.pending + {w}));
        EnqueueWakeful(s.(pending := s.pending + {w}), q, w);
      }
    case QueueDelayed(q, w, delay) =>
      if w !in s.pending {
        PlainWakeful(s, s.(pending := s.pending + {w}));
        ArmWakeful(s.(pending := s.pending + {w}), q, w, delay);
      }
    case Loop(i) => IterateWakeful(s, i);
    case Finish(i) => FinishWakeful(s, i);
    case TimerQueue =>
      PlainWakeful(s, s.(timer := Fired));
      EnqueueWakeful(s.(timer := Fired), s.target[s.timer.work], s.timer.work);
    case Start(d, x, op) => GrabWakeful(s, d, x, op);
    case Again(d) => GrabWakeful(s, d, s.calls[d].work, s.calls[d].op);
    case Alloc(max) => PlainWakeful(s, Apply(s, step).state);
    case TimerFire(w) => PlainWakeful(s, Apply(s, step).state);
    case TimerDone => PlainWakeful(s, Apply(s, step).state);
    case Return(c) => PlainWakeful(s, Apply(s, step).state);
  }

  // ------------------------------------------------------ one queue per item

  /** Every request for w names the queue home(w). */
  predicate HomeStep(step: Step, home: Work -> nat) {
    match step
    case QueueWork(q, w) => q == home(w)
    case QueueDelayed(q, w, _) => q == home(w)
    case Start(_, w, op) => op.ModDelayed? ==> op.queue == home(w)
    case _ => true
  }

  ghost predicate Homed(s: State, home: Work -> nat) {
    && (forall q: nat, w: Work | Listed(s, q, w) :: q == home(w))
    && (forall i: nat, w: Work | Runs(s.workers, i, w) :: s.workers[i].queue == home(w))
    && CallsHomed(s, home)
  }

  ghost predicate CallsHomed(s: State, home: Work -> nat) {
    && (forall w: Work | (w in s.armed || s.timer == Firing(w)) && w in s.target :: s.target[w] == home(w))
    && (forall c: nat | c in s.calls && s.calls[c].Flushing? && s.calls[c].op.ModDelayed? :: s.calls[c].op.queue == home(s.calls[c].work))
  }

  lemma HomedSame(s: State, s': State, home: Work -> nat)
    requires Homed(s, home) && s'.queues == s.queues && s'.workers == s.workers && CallsHomed(s', home)
    ensures Homed(s', home)
  {
    forall q: nat, w: Work | Listed(s', q, w) ensures q == home(w) { assert Listed(s, q, w); }
  }

  lemma EnqueueHomed(s: State, q: nat, w: Work, home: Work -> nat)
    requires Homed(s, home) && Enqueue(s, q, w).Ok? && q == home(w)
    ensures Homed(Enqueue(s, q, w).state, home)
  {
    hide NrIdle, NrWorkers, Linked;
    var s' := Enqueue(s, q, w).state;
    WorkersOfEnqueue(s, q, w);
    SameCurrentsRuns(s.workers, s'.workers);
    forall k: nat, x: Work | Listed(s', k, x) ensures k == home(x) {
      assert Listed(s, k, x) || (k == q && x == w);
    }
  }

  lemma ArmHomed(s: State, q: nat, w: Work, delay: nat, home: Work -> nat)
    requires Homed(s, home) && EnqueueDelayed(s, q, w, delay).Ok? && q == home(w)
    ensures Homed(EnqueueDelayed(s, q, w, delay).state, home)
  {
    hide Enqueue, Linked;
    if delay == 0 { EnqueueHomed(s, q, w, home); } else { HomedSame(s, EnqueueDelayed(s, q, w, delay).state, home); }
  }

  lemma KeepHomed(s: State, c: nat, w: Work, op: Op, home: Work -> nat)
    requires Homed(s, home) && Keep(s, c, w, op).Ok? && (op.ModDelayed? ==> op.queue == home(w))
    ensures Homed(Keep(s, c, w, op).state, home)
  {
    hide EnqueueDelayed;
    if op.ModDelayed? {
      HomedSame(s, s.(calls := s.calls - {c}), home);
      ArmHomed(s.(calls := s.calls - {c}), op.queue, w, op.delay, home);
    } else {
      HomedSame(s, Keep(s, c, w, op).state, home);
    }
  }

  lemma GrabHomed(s: State, c: nat, w: Work, op: Op, home: Work -> nat)
    requires Homed(s, home) && Grab(s, c, w, op).Ok? && (op.ModDelayed? ==> op.queue == home(w))
    ensures Homed(Grab(s, c, w, op).state, home)
  {
    hide Keep, Linked, Without;
    if w !in s.pending {
      HomedSame(s, s.(pending := s.pending + {w}), home);
      KeepHomed(s.(pending := s.pending + {w}), c, w, op, home);
    } else if op != CancelWorkSync && w in s.armed {
      HomedSame(s, s.(armed := s.armed - {w}, timerPending := s.timerPending - {w}), home);
      KeepHomed(s.(armed := s.armed - {w}, timerPending := s.timerPending - {w}), c, w, op, home);
    } else if Linked(s, w) {
      UnlistHomed(s, w, if op == CancelWorkSync then s.timerPending else s.timerPending - {w}, home);
      KeepHomed(s.(queues := Unlist(s.queues, w), timerPending := if op == CancelWorkSync then s.timerPending else s.timerPending - {w}), c, w, op, home);
    } else {
      HomedSame(s, Grab(s, c, w, op).state, home);
    }
  }

  lemma UnlistHomed(s: State, w: Work, t: set<Work>, home: Work -> nat)
    requires Homed(s, home)
    ensures Homed(s.(queues := Unlist(s.queues, w), timerPending := t), home)
  {
    hide Without;
    var s' := s.(queues := Unlist(s.queues, w), timerPending := t);
    forall k: nat, x: Work | Listed(s', k, x) ensures k == home(x) { assert Listed(s, k, x); }
  }

  lemma IterateHomed(s: State, i: nat, home: Work -> nat)
    requires Homed(s, home) && i < |s.workers| && s.workers[i].current == None && Iterate(s, i).Ok?
    ensures Homed(Iterate(s, i).state, home)
  {
    hide Running;
    var s' := Iterate(s, i).state;
    var q := s.workers[i].queue;
    forall k: nat, x: Work | Listed(s', k, x) ensures k == home(x) { assert Listed(s, k, x); }
    forall k: nat, x: Work | Runs(s'.workers, k, x) ensures s'.workers[k].queue == home(x) {
      assert k != i ==> Runs(s.workers, k, x);
      assert k == i ==> Listed(s, q, x);
    }
  }

  lemma FinishHomed(s: State, i: nat, home: Work -> nat)
    requires Homed(s, home) && i < |s.workers| && s.workers[i].current != None && FinishWork(s, i).Ok?
    ensures Homed(FinishWork(s, i).state, home)
  {
    hide Iterate;
    var q := s.workers[i].queue;
    var ws := s.workers[i := s.workers[i].(current := None)];
    var s1 := s.(workers := if s.queues[q].list == [] then ws else WakeIdle(ws, q));
    forall k: nat, x: Work | Listed(s1, k, x) ensures k == home(x) { assert Listed(s, k, x); }
    forall k: nat, x: Work | Runs(s1.workers, k, x) ensures s1.workers[k].queue == home(x) { assert Runs(s.workers, k, x); }
    IterateHomed(s1, i, home);
  }

  lemma StepHomed(s: State, step: Step, home: Work -> nat)
    requires Inv(s) && Homed(s, home) && HomeStep(step, home) && Apply(s, step).Ok?
    ensures Homed(Apply(s, step).state, home)
  {
    hide Inv, Enqueue, EnqueueDelayed, Iterate, FinishWork, Grab, Running;
    match step
    case QueueWork(q, w) =>
      HomedSame(s, s.(pending := s.pending + {w}), home);
      if w !in s.pending { EnqueueHomed(s.(pending := s.pending + {w}), q, w, home); }
    case QueueDelayed(q, w, delay) =>
      HomedSame(s, s.(pending := s.pending + {w}), home);
      if w !in s.pending { ArmHomed(s.(pending := s.pending + {w}), q, w, delay, home); }
    case Loop(i) => IterateHomed(s, i, home);
    case Finish(i) => FinishHomed(s, i, home);
    case TimerQueue =>
      HomedSame(s, s.(timer := Fired), home);
      EnqueueHomed(s.(timer := Fired), s.target[s.timer.work], s.timer.work, home);
    case Start(d, x, op) => GrabHomed(s, d, x, op, home);
    case Again(d) => GrabHomed(s, d, s.calls[d].work, s.calls[d].op, home);
    case Alloc(max) => AllocHomed(s, max, home);
    case TimerFire(w) => HomedSame(s, Apply(s, step).state, home);
    case TimerDone => HomedSame(s, Apply(s, step).state, home);
    case Return(c) => HomedSame(s, Apply(s, step).state, home);
  }

  lemma AllocHomed(s: State, max: int, home: Work -> nat)
    requires Homed(s, home)
    ensures Homed(Apply(s, Alloc(max)).state, home)
  {
    var s' := Apply(s, Alloc(max)).state;
    forall k: nat, x: Work | Listed(s', k, x) ensures k == home(x) { assert Listed(s, k, x); }
  }

  /** No lost wakeup in any run that queues each item on one queue only. */
  lemma {:induction false} NoLostWakeup(steps: seq<Step>, home: Work -> nat)
    requires Run(Init, steps).Ok? && forall k | 0 <= k < |steps| :: HomeStep(steps[k], home)
    ensures Homed(Run(Init, steps).state, home) && Wakeful(Run(Init, steps).state)
    decreases |steps|
  {
    hide Apply, Inv, HomeStep;
    if |steps| != 0 {
      var n := |steps| - 1;
      NoLostWakeup(steps[..n], home);
      RunInv(steps[..n]);
      var s := Run(Init, steps[..n]).state;
      StepHomed(s, steps[n], home);
      StepWakeful(s, steps[n]);
    }
  }

  // ------------------------------------------------------ workers for blocked items

  /** As long as fewer than max_active items of a queue are running, however long they block, queued work has a free worker. */
  lemma FreeWorker(s: State, q: nat)
    requires Inv(s) && q < |s.queues| && s.queues[q].list != []
    requires NrWorkers(s.workers, q) - NrIdle(s.workers, q) < s.queues[q].maxActive
    ensures NrIdle(s.workers, q) > 0
  {
    hide Owned, Lists, Exclusive, Sane;
    assert Ample(s, q);
  }

  lemma RunMore(s: State, steps: seq<Step>, step: Step)
    requires Run(s, steps).Ok?
    ensures Run(s, steps + [step]) == Apply(Run(s, steps).state, step)
  {
    assert (steps + [step])[..|steps|] == steps;
  }

  const LostSteps := [Alloc(0), Alloc(0), QueueWork(0, 7), Loop(0), QueueWork(1, 7), Loop(1), Finish(0)]

  ghost function Lost(workers: seq<Worker>, list0: seq<Work>, list1: seq<Work>): State {
    State([Queue(list0, 256), Queue(list1, 256)], workers, Elements(list0 + list1), {}, {}, map[], Quiet, 0, map[])
  }

  function Elements(list: seq<Work>): set<Work> { set w | w in list }

  lemma LostTake(s: State, i: nat, w: Work)
    requires i < |s.workers| && s.workers[i].queue < |s.queues| && s.queues[s.workers[i].queue].list == [w]
    ensures !Running(s.workers, w) ==> FirstRunnable([w], s.workers) == 0
    ensures Running(s.workers, w) ==> FirstRunnable([w], s.workers) == 1
  {}

  /** An item queued on a second queue while it runs on the first is left there, with that queue's worker asleep. */
  lemma LostWakeup()
    ensures Run(Init, LostSteps).Ok? && !Wakeful(Run(Init, LostSteps).state)
  {
    hide Wakeful, Running, FirstRunnable, Apply, Run, Lost;
    var w: Work := 7;
    var idle0, busy0, idle1, sleep0, sleep1 :=
      Worker(0, None, true), Worker(0, Some(w), true), Worker(1, None, true), Worker(0, None, false), Worker(1, None, false);
    var s2, s3, s4 := Lost([], [], []), Lost([idle0], [w], []), Lost([busy0], [], []);
    var s5, s6, s7 := Lost([busy0, idle1], [], [w]), Lost([busy0, sleep1], [], [w]), Lost([sleep0, sleep1], [], [w]);
    LostStart(s2);
    LostQueue0(s2, s3, w);
    LostLoop0(s3, s4, w);
    LostQueue1(s4, s5, w);
    LostLoop1(s5, s6, w);
    LostFinish(s6, s7, w);
    var p2 := [Alloc(0), Alloc(0)];
    var p3 := p2 + [QueueWork(0, w)];
    var p4 := p3 + [Loop(0)];
    var p5 := p4 + [QueueWork(1, w)];
    var p6 := p5 + [Loop(1)];
    RunMore(Init, p2, QueueWork(0, w));
    RunMore(Init, p3, Loop(0));
    RunMore(Init, p4, QueueWork(1, w));
    RunMore(Init, p5, Loop(1));
    RunMore(Init, p6, Finish(0));
    assert LostSteps == p6 + [Finish(0)];
  }

  /** Its steps name two queues for one item. */
  lemma LostHomeless(home: Work -> nat)
    ensures exists k :: 0 <= k < |LostSteps| && !HomeStep(LostSteps[k], home)
  {
    assert !HomeStep(LostSteps[2], home) || !HomeStep(LostSteps[4], home);
  }

  lemma LostStart(s2: State)
    requires s2 == Lost([], [], [])
    ensures Run(Init, [Alloc(0), Alloc(0)]) == Ok(s2)
  {
    assert Elements([] + []) == {};
    RunMore(Init, [], Alloc(0));
    RunMore(Init, [Alloc(0)], Alloc(0));
    assert [] + [Alloc(0)] == [Alloc(0)];
    assert [Alloc(0), Alloc(0)] == [Alloc(0)] + [Alloc(0)];
  }

  lemma LostQueue0(s2: State, s3: State, w: Work)
    requires s2 == Lost([], [], []) && s3 == Lost([Worker(0, None, true)], [w], [])
    ensures Apply(s2, QueueWork(0, w)) == Ok(s3)
  {
    var s1 := s2.(pending := s2.pending + {w});
    assert Elements([] + []) == {} && [] + [w] == [w] && [w] + [] == [w];
    assert s2.pending + {w} == {w} == Elements([w] + []);
    assert !Linked(s1, w);
    assert WakeIdle([Worker(0, None, true)], 0) == [Worker(0, None, true)];
    assert NrIdle([], 0) == 0 && NrWorkers([], 0) == 0;
    assert s1.queues[0 := Queue([w], 256)] == s3.queues;
  }

  lemma LostLoop0(s3: State, s4: State, w: Work)
    requires s3 == Lost([Worker(0, None, true)], [w], []) && s4 == Lost([Worker(0, Some(w), true)], [], [])
    ensures Apply(s3, Loop(0)) == Ok(s4)
  {
    LostTake(s3, 0, w);
    assert !Running(s3.workers, w);
    assert s3.pending == {w} && Elements([] + []) == {};
    assert [w][..0] + [w][1..] == [];
    assert s3.queues[0 := Queue([], 256)] == s4.queues;
  }

  lemma LostQueue1(s4: State, s5: State, w: Work)
    requires s4 == Lost([Worker(0, Some(w), true)], [], []) && s5 == Lost([Worker(0, Some(w), true), Worker(1, None, true)], [], [w])
    ensures Apply(s4, QueueWork(1, w)) == Ok(s5)
  {
    var s1 := s4.(pending := s4.pending + {w});
    assert Elements([] + []) == {} && [] + [w] == [w];
    assert s4.pending + {w} == {w} == Elements([] + [w]);
    assert !Linked(s1, w);
    assert NrIdle(s4.workers[..0], 1) == 0 && NrWorkers(s4.workers[..0], 1) == 0;
    assert NrIdle(s4.workers, 1) == 0 && NrWorkers(s4.workers, 1) == 0;
    assert WakeIdle(s4.workers + [Worker(1, None, true)], 1) == s5.workers;
    assert s1.queues[1 := Queue([w], 256)] == s5.queues;
  }

  lemma LostLoop1(s5: State, s6: State, w: Work)
    requires s5 == Lost([Worker(0, Some(w), true), Worker(1, None, true)], [], [w])
    requires s6 == Lost([Worker(0, Some(w), true), Worker(1, None, false)], [], [w])
    ensures Apply(s5, Loop(1)) == Ok(s6)
  {
    LostTake(s5, 1, w);
    assert Runs(s5.workers, 0, w);
  }

  lemma LostFinish(s6: State, s7: State, w: Work)
    requires s6 == Lost([Worker(0, Some(w), true), Worker(1, None, false)], [], [w])
    requires s7 == Lost([Worker(0, None, false), Worker(1, None, false)], [], [w])
    ensures Apply(s6, Finish(0)) == Ok(s7) && !Wakeful(s7)
  {
    assert Asleep(s7, 1) && Listed(s7, 1, w);
    assert !Running(s7.workers, w);
  }

  // ------------------------------------------------- the loops inside the sections

  /** nr_idle_workers. */
  method NrIdleWorkers(ws: seq<Worker>, q: nat) returns (nr: nat)
    ensures nr == NrIdle(ws, q)
  {
    nr := 0;
    for i := 0 to |ws|
      invariant nr == NrIdle(ws[..i], q)
    {
      assert ws[..i + 1][..i] == ws[..i];
      if ws[i].queue == q && ws[i].current == None { nr := nr + 1; }
    }
    assert ws[..|ws|] == ws;
  }

  /** work_starved: stops as soon as the count passes the free workers. */
  method WorkStarved(list: seq<Work>, ws: seq<Worker>, q: nat) returns (starved: bool)
    ensures starved <==> |list| > NrIdle(ws, q)
  {
    var free := NrIdleWorkers(ws, q);
    var nr := 0;
    for k := 0 to |list|
      invariant nr == k && nr <= free
    {
      nr := nr + 1;
      if nr > free { return true; }
    }
    return false;
  }

  /** work_running. */
  method WorkRunning(ws: seq<Worker>, w: Work) returns (r: bool)
    ensures r <==> Running(ws, w)
  {
    for i := 0 to |ws|
      invariant forall k: nat | k < i :: !Runs(ws, k, w)
    {
      if ws[i].current == Some(w) {
        assert Runs(ws, i, w);
        return true;
      }
    }
    return false;
  }

  /** find_runnable_work: the oldest queued item nobody is running. */
  method FindRunnableWork(list: seq<Work>, ws: seq<Worker>) returns (k: nat)
    ensures k == FirstRunnable(list, ws)
  {
    hide Running;
    k := 0;
    while k < |list|
      invariant k <= |list| && FirstRunnable(list, ws) >= k
    {
      var busy := WorkRunning(ws, list[k]);
      if !busy { return; }
      k := k + 1;
    }
  }
}
