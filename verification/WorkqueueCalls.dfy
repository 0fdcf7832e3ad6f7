/** What each call of workqueue.c and each section of its threads does to the items: where each one goes, and that no other moves. */
module WorkqueueCalls {
  import opened Options
  import opened Workqueue

  // ---------------------------------------------------------------- queueing

  /** alloc_workqueue adds an empty queue whose limit is the one asked for, or 256 if none was. */
  lemma AllocIs(s: State, max: int)
    ensures
      var o := Apply(s, Alloc(max));
      && o.Ok? && o.state == s.(queues := o.state.queues) && |o.state.queues| == |s.queues| + 1 && o.state.queues[..|s.queues|] == s.queues
      && var q := o.state.queues[|s.queues|];
      && q.list == [] && q.maxActive > 0 && (max > 0 ==> q.maxActive == max) && (max <= 0 ==> q.maxActive == 256)
  {}

  /** The item goes to one place and the others stay where they were. */
  ghost predicate Goes(s: State, s': State, w: Work, to: Option<Place>) {
    && (forall p :: At(s', w, p) <==> to == Some(p))
    && SameBut(s, s', w)
    && (w in s'.pending <==> to.Some?)
  }

  /** The idle workers of the queue are woken, there may be one more, and what runs is unchanged. */
  ghost predicate Woken(ws: seq<Worker>, ws': seq<Worker>, q: nat) {
    && |ws| <= |ws'| <= |ws| + 1
    && (forall i | 0 <= i < |ws| :: ws'[i] == if IdleAt(ws, i, q) then ws[i].(awake := true) else ws[i])
    && (|ws'| > |ws| ==> ws'[|ws|] == Worker(q, None, true))
  }

  /** Put at the end of queue q, with a new worker exactly if the items outnumber the idle workers and the limit allows one. */
  ghost predicate Appended(s: State, s': State, q: nat, w: Work) {
    && q < |s.queues| && s'.queues == s.queues[q := s.queues[q].(list := s.queues[q].list + [w])] && Woken(s.workers, s'.workers, q)
    && (|s'.workers| > |s.workers| <==> |s.queues[q].list| + 1 > NrIdle(s.workers, q) && NrWorkers(s.workers, q) < s.queues[q].maxActive)
    && s'.armed == s.armed && s'.timer == s.timer && s'.timerSeq == s.timerSeq
  }

  /** Put in the timer heap, to be queued on q. */
  ghost predicate Delayed(s: State, s': State, q: nat, w: Work) {
    && s'.queues == s.queues && s'.workers == s.workers && s'.armed == s.armed + {w} && s'.timer == s.timer && s'.timerSeq == s.timerSeq
    && w in s'.target && s'.target[w] == q && forall x | x != w && x in s.target :: x in s'.target && s'.target[x] == s.target[x]
  }

  lemma EnqueueIs(s: State, q: nat, w: Work)
    requires q < |s.queues| && w in s.pending && Nowhere(s, w)
    ensures Enqueue(s, q, w).Ok? && Appended(s, Enqueue(s, q, w).state, q, w)
    ensures var s' := Enqueue(s, q, w).state; s' == s.(queues := s'.queues, workers := s'.workers)
  {
    hide NrIdle, NrWorkers;
    LooseUnlinked(s, w);
  }

  lemma AppendedGoes(s: State, s': State, q: nat, w: Work)
    requires Nowhere(s, w) && Appended(s, s', q, w) && s'.calls == s.calls && w in s'.pending
    requires forall x | x != w :: x in s'.pending <==> x in s.pending
    ensures Goes(s, s', w, Some(InQueue(q)))
  {
    hide Woken;
    assert forall k: nat, x | k < |s.queues| :: x in s'.queues[k].list <==> x in s.queues[k].list || (k == q && x == w);
    forall p ensures At(s', w, p) <==> p == InQueue(q) { assert !At(s, w, p); }
  }

  lemma DelayedGoes(s: State, s': State, q: nat, w: Work)
    requires Nowhere(s, w) && Delayed(s, s', q, w) && s'.calls == s.calls && w in s'.pending
    requires forall x | x != w :: x in s'.pending <==> x in s.pending
    ensures Goes(s, s', w, Some(InTimer))
  {
    forall p ensures At(s', w, p) <==> p == InTimer { assert !At(s, w, p); }
  }

  /** Where queueing with a delay puts an item whose bit the section holds. */
  ghost predicate Queues(s: State, s': State, q: nat, w: Work, delay: nat) {
    if delay == 0 then Appended(s, s', q, w) && Goes(s, s', w, Some(InQueue(q))) else Delayed(s, s', q, w) && Goes(s, s', w, Some(InTimer))
  }

  lemma EnqueueDelayedIs(s: State, q: nat, w: Work, delay: nat)
    requires q < |s.queues| && w in s.pending && Nowhere(s, w) && s.timerPending == s.armed
    ensures EnqueueDelayed(s, q, w, delay).Ok? && Queues(s, EnqueueDelayed(s, q, w, delay).state, q, w, delay)
    ensures EnqueueDelayed(s, q, w, delay).state.calls == s.calls && EnqueueDelayed(s, q, w, delay).state.pending == s.pending
  {
    hide Enqueue, Appended, Goes;
    LooseUnlinked(s, w);
    assert !At(s, w, InTimer);
    if delay == 0 {
      EnqueueIs(s, q, w);
      AppendedGoes(s, Enqueue(s, q, w).state, q, w);
    } else {
      DelayedGoes(s, EnqueueDelayed(s, q, w, delay).state, q, w);
    }
  }

  /**
   * queue_work and queue_delayed_work: an item that is pending stays where it is; any other goes to the end of its
   * queue, or with a delay to the timer.
   */
  lemma QueueIs(s: State, q: nat, w: Work, delay: nat)
    requires Inv(s) && q < |s.queues|
    ensures w in s.pending ==> Apply(s, QueueDelayed(q, w, delay)) == Ok(s) && Apply(s, QueueWork(q, w)) == Ok(s)
    ensures w !in s.pending ==>
      && Apply(s, QueueDelayed(q, w, delay)).Ok? && Queues(s, Apply(s, QueueDelayed(q, w, delay)).state, q, w, delay)
      && Apply(s, QueueWork(q, w)).Ok? && Queues(s, Apply(s, QueueWork(q, w)).state, q, w, 0)
  {
    hide Lists, Exclusive, AllAmple, Enqueue, EnqueueDelayed, Queues;
    if w !in s.pending {
      var s1 := s.(pending := s.pending + {w});
      TakeFree(s, w);
      EnqueueDelayedIs(s1, q, w, delay);
      EnqueueDelayedIs(s1, q, w, 0);
      LooseUnlinked(s1, w);
      NotArmed(s1, w);
      NoDelay(s1, q, w);
      SameQueues(s, s1, EnqueueDelayed(s1, q, w, delay).state, q, w, delay);
      SameQueues(s, s1, EnqueueDelayed(s1, q, w, 0).state, q, w, 0);
    }
  }

  lemma NotArmed(s: State, w: Work)
    requires Nowhere(s, w)
    ensures w !in s.armed
  {
    assert !At(s, w, InTimer);
  }

  lemma NoDelay(s: State, q: nat, w: Work)
    requires w !in s.timerPending && !Linked(s, w)
    ensures EnqueueDelayed(s, q, w, 0) == Enqueue(s, q, w)
  {}

  lemma SameQueues(s: State, s1: State, s': State, q: nat, w: Work, delay: nat)
    requires SameBut(s, s1, w) && Queues(s1, s', q, w, delay)
    requires s1.armed == s.armed && s1.queues == s.queues && s1.workers == s.workers && s1.target == s.target && s1.timer == s.timer && s1.timerSeq == s.timerSeq
    ensures Queues(s, s', q, w, delay)
  {
    hide At, Woken;
    assert Goes(s, s', w, if delay == 0 then Some(InQueue(q)) else Some(InTimer));
  }

  // ---------------------------------------------------------------- cancelling

  /** The state with the item taken out of its queue and of the timer, and its bit in the caller's hand. */
  ghost function Out(s: State, w: Work): State {
    s.(pending := s.pending + {w}, armed := s.armed - {w}, timerPending := s.timerPending - {w}, queues := Unlist(s.queues, w))
  }

  /** grab_pending gets the bit at once: nobody has it, or it is in the timer or in a queue. */
  ghost predicate Free(s: State, w: Work) { w !in s.pending || w in s.armed || Linked(s, w) }

  lemma OutIs(s: State, w: Work)
    requires Inv(s) && Free(s, w)
    ensures Nowhere(Out(s, w), w) && w in Out(s, w).pending && SameBut(s, Out(s, w), w)
  {
    hide Lists, Rest;
    var s1 := Out(s, w);
    forall x, p | x != w ensures At(s1, x, p) <==> At(s, x, p) {}
    forall p ensures !At(s1, w, p) {
      if At(s, w, p) && !p.InQueue? && !p.InTimer? {
        Elsewhere(s, w, p);
      }
    }
  }

  lemma Elsewhere(s: State, w: Work, p: Place)
    requires Owned(s) && Free(s, w) && At(s, w, p)
    ensures p.InQueue? || p.InTimer?
  {
    if w in s.armed { assert At(s, w, InTimer); }
    if Linked(s, w) {
      var q :| Listed(s, q, w);
      assert At(s, w, InQueue(q));
    }
  }

  lemma {:induction false} WithoutAbsent(list: seq<Work>, w: Work)
    requires w !in list
    ensures Without(list, w) == list
    decreases |list|
  {
    if |list| > 0 { WithoutAbsent(list[1..], w); }
  }

  lemma UnlistAbsent(s: State, w: Work)
    requires !Linked(s, w)
    ensures Unlist(s.queues, w) == s.queues
  {
    forall q | 0 <= q < |s.queues| ensures Unlist(s.queues, w)[q] == s.queues[q] {
      assert !Listed(s, q, w);
      WithoutAbsent(s.queues[q].list, w);
    }
  }

  /** A grab by one of the delayed-work calls takes the item out of wherever it is, if it is free. */
  lemma GrabIs(s: State, c: nat, w: Work, op: Op)
    requires Inv(s) && op != CancelWorkSync && (op.ModDelayed? ==> op.queue < |s.queues|)
    ensures Free(s, w) ==> Grab(s, c, w, op) == Keep(Out(s, w), c, w, op)
    ensures !Free(s, w) ==> Grab(s, c, w, op) == Ok(s.(calls := s.calls[c := Flushing(w, op, s.timerSeq)]))
  {
    hide Lists, Exclusive, AllAmple, Keep, Unlist, Owned;
    if w in s.armed { ArmedUnlinked(s, w); }
    if w !in s.pending { Unlinked(s, w); NotInTimer(s, w); }
    if !Linked(s, w) { UnlistAbsent(s, w); }
    if w in s.pending { assert s.pending + {w} == s.pending; }
    if w !in s.armed { assert s.armed - {w} == s.armed && s.timerPending - {w} == s.timerPending; }
  }

  lemma NotInTimer(s: State, w: Work)
    requires Owned(s) && w !in s.pending
    ensures w !in s.armed
  {
    if w in s.armed { assert At(s, w, InTimer); }
  }

  /**
   * mod_delayed_work: an item that is free goes to the end of the queue, or with a delay to the timer, wherever it was;
   * while the timer's callback or a canceller has it the call waits for them, and nothing moves.
   */
  lemma ModIs(s: State, c: nat, w: Work, q: nat, delay: nat)
    requires Inv(s) && c !in s.calls && q < |s.queues|
    ensures
      var o := Apply(s, Start(c, w, ModDelayed(q, delay)));
      && o.Ok?
      && if Free(s, w) then
           Queues(Out(s, w), o.state, q, w, delay) && Goes(s, o.state, w, Some(if delay == 0 then InQueue(q) else InTimer)) && o.state.calls == s.calls
         else o.state == s.(calls := s.calls[c := Flushing(w, ModDelayed(q, delay), s.timerSeq)])
  {
    hide Inv, Grab, Queues, Out, Goes;
    GrabIs(s, c, w, ModDelayed(q, delay));
    if Free(s, w) {
      OutIs(s, w);
      ModKeep(s, c, w, q, delay);
    }
  }

  lemma ModKeep(s: State, c: nat, w: Work, q: nat, delay: nat)
    requires Inv(s) && c !in s.calls && q < |s.queues| && Nowhere(Out(s, w), w) && w in Out(s, w).pending && SameBut(s, Out(s, w), w)
    ensures
      var o := Keep(Out(s, w), c, w, ModDelayed(q, delay));
      o.Ok? && Queues(Out(s, w), o.state, q, w, delay) && Goes(s, o.state, w, Some(if delay == 0 then InQueue(q) else InTimer)) && o.state.calls == s.calls
  {
    hide Owned, Lists, Exclusive, AllAmple, EnqueueDelayed, Appended, Delayed, Unlist, At;
    var s1 := Out(s, w);
    assert s1.calls - {c} == s1.calls;
    EnqueueDelayedIs(s1, q, w, delay);
  }

  /** cancel_delayed_work and its sync form: a free item leaves its place; the sync form keeps the bit only while the item runs. */
  lemma CancelIs(s: State, c: nat, w: Work)
    requires Inv(s) && c !in s.calls && Free(s, w)
    ensures var o := Apply(s, Start(c, w, CancelDelayed)); o.Ok? && Goes(s, o.state, w, None) && o.state.workers == s.workers
    ensures
      var o := Apply(s, Start(c, w, CancelDelayedSync));
      o.Ok? && o.state.workers == s.workers && Goes(s, o.state, w, if Running(s.workers, w) then Some(InHand(c)) else None)
  {
    hide Inv, Grab, Out, Goes, Running;
    GrabIs(s, c, w, CancelDelayed);
    GrabIs(s, c, w, CancelDelayedSync);
    OutIs(s, w);
    CancelKeep(s, c, w);
  }

  lemma CancelKeep(s: State, c: nat, w: Work)
    requires c !in s.calls && Nowhere(Out(s, w), w) && SameBut(s, Out(s, w), w)
    ensures var o := Keep(Out(s, w), c, w, CancelDelayed); o.Ok? && Goes(s, o.state, w, None) && o.state.workers == s.workers
    ensures
      var o := Keep(Out(s, w), c, w, CancelDelayedSync);
      o.Ok? && o.state.workers == s.workers && Goes(s, o.state, w, if Running(s.workers, w) then Some(InHand(c)) else None)
  {
    hide Unlist, Running;
    var s1 := Out(s, w);
    Dropped(s1, c, w);
    Handed(s1, c, w);
  }

  lemma Dropped(s1: State, c: nat, w: Work)
    requires c !in s1.calls && Nowhere(s1, w)
    ensures Goes(s1, s1.(pending := s1.pending - {w}, calls := s1.calls - {c}), w, None)
  {
    var s' := s1.(pending := s1.pending - {w}, calls := s1.calls - {c});
    forall p ensures !At(s', w, p) { assert !At(s1, w, p); }
  }

  lemma Handed(s1: State, c: nat, w: Work)
    requires c !in s1.calls && Nowhere(s1, w) && w in s1.pending
    ensures Goes(s1, s1.(calls := s1.calls[c := Waiting(w)]), w, Some(InHand(c)))
  {
    var s' := s1.(calls := s1.calls[c := Waiting(w)]);
    forall p ensures At(s', w, p) <==> p == InHand(c) { assert !At(s1, w, p); }
  }

  /** A call that waits for a callback waits exactly while the one it saw runs; then it is as if it were made anew. */
  lemma AgainIs(s: State, c: nat)
    requires Inv(s) && c in s.calls && s.calls[c].Flushing?
    ensures s.timer != Quiet && s.timerSeq == s.calls[c].seen ==> Apply(s, Again(c)) == Blocked
    ensures !(s.timer != Quiet && s.timerSeq == s.calls[c].seen) ==>
      Apply(s, Again(c)) == Apply(s.(calls := s.calls - {c}), Start(c, s.calls[c].work, s.calls[c].op))
  {
    hide Owned, Lists, Exclusive, AllAmple, Grab;
    GrabAnew(s, c, s.calls[c].work, s.calls[c].op);
  }

  lemma GrabAnew(s: State, c: nat, w: Work, op: Op)
    ensures Grab(s, c, w, op) == Grab(s.(calls := s.calls - {c}), c, w, op)
  {
    hide Linked, Unlist, EnqueueDelayed, Keep;
    var s0 := s.(calls := s.calls - {c});
    var call := Flushing(w, op, s.timerSeq);
    assert s0.calls[c := call] == s.calls[c := call];
    assert Linked(s0, w) <==> Linked(s, w) by { LinkedSame(s, s0, w); }
    KeepAnew(s.(pending := s.pending + {w}), c, w, op);
    KeepAnew(s.(armed := s.armed - {w}, timerPending := s.timerPending - {w}), c, w, op);
    var t := if op == CancelWorkSync then s.timerPending else s.timerPending - {w};
    KeepAnew(s.(queues := Unlist(s.queues, w), timerPending := t), c, w, op);
  }

  lemma LinkedSame(s: State, s': State, w: Work)
    requires s'.queues == s.queues
    ensures Linked(s', w) <==> Linked(s, w)
  {
    assert forall q: nat :: Listed(s', q, w) <==> Listed(s, q, w);
  }

  lemma KeepAnew(s: State, c: nat, w: Work, op: Op)
    ensures Keep(s, c, w, op) == Keep(s.(calls := s.calls - {c}), c, w, op)
  {
    hide EnqueueDelayed;
    assert (s.calls - {c}) - {c} == s.calls - {c} && (s.calls - {c})[c := Waiting(w)] == s.calls[c := Waiting(w)];
  }

  // ---------------------------------------------------------------- the threads

  /** Worker i takes item k of queue q, the oldest that nobody runs. */
  ghost predicate Takes(s: State, s': State, i: nat, q: nat, k: nat) {
    && q < |s.queues| && k < |s.queues[q].list| && i < |s.workers|
    && var list := s.queues[q].list;
    && !Running(s.workers, list[k]) && (forall j | 0 <= j < k :: Running(s.workers, list[j]))
    && s'.workers == s.workers[i := Worker(q, Some(list[k]), true)] && s'.pending == s.pending - {list[k]}
    && s'.queues == s.queues[q := s.queues[q].(list := list[..k] + list[k + 1..])]
  }

  /** The worker takes the oldest item of its queue that nobody runs, and sleeps if there is none. */
  ghost predicate Serves(s: State, s': State, i: nat) {
    && i < |s.workers| && s.workers[i].queue < |s.queues|
    && var q := s.workers[i].queue;
    && s' == s.(queues := s'.queues, pending := s'.pending, workers := s'.workers)
    && if forall w | w in s.queues[q].list :: Running(s.workers, w) then s' == s.(workers := s.workers[i := Worker(q, None, false)])
       else exists k :: Takes(s, s', i, q, k)
  }

  lemma IterateIs(s: State, i: nat)
    requires Owned(s) && i < |s.workers| && s.workers[i].queue < |s.queues|
    ensures Iterate(s, i).Ok? && Serves(s, Iterate(s, i).state, i)
  {
    hide Owned, Running;
    var q := s.workers[i].queue;
    var list := s.queues[q].list;
    var k := FirstRunnable(list, s.workers);
    if k < |list| {
      ListedPending(s, q, list[k]);
      assert Takes(s, Iterate(s, i).state, i, q, k);
    }
  }

  /** A worker that is awake and runs nothing serves its queue. */
  lemma LoopIs(s: State, i: nat)
    requires Inv(s) && i < |s.workers| && s.workers[i].current == None && s.workers[i].awake
    ensures Apply(s, Loop(i)).Ok? && Serves(s, Apply(s, Loop(i)).state, i)
  {
    hide Owned, Lists, Exclusive, AllAmple, Serves, Iterate;
    IterateIs(s, i);
  }

  /** Worker i has let go of its item; the idle workers of its queue are woken if anything is queued. */
  ghost predicate LetGo(s: State, s1: State, i: nat) {
    && i < |s.workers| && s1 == s.(workers := s1.workers) && |s1.workers| == |s.workers| && s.workers[i].queue < |s.queues|
    && var q := s.workers[i].queue;
    && forall j | 0 <= j < |s.workers| ::
         && s1.workers[j].queue == s.workers[j].queue && s1.workers[j].current == (if j == i then None else s.workers[j].current)
         && s1.workers[j].awake == (s.workers[j].awake || (s.queues[q].list != [] && IdleAt(s1.workers, j, q)))
  }

  /** A worker whose item returns lets go of it and serves its queue again in the same section. */
  lemma FinishIs(s: State, i: nat)
    requires Inv(s) && i < |s.workers| && s.workers[i].current != None
    ensures Apply(s, Finish(i)).Ok? && exists s1 :: LetGo(s, s1, i) && Serves(s1, Apply(s, Finish(i)).state, i)
  {
    hide Owned, Lists, Exclusive, AllAmple, Serves, Iterate;
    var q := s.workers[i].queue;
    var ws := s.workers[i := s.workers[i].(current := None)];
    var s1 := s.(workers := if s.queues[q].list == [] then ws else WakeIdle(ws, q));
    SameWorkersOwned(s, s1.workers);
    IterateIs(s1, i);
    assert LetGo(s, s1, i) && Serves(s1, Apply(s, Finish(i)).state, i);
  }

  lemma ListedPending(s: State, q: nat, w: Work)
    requires Owned(s) && q < |s.queues| && w in s.queues[q].list
    ensures w in s.pending
  {
    assert At(s, w, InQueue(q));
  }

  /** The timer thread takes an expired item out of the heap, queues it at the end of its queue, and is done. */
  lemma TimerIs(s: State, w: Work)
    requires Inv(s)
    ensures s.timer == Quiet && w in s.armed ==>
      var o := Apply(s, TimerFire(w)); o.Ok? && Goes(s, o.state, w, Some(InCallback)) && o.state.workers == s.workers && o.state.target == s.target
    ensures s.timer == Firing(w) ==>
      var o := Apply(s, TimerQueue);
      w in s.target && o.Ok? && Appended(s.(timer := Fired), o.state, s.target[w], w) && Goes(s, o.state, w, Some(InQueue(s.target[w])))
    ensures s.timer == Fired ==> Apply(s, TimerDone) == Ok(s.(timer := Quiet, timerSeq := s.timerSeq + 1))
  {
    hide Lists, Exclusive, AllAmple, Goes, Appended, Owned, Enqueue;
    if s.timer == Quiet && w in s.armed { FireGoes(s, w); }
    if s.timer == Firing(w) { QueueGoes(s, w); }
  }

  lemma FireGoes(s: State, w: Work)
    requires Owned(s) && w in s.armed && s.timer == Quiet
    ensures Goes(s, s.(armed := s.armed - {w}, timerPending := s.timerPending - {w}, timer := Firing(w), timerSeq := s.timerSeq + 1), w, Some(InCallback))
  {
    var s' := s.(armed := s.armed - {w}, timerPending := s.timerPending - {w}, timer := Firing(w), timerSeq := s.timerSeq + 1);
    OneFewer(s, w, InTimer);
    forall p ensures At(s', w, p) <==> p == InCallback { assert p != InTimer ==> !At(s, w, p); }
  }

  lemma QueueGoes(s: State, w: Work)
    requires Inv(s) && s.timer == Firing(w)
    ensures w in s.target && s.target[w] < |s.queues|
    ensures var s1 := s.(timer := Fired); var o := Enqueue(s1, s.target[w], w);
      o.Ok? && Appended(s1, o.state, s.target[w], w) && Goes(s, o.state, w, Some(InQueue(s.target[w])))
  {
    hide Lists, Exclusive, AllAmple, Enqueue, Appended, Goes;
    var s1 := s.(timer := Fired);
    OneFewer(s, w, InCallback);
    forall p ensures !At(s1, w, p) { assert p != InCallback ==> !At(s, w, p); }
    EnqueueIs(s1, s.target[w], w);
    AppendedGoes(s1, Enqueue(s1, s.target[w], w).state, s.target[w], w);
    GoesFrom(s, s1, Enqueue(s1, s.target[w], w).state, w, Some(InQueue(s.target[w])));
  }

  lemma GoesFrom(s: State, s1: State, s': State, w: Work, to: Option<Place>)
    requires SameBut(s, s1, w) && Goes(s1, s', w, to)
    ensures Goes(s, s', w, to)
  {}
}
