/** What the calls of rhashtable.c return over whole runs, and that they finish when the others stand still. */
module RhashtableRuns {
  import opened Rhashtable

  // --------------------------------------------------------------- every run

  /** Every run from a state that meets the invariant keeps it, and keeps every object in the table. */
  lemma {:induction false} RunInv(e: Env, s: State, steps: seq<Step>)
    requires Inv(e, s) && Run(e, s, steps).Ok?
    ensures Inv(e, Run(e, s, steps).state) && forall o | o in s.loc :: o in Run(e, s, steps).state.loc
    decreases |steps|
  {
    hide Apply, Inv;
    if |steps| > 0 {
      var n := |steps| - 1;
      RunInv(e, s, steps[..n]);
      var m := Run(e, s, steps[..n]).state;
      ShapeOf(e, m);
      StepInv(e, m, steps[n]);
      NoneLost(e, m, steps[n]);
    }
  }

  lemma ShapeOf(e: Env, s: State)
    requires Inv(e, s)
    ensures Shape(s)
  {}

  lemma RunMore(e: Env, s: State, steps: seq<Step>, step: Step)
    ensures Run(e, s, steps + [step]) == var o := Run(e, s, steps); if o.Ok? && Shape(o.state) then Apply(e, o.state, step) else Blocked
  {
    hide Apply, Shape;
    assert (steps + [step])[..|steps|] == steps;
  }

  // ------------------------------------------------------------------ lookups

  /** A lookup's next read can always be made; it goes on with its key, or it returns what it should. */
  lemma ReadReturns(e: Env, s: State, id: nat)
    requires Inv(e, s) && id in s.readers
    ensures ReadPass(e, s, id).Ok?
    ensures var r, out := s.readers[id], ReadPass(e, s, id);
      && out.state == s.(readers := out.state.readers) && out.state.readers - {id} == s.readers - {id}
      && match out.ret
         case Going => id in out.state.readers && out.state.readers[id].key == r.key && out.state.readers[id].held == r.held
         case Found(o) => id !in out.state.readers && o in s.loc && e.keyOf(o) == r.key && r.held <= {o}
         case Missing => id !in out.state.readers && r.held == {}
         case _ => false
  {
    hide Inv;
    ReadPassInv(e, s, id);
    ShapeOf(e, s);
    var r := s.readers[id];
    HeldMatches(e, s, id);
    match r.ptr {
      case To(o) => if e.keyOf(o) == r.key { FoundOne(e, s, id); }
      case Nil(c) => if Misses(e, s, r) { LookupComplete(e, s, id); }
    }
  }

  lemma HeldMatches(e: Env, s: State, id: nat)
    requires Inv(e, s) && id in s.readers
    ensures s.readers[id].table < |s.tables|
    ensures forall o | o in s.readers[id].held :: o in s.loc && e.keyOf(o) == s.readers[id].key
  {
    hide Placed, Hashed, Pointers, UniqueKeys, Drained, Rehashing, Inserting, Holding, Slot, Strayed, StandsAt;
    assert OnTrack(e, s, s.readers[id]);
    HeldAfter(e, s, s.readers[id]);
  }

  lemma FoundOne(e: Env, s: State, id: nat)
    requires Inv(e, s) && id in s.readers && s.readers[id].ptr.To? && e.keyOf(s.readers[id].ptr.obj) == s.readers[id].key
    ensures s.readers[id].ptr.obj in s.loc && s.readers[id].held <= {s.readers[id].ptr.obj}
  {
    hide Placed, Hashed, Pointers, Drained, Rehashing, Inserting, Holding, Reading;
    LookupSound(e, s, id);
    HeldMatches(e, s, id);
  }

  /** Only ReadBegin makes a reader, and no step changes what one looks for. */
  lemma ReaderKept(e: Env, s: State, step: Step, id: nat)
    requires Inv(e, s) && Apply(e, s, step).Ok? && id in Apply(e, s, step).state.readers && (step.ReadBegin? ==> step.id != id)
    ensures id in s.readers && var r, r' := s.readers[id], Apply(e, s, step).state.readers[id]; r'.key == r.key && r'.held == r.held
  {
    hide Inv, Apply;
    ShapeOf(e, s);
    if step.ReadStep? { ReaderSteps(e, s, step.id, id); }
    else if step.ReadBegin? { ReadBegins(e, s, step.id, step.key); }
    else { ReadersSame(e, s, step); }
  }

  /** A lookup begins at the current table's bucket, and is to find whatever the table holds of its key. */
  lemma ReadBegins(e: Env, s: State, id: nat, k: nat)
    requires Shape(s)
    ensures Apply(e, s, ReadBegin(id, k)).Ok? <==> id !in s.readers
    ensures id !in s.readers ==>
      var s' := Apply(e, s, ReadBegin(id, k)).state;
      && s' == s.(readers := s'.readers) && s'.readers == s.readers[id := s'.readers[id]]
      && s'.readers[id].key == k && s'.readers[id].held == Matches(e, s, k)
  {
    hide Shape, Slot, Matches;
  }

  lemma ReaderSteps(e: Env, s: State, x: nat, id: nat)
    requires Inv(e, s) && Apply(e, s, ReadStep(x)).Ok? && id in Apply(e, s, ReadStep(x)).state.readers
    ensures id in s.readers && var r, r' := s.readers[id], Apply(e, s, ReadStep(x)).state.readers[id]; r'.key == r.key && r'.held == r.held
  {
    hide Inv, ReadPass;
    ShapeOf(e, s);
    if x in s.readers {
      ReadReturns(e, s, x);
      OtherReaders(s, ReadPass(e, s, x).state, x);
    } else {
      ReadNobody(e, s, x);
    }
  }

  lemma OtherReaders(s: State, s': State, id: nat)
    requires s'.readers - {id} == s.readers - {id}
    ensures forall x | x != id :: x in s'.readers <==> x in s.readers
    ensures forall x | x != id && x in s.readers :: s'.readers[x] == s.readers[x]
  {
    forall x | x != id ensures (x in s'.readers <==> x in s.readers) && (x in s.readers ==> s'.readers[x] == s.readers[x]) {
      assert x in s'.readers <==> x in s'.readers - {id};
      assert x in s.readers <==> x in s.readers - {id};
    }
  }

  lemma ReadStepIs(e: Env, s: State, id: nat)
    requires Shape(s)
    ensures Apply(e, s, ReadStep(id)) == ReadPass(e, s, id)
  {}

  lemma ReadNobody(e: Env, s: State, id: nat)
    requires Shape(s) && id !in s.readers
    ensures ReadPass(e, s, id) == Blocked
  {}

  lemma ReadersSame(e: Env, s: State, step: Step)
    requires Shape(s) && Apply(e, s, step).Ok? && !step.ReadStep? && !step.ReadBegin?
    ensures Apply(e, s, step).state.readers == s.readers
  {
    hide Shape, Slot, BucketLocked, InsertLocked, Fresh, InsertPass;
    if step.InsertVisit? { VisitReaders(e, s, step.id); }
  }

  lemma VisitReaders(e: Env, s: State, id: nat)
    requires Shape(s) && InsertPass(e, s, id).Ok?
    ensures InsertPass(e, s, id).state.readers == s.readers
  {
    hide Slot, HasKey, BucketLocked;
  }

  /** While a lookup runs it looks for the key it was given, and for what the table held of it then. */
  lemma {:induction false} ReaderRuns(e: Env, s: State, steps: seq<Step>, id: nat)
    requires Inv(e, s) && Run(e, s, steps).Ok? && id in Run(e, s, steps).state.readers
    requires forall x | x in steps && x.ReadBegin? :: x.id != id
    ensures id in s.readers && var r, r' := s.readers[id], Run(e, s, steps).state.readers[id]; r'.key == r.key && r'.held == r.held
    decreases |steps|
  {
    hide Apply, Inv;
    if |steps| > 0 {
      var n := |steps| - 1;
      RunInv(e, s, steps[..n]);
      ReaderKept(e, Run(e, s, steps[..n]).state, steps[n], id);
      ReaderRuns(e, s, steps[..n], id);
    }
  }

  /**
   * Whatever runs beside it, a lookup that returns an object returns one with its key that is in the table, the one
   * that was there at the start if there was one; and it returns none only if there was none at the start.
   */
  lemma LookupReturns(e: Env, s: State, id: nat, k: nat, steps: seq<Step>)
    requires Inv(e, s) && Apply(e, s, ReadBegin(id, k)).Ok?
    requires forall x | x in steps && x.ReadBegin? :: x.id != id
    requires Run(e, Apply(e, s, ReadBegin(id, k)).state, steps + [ReadStep(id)]).Ok?
    ensures var out := Run(e, Apply(e, s, ReadBegin(id, k)).state, steps + [ReadStep(id)]);
      match out.ret
      case Going => id in out.state.readers
      case Found(o) => o in out.state.loc && e.keyOf(o) == k && Matches(e, s, k) <= {o}
      case Missing => Matches(e, s, k) == {}
      case _ => false
  {
    hide Inv, ReadPass, Matches, Apply;
    ShapeOf(e, s);
    ReadBegins(e, s, id, k);
    StepInv(e, s, ReadBegin(id, k));
    var s1 := Apply(e, s, ReadBegin(id, k)).state;
    RunMore(e, s1, steps, ReadStep(id));
    RunInv(e, s1, steps);
    var m := Run(e, s1, steps).state;
    ReadStepIs(e, m, id);
    if id !in m.readers { ReadNobody(e, m, id); }
    ReaderRuns(e, s1, steps, id);
    ReadReturns(e, m, id);
  }

  // ------------------------------------------------------------------ inserts

  ghost predicate NoMatch(e: Env, s: State, k: nat) { forall o | o in s.loc :: e.keyOf(o) != k }

  /** The other inserts are as they were. */
  ghost predicate OthersSame(s: State, s': State, id: nat) {
    forall x | x != id :: (x in s'.inserters <==> x in s.inserters) && (x in s.inserters && x in s'.inserters ==> s'.inserters[x] == s.inserters[x])
  }

  /**
   * An insert's visit to a bucket waits only for the bucket's lock. It returns the object with its key exactly if the
   * bucket holds one; -E2BIG only if the table is full and holds none; otherwise it goes on with its object.
   */
  lemma VisitReturns(e: Env, s: State, id: nat)
    requires Inv(e, s) && id in s.inserters && s.inserters[id].Inserter?
    ensures s.inserters[id].table < |s.tables|
    ensures
      var i, k, out := s.inserters[id], e.keyOf(s.inserters[id].obj), InsertPass(e, s, id);
      var b := Slot(e, s, i.table, k);
      && b in s.chains && (out.Ok? <==> !BucketLocked(s, b))
      && (out.Ok? ==> out.state == s.(inserters := out.state.inserters) && OthersSame(s, out.state, id) && VisitOk(e, s, id, b, out))
  {
    hide Inv, BucketLocked, HasKey, Slot, Visit;
    ShapeOf(e, s);
    PassedOne(e, s, id);
    var i, k := s.inserters[id], e.keyOf(s.inserters[id].obj);
    SlotIn(e, s, i.table, k);
    var b := Slot(e, s, i.table, k);
    VisitIs(e, s, b, k);
    if NoMatch(e, s, k) { NoneInChain(e, s, b, k); }
    if HasKey(e, s.chains[b], k) {
      InChain(e, s, b, Match(e, s.chains[b], k));
    } else if i.table + 1 == |s.tables| {
      NoneLeft(e, s, i);
    }
  }

  /** More objects than buckets, and the table may still grow. */
  predicate Crowded(e: Env, s: State, t: nat)
    requires t < |s.tables|
  {
    s.nelems > s.tables[t].size && (e.maxSize == 0 || s.tables[t].size < e.maxSize)
  }

  /** What the visit to bucket b returns, and when. */
  ghost predicate VisitOk(e: Env, s: State, id: nat, b: Bkt, out: Outcome)
    requires out.Ok? && id in s.inserters && b in s.chains && b.table < |s.tables|
  {
    var i, k, last := s.inserters[id], e.keyOf(s.inserters[id].obj), b.table + 1 >= |s.tables|;
    && (out.ret.Present? <==> HasKey(e, s.chains[b], k))
    && (out.ret == TooMany <==> last && NoMatch(e, s, k) && |s.chains[b]| < RHT_ELASTICITY && s.nelems >= e.maxElems)
    && match out.ret
       case Going => id in out.state.inserters && out.state.inserters[id].obj == i.obj
         && if last && |s.chains[b]| < RHT_ELASTICITY && !Crowded(e, s, b.table) then out.state.inserters[id] == Ready(i.obj, i.table, b) && NoMatch(e, s, k)
            else out.state.inserters[id] == Inserter(i.obj, if last then s.cur else i.table + 1)
       case Present(o) => id !in out.state.inserters && o in s.loc && e.keyOf(o) == k
       case TooMany => id !in out.state.inserters && s.nelems >= e.maxElems && NoMatch(e, s, k)
       case _ => false
  }

  lemma VisitIs(e: Env, s: State, b: Bkt, k: nat)
    requires b in s.chains && b.table < |s.tables|
    ensures var v, last := Visit(e, s, b, k), b.table + 1 >= |s.tables|;
      && (v == Exists <==> HasKey(e, s.chains[b], k))
      && (v == Onward <==> !HasKey(e, s.chains[b], k) && !last)
      && (v == TooBig <==> !HasKey(e, s.chains[b], k) && last && |s.chains[b]| < RHT_ELASTICITY && s.nelems >= e.maxElems)
      && (v == Insert <==> !HasKey(e, s.chains[b], k) && last && |s.chains[b]| < RHT_ELASTICITY && s.nelems < e.maxElems && !Crowded(e, s, b.table))
  {
    hide HasKey;
  }

  lemma NoneInChain(e: Env, s: State, b: Bkt, k: nat)
    requires Inv(e, s) && b in s.chains && NoMatch(e, s, k)
    ensures !HasKey(e, s.chains[b], k)
  {
    hide HasKey;
    if HasKey(e, s.chains[b], k) { InChain(e, s, b, Match(e, s.chains[b], k)); }
  }

  lemma PassedOne(e: Env, s: State, id: nat)
    requires Inv(e, s) && id in s.inserters
    ensures Passed(e, s, s.inserters[id]) && s.inserters[id].table < |s.tables| && s.inserters[id].obj !in s.loc
  {}

  lemma SlotIn(e: Env, s: State, t: nat, k: nat)
    requires Shape(s) && t < |s.tables|
    ensures Slot(e, s, t, k) in s.chains && Slot(e, s, t, k) in s.heads && Slot(e, s, t, k).table == t
  {
    assert IsBkt(s, Slot(e, s, t, k));
  }

  lemma InChain(e: Env, s: State, b: Bkt, o: nat)
    requires Inv(e, s) && b in s.chains && o in s.chains[b]
    ensures o in s.loc
  {}

  lemma NoneLeft(e: Env, s: State, i: Inserter)
    requires Inv(e, s) && Passed(e, s, i) && i.table + 1 == |s.tables| && !HasKey(e, s.chains[Slot(e, s, i.table, e.keyOf(i.obj))], e.keyOf(i.obj))
    ensures NoMatch(e, s, e.keyOf(i.obj))
  {
    hide Inv, Slot, HasKey;
    PassedMore(e, s, i);
    forall o | o in s.loc ensures e.keyOf(o) != e.keyOf(i.obj) { InTable(e, s, o); }
  }

  /** An insert that holds its bucket adds its object, at the head of the bucket; nobody else has the key. */
  lemma AddReturns(e: Env, s: State, id: nat)
    requires Inv(e, s) && id in s.inserters && s.inserters[id].Ready?
    ensures var r, out := s.inserters[id], Apply(e, s, InsertAdd(id));
      && out.Ok? && out.ret == Added && NoMatch(e, s, e.keyOf(r.obj)) && OthersSame(s, out.state, id) && id !in out.state.inserters
      && r.bkt in s.chains && out.state.loc == s.loc[r.obj := r.bkt] && out.state.nelems == s.nelems + 1
      && out.state.chains == s.chains[r.bkt := [r.obj] + s.chains[r.bkt]] && r.obj !in s.loc
  {
    hide Placed, Hashed, Pointers, UniqueKeys, Drained, Rehashing, Reading, Slot, Undrained, RehashLocked, Inserting;
    var r := s.inserters[id];
    assert HoldOk(e, s, id);
    SlotIn(e, s, r.table, e.keyOf(r.obj));
    NotInside(e, s, id);
  }

  /** Only InsertBegin makes an inserter, and no step changes its object. */
  lemma InserterKept(e: Env, s: State, step: Step, id: nat)
    requires Inv(e, s) && Apply(e, s, step).Ok? && id in Apply(e, s, step).state.inserters && (step.InsertBegin? ==> step.id != id)
    ensures id in s.inserters && Apply(e, s, step).state.inserters[id].obj == s.inserters[id].obj
  {
    hide Inv, Apply;
    ShapeOf(e, s);
    if step.InsertVisit? { VisitKeeps(e, s, step.id, id); }
    else if step.InsertAdd? { AddKeeps(e, s, step.id, id); }
    else if step.InsertBegin? { InsertBegins(e, s, step.id, step.obj); }
    else { InsertersSame(e, s, step); }
  }

  lemma VisitKeeps(e: Env, s: State, x: nat, id: nat)
    requires Inv(e, s) && Apply(e, s, InsertVisit(x)).Ok? && id in Apply(e, s, InsertVisit(x)).state.inserters
    ensures id in s.inserters && Apply(e, s, InsertVisit(x)).state.inserters[id].obj == s.inserters[id].obj
  {
    hide Inv, InsertPass, Slot, BucketLocked, HasKey;
    ShapeOf(e, s);
    VisitNobody(e, s, x);
    VisitReturns(e, s, x);
  }

  lemma VisitNobody(e: Env, s: State, x: nat)
    requires Shape(s) && InsertPass(e, s, x).Ok?
    ensures x in s.inserters && s.inserters[x].Inserter?
  {}

  lemma AddKeeps(e: Env, s: State, x: nat, id: nat)
    requires Shape(s) && Apply(e, s, InsertAdd(x)).Ok? && id in Apply(e, s, InsertAdd(x)).state.inserters
    ensures id in s.inserters && Apply(e, s, InsertAdd(x)).state.inserters[id].obj == s.inserters[id].obj
  {}

  /** An insert begins at the current table unless its object is in the table or on its way there. */
  lemma InsertBegins(e: Env, s: State, id: nat, obj: nat)
    requires Shape(s)
    ensures Apply(e, s, InsertBegin(id, obj)).Ok? <==> id !in s.inserters && obj !in s.loc && forall i | i in s.inserters :: s.inserters[i].obj != obj
    ensures Apply(e, s, InsertBegin(id, obj)).Ok? ==> Apply(e, s, InsertBegin(id, obj)).state == s.(inserters := s.inserters[id := Inserter(obj, s.cur)])
  {
    hide Shape;
  }

  lemma InsertersSame(e: Env, s: State, step: Step)
    requires Shape(s) && Apply(e, s, step).Ok? && !step.InsertBegin? && !step.InsertVisit? && !step.InsertAdd?
    ensures Apply(e, s, step).state.inserters == s.inserters
  {
    hide Shape, Slot, HasKey, BucketLocked, InsertLocked, Fresh, Matches;
  }

  lemma {:induction false} InserterRuns(e: Env, s: State, steps: seq<Step>, id: nat)
    requires Inv(e, s) && Run(e, s, steps).Ok? && id in Run(e, s, steps).state.inserters
    requires forall x | x in steps && x.InsertBegin? :: x.id != id
    ensures id in s.inserters && Run(e, s, steps).state.inserters[id].obj == s.inserters[id].obj
    decreases |steps|
  {
    hide Apply, Inv;
    if |steps| > 0 {
      var n := |steps| - 1;
      RunInv(e, s, steps[..n]);
      InserterKept(e, Run(e, s, steps[..n]).state, steps[n], id);
      InserterRuns(e, s, steps[..n], id);
    }
  }

  /**
   * Whatever runs beside it, an insert that succeeds put its object in, and no object had its key when it began; one
   * that returns an object did not, and that object is in the table with its key; -E2BIG is returned only when full.
   */
  lemma InsertReturns(e: Env, s: State, id: nat, obj: nat, steps: seq<Step>, last: Step)
    requires Inv(e, s) && Apply(e, s, InsertBegin(id, obj)).Ok?
    requires (forall x | x in steps && x.InsertBegin? :: x.id != id) && (last == InsertVisit(id) || last == InsertAdd(id))
    requires Run(e, Apply(e, s, InsertBegin(id, obj)).state, steps + [last]).Ok?
    ensures var out := Run(e, Apply(e, s, InsertBegin(id, obj)).state, steps + [last]);
      match out.ret
      case Going => id in out.state.inserters
      case Added => last == InsertAdd(id) && obj in out.state.loc && NoMatch(e, s, e.keyOf(obj))
      case Present(o) => o in out.state.loc && e.keyOf(o) == e.keyOf(obj) && obj !in out.state.loc
      case TooMany => out.state.nelems >= e.maxElems && obj !in out.state.loc && NoMatch(e, s, e.keyOf(obj))
      case _ => false
  {
    hide Inv, Apply;
    ShapeOf(e, s);
    InsertBegins(e, s, id, obj);
    StepInv(e, s, InsertBegin(id, obj));
    var s1 := Apply(e, s, InsertBegin(id, obj)).state;
    RunMore(e, s1, steps, last);
    RunInv(e, s1, steps);
    var m := Run(e, s1, steps).state;
    LastInsert(e, m, id, last);
    InserterRuns(e, s1, steps, id);
  }

  lemma LastInsert(e: Env, m: State, id: nat, last: Step)
    requires Inv(e, m) && (last == InsertVisit(id) || last == InsertAdd(id)) && Apply(e, m, last).Ok?
    ensures id in m.inserters
    ensures var obj, out := m.inserters[id].obj, Apply(e, m, last);
      match out.ret
      case Going => id in out.state.inserters
      case Added => last == InsertAdd(id) && obj in out.state.loc && NoMatch(e, m, e.keyOf(obj))
      case Present(o) => o in out.state.loc && e.keyOf(o) == e.keyOf(obj) && obj !in out.state.loc
      case TooMany => out.state.nelems >= e.maxElems && obj !in out.state.loc && NoMatch(e, m, e.keyOf(obj))
      case _ => false
  {
    hide Inv, Apply, InsertPass, Slot, BucketLocked, HasKey;
    ShapeOf(e, m);
    if last == InsertVisit(id) {
      VisitStepIs(e, m, id);
      VisitNobody(e, m, id);
      VisitReturns(e, m, id);
      PassedOne(e, m, id);
    } else {
      AddSomebody(e, m, id);
      AddReturns(e, m, id);
    }
  }

  lemma VisitStepIs(e: Env, s: State, id: nat)
    requires Shape(s)
    ensures Apply(e, s, InsertVisit(id)) == InsertPass(e, s, id)
  {}

  lemma AddSomebody(e: Env, s: State, id: nat)
    requires Shape(s) && Apply(e, s, InsertAdd(id)).Ok?
    ensures id in s.inserters && s.inserters[id].Ready?
  {}

  // ----------------------------------------------------------------- progress

  /** The rehasher is not between the writes of a move. */
  predicate Settled(s: State) { s.rehash == Free || s.rehash == Locked }

  /** What a lookup at p still has to walk of the chain it is in. */
  ghost predicate Left(s: State, p: Ptr, n: nat) {
    match p
    case Nil(_) => n == 0
    case To(o) => exists b, i :: b in s.chains && 0 <= i < |s.chains[b]| && s.chains[b][i] == o && n == |s.chains[b]| - i
  }

  /** From a head, or after a step, the walk is no longer than the chain that is left. */
  lemma LeftAt(s: State, b: Bkt, i: nat)
    requires Settled(s) && b in s.chains && i <= |s.chains[b]|
    ensures Left(s, PtrAt(s, b, i), |s.chains[b]| - i)
  {}

  lemma LeftOf(e: Env, s: State, o: nat, n: nat) returns (b: Bkt, i: nat)
    requires Inv(e, s) && Left(s, To(o), n)
    ensures b in s.chains && i < |s.chains[b]| && s.chains[b][i] == o && n == |s.chains[b]| - i
    ensures o in s.next && s.next[o] == PtrAt(s, b, i + 1)
  {
    hide Placed, Hashed, UniqueKeys, Drained, Rehashing, Inserting, Holding, Reading, Pointers;
    b, i :| b in s.chains && 0 <= i < |s.chains[b]| && s.chains[b][i] == o && n == |s.chains[b]| - i;
    PointersAt(s, b, i);
  }

  lemma {:induction false} RunFront(e: Env, s: State, step: Step, rest: seq<Step>)
    requires Shape(s) && Apply(e, s, step).Ok?
    ensures rest != [] ==> Run(e, s, [step] + rest) == Run(e, Apply(e, s, step).state, rest)
    ensures Run(e, s, [step]) == Apply(e, s, step)
    decreases |rest|
  {
    hide Apply, Shape;
    RunMore(e, s, [], step);
    assert [] + [step] == [step];
    if rest != [] {
      var n := |rest| - 1;
      RunFront(e, s, step, rest[..n]);
      assert ([step] + rest)[..n + 1] == [step] + rest[..n];
      assert n == 0 ==> [step] + rest[..n] == [step];
    }
  }

  /** The lookup is in its own bucket's chain. */
  predicate Home(e: Env, s: State, r: Reader)
    requires Shape(s) && r.table < |s.tables|
  {
    var b := Slot(e, s, r.table, r.key);
    match r.ptr
    case Nil(c) => c == b
    case To(o) => b in s.chains && o in s.chains[b]
  }

  function Away(home: bool): nat { if home then 0 else 1 }

  /** A read between moves brings the lookup closer to its end: in tables to visit, in being off its bucket, in chain left to walk. */
  lemma ReadCloser(e: Env, s: State, id: nat, n: nat) returns (n': nat)
    requires Inv(e, s) && Settled(s) && id in s.readers && s.readers[id].table < |s.tables| && Left(s, s.readers[id].ptr, n)
    ensures ReadPass(e, s, id).Ok?
    ensures ReadPass(e, s, id).ret == Going ==>
      var r, s' := s.readers[id], ReadPass(e, s, id).state;
      && id in s'.readers && s'.readers[id].table < |s'.tables| == |s.tables| && Shape(s') && Left(s', s'.readers[id].ptr, n')
      && (|| s'.readers[id].table > r.table
          || (s'.readers[id].table == r.table && Away(Home(e, s', s'.readers[id])) < Away(Home(e, s, r)))
          || (s'.readers[id].table == r.table && Away(Home(e, s', s'.readers[id])) == Away(Home(e, s, r)) && n' < n))
  {
    hide Inv, Left, Home, Pointers;
    ReadPassInv(e, s, id);
    ShapeOf(e, s);
    var r := s.readers[id];
    var b := Slot(e, s, r.table, r.key);
    var s' := ReadPass(e, s, id).state;
    ShapeOf(e, s');
    n' := 0;
    match r.ptr {
      case To(o) =>
        if e.keyOf(o) != r.key {
          var c, i := LeftOf(e, s, o, n);
          LeftAt(s, c, i + 1);
          n' := n - 1;
          SameLeft(s, s', s'.readers[id].ptr, n');
          StillHome(e, s, s', r, s'.readers[id], c, i);
        }
      case Nil(c) =>
        var t := if c != b then r.table else r.table + 1;
        if t < |s.tables| {
          n' := HeadLeft(e, s, t, r.key);
          SameLeft(s, s', s'.readers[id].ptr, n');
          if c != b {
            AwayNil(e, s, r, c);
            HomeHead(e, s, s', s'.readers[id]);
          }
        }
    }
  }

  lemma SameLeft(s: State, s': State, p: Ptr, n: nat)
    requires s'.chains == s.chains && Left(s, p, n)
    ensures Left(s', p, n)
  {
    if p.To? {
      var b, i :| b in s.chains && 0 <= i < |s.chains[b]| && s.chains[b][i] == p.obj && n == |s.chains[b]| - i;
      assert b in s'.chains && s'.chains[b][i] == p.obj;
    }
  }

  lemma HeadLeft(e: Env, s: State, t: nat, k: nat) returns (n: nat)
    requires Inv(e, s) && Settled(s) && t < |s.tables|
    ensures Slot(e, s, t, k) in s.heads && Left(s, s.heads[Slot(e, s, t, k)], n)
  {
    hide Placed, Hashed, UniqueKeys, Drained, Rehashing, Inserting, Holding, Reading, Pointers, Left;
    SlotIn(e, s, t, k);
    var b := Slot(e, s, t, k);
    PointersAtHead(s, b);
    LeftAt(s, b, 0);
    n := |s.chains[b]|;
  }

  lemma AwayNil(e: Env, s: State, r: Reader, c: Bkt)
    requires Shape(s) && r.table < |s.tables| && r.ptr == Nil(c) && c != Slot(e, s, r.table, r.key)
    ensures !Home(e, s, r)
  {}

  lemma HomeHead(e: Env, s: State, s': State, r: Reader)
    requires Inv(e, s) && Settled(s) && s' == s.(readers := s'.readers) && Shape(s') && r.table < |s.tables|
    requires Slot(e, s, r.table, r.key) in s.heads && r.ptr == s.heads[Slot(e, s, r.table, r.key)]
    ensures Home(e, s', r)
  {
    hide Placed, Hashed, UniqueKeys, Drained, Rehashing, Inserting, Holding, Reading, Pointers;
    SlotIn(e, s, r.table, r.key);
    PointersAtHead(s, Slot(e, s, r.table, r.key));
  }

  /** A step along a chain stays in that chain. */
  lemma StillHome(e: Env, s: State, s': State, r: Reader, r': Reader, c: Bkt, i: nat)
    requires Inv(e, s) && Settled(s) && s' == s.(readers := s'.readers) && Shape(s') && r.table < |s.tables| && r'.table == r.table && r'.key == r.key
    requires c in s.chains && i < |s.chains[c]| && r.ptr == To(s.chains[c][i]) && r'.ptr == PtrAt(s, c, i + 1)
    ensures Home(e, s', r') <==> Home(e, s, r)
  {
    hide Hashed, UniqueKeys, Drained, Rehashing, Inserting, Holding, Reading, Pointers;
    SlotIn(e, s, r.table, r.key);
  }

  /** Between moves a lookup that runs alone returns. */
  lemma {:induction false} LookupEnds(e: Env, s: State, id: nat, n: nat) returns (steps: seq<Step>)
    requires Inv(e, s) && Settled(s) && id in s.readers && s.readers[id].table < |s.tables| && Left(s, s.readers[id].ptr, n)
    ensures Run(e, s, steps).Ok? && Run(e, s, steps).ret != Going && Run(e, s, steps).state.loc == s.loc
    ensures steps != [] && forall x | x in steps :: x == ReadStep(id)
    decreases |s.tables| - s.readers[id].table, Away(Home(e, s, s.readers[id])), n
  {
    hide Inv, Left, Home, ReadPass, Apply;
    ShapeOf(e, s);
    var n' := ReadCloser(e, s, id, n);
    ReadStepIs(e, s, id);
    RunFront(e, s, ReadStep(id), []);
    ReadReturns(e, s, id);
    if ReadPass(e, s, id).ret != Going {
      steps := [ReadStep(id)];
    } else {
      StepInv(e, s, ReadStep(id));
      var rest := LookupEnds(e, ReadPass(e, s, id).state, id, n');
      RunFront(e, s, ReadStep(id), rest);
      steps := [ReadStep(id)] + rest;
    }
  }

  /** Between moves a lookup that runs alone returns the object with its key, or none exactly if there is none. */
  lemma LookupAlone(e: Env, s: State, id: nat, k: nat) returns (steps: seq<Step>)
    requires Inv(e, s) && Settled(s) && id !in s.readers
    ensures Apply(e, s, ReadBegin(id, k)).Ok? && forall x | x in steps :: x == ReadStep(id)
    ensures var out := Run(e, Apply(e, s, ReadBegin(id, k)).state, steps);
      && out.Ok? && out.state.loc == s.loc && (Matches(e, s, k) == {} ==> out.ret == Missing)
      && (Matches(e, s, k) != {} ==> out.ret.Found? && Matches(e, s, k) == {out.ret.obj})
  {
    hide Inv, Apply, Left, Home;
    ShapeOf(e, s);
    ReadBegins(e, s, id, k);
    StepInv(e, s, ReadBegin(id, k));
    var s1 := Apply(e, s, ReadBegin(id, k)).state;
    var n := FirstLeft(e, s, id, k);
    steps := LookupEnds(e, s1, id, n);
    var m := |steps| - 1;
    assert steps[m] in steps;
    assert steps == steps[..m] + [ReadStep(id)];
    forall x | x in steps[..m] ensures x == ReadStep(id) { assert x in steps; }
    LookupReturns(e, s, id, k, steps[..m]);
    var out := Run(e, s1, steps);
    if out.ret.Found? { assert out.ret.obj in Matches(e, s, k); }
  }

  lemma FirstLeft(e: Env, s: State, id: nat, k: nat) returns (n: nat)
    requires Inv(e, s) && Settled(s) && id !in s.readers
    ensures Shape(s) && Apply(e, s, ReadBegin(id, k)).Ok?
    ensures var s1 := Apply(e, s, ReadBegin(id, k)).state; id in s1.readers && s1.readers[id].table < |s1.tables| && Left(s1, s1.readers[id].ptr, n)
  {
    hide Inv, Left, Slot;
    ShapeOf(e, s);
    n := HeadLeft(e, s, s.cur, k);
    var s1 := Apply(e, s, ReadBegin(id, k)).state;
    SameLeft(s, s1, s1.readers[id].ptr, n);
  }

  // ---------------------------------------------------------------- the rehasher

  /** A table of any size but none can be attached at any time: it becomes the last, empty, and nothing else changes. */
  lemma AttachIs(e: Env, s: State, size: nat, rnd: nat)
    requires Shape(s)
    ensures
      var o := Apply(e, s, Attach(size, rnd));
      && (o.Ok? <==> size > 0)
      && (o.Ok? ==>
            && o.state == s.(tables := s.tables + [Table(size, rnd)], heads := o.state.heads, chains := o.state.chains)
            && (forall b | b in s.chains :: b in o.state.chains && o.state.chains[b] == s.chains[b] && b in o.state.heads && o.state.heads[b] == s.heads[b])
            && forall i | 0 <= i < size :: var b := Bkt(|s.tables|, i); b in o.state.chains && o.state.chains[b] == [] && b in o.state.heads && o.state.heads[b] == Nil(b))
  {
    forall b | b in s.chains ensures b.table < |s.tables| { assert IsBkt(s, b); }
  }

  /** No insert holds a bucket. */
  predicate NobodyHolds(s: State) { forall i | i in s.inserters :: s.inserters[i].Inserter? }

  function ToDo(s: State): nat { if s.cur < |s.tables| && s.done <= s.tables[s.cur].size then s.tables[s.cur].size - s.done else 0 }

  ghost function ToMove(s: State): nat { if OldBkt(s) in s.chains then |s.chains[OldBkt(s)]| else 0 }

  function Phase(r: Rehash): nat {
    match r
    case Free => 4
    case Published(_, _) => 3
    case Locked => 2
    case Linked(_, _) => 1
  }

  /** The rehash gets on: by a table, or a bucket of it, or an object of that, or a write of its move. */
  ghost predicate Closer(s: State, s': State)
    requires Shape(s) && Shape(s')
  {
    && s'.tables == s.tables && s'.inserters == s.inserters && s'.loc.Keys == s.loc.Keys
    && (|| s'.cur > s.cur
        || (s'.cur == s.cur && ToDo(s') < ToDo(s))
        || (s'.cur == s.cur && ToDo(s') == ToDo(s) && ToMove(s') < ToMove(s))
        || (s'.cur == s.cur && ToDo(s') == ToDo(s) && ToMove(s') == ToMove(s) && Phase(s'.rehash) < Phase(s.rehash)))
  }

  /** The step that rhashtable_rehash_table makes next; the object it moves goes to the last table. */
  function NextMove(s: State): Step
    requires s.cur < |s.tables|
  {
    match s.rehash
    case Free => if s.done < s.tables[s.cur].size then StartBucket else SwitchTable
    case Locked => if OldBkt(s) in s.chains && s.chains[OldBkt(s)] == [] then EndBucket else MoveLink(|s.tables| - 1)
    case Linked(_, _) => MovePublish
    case Published(_, _) => MoveUnlink
  }

  /** While a later table waits and no insert holds a bucket, the rehasher can make its next write, and gets closer. */
  lemma RehashCloser(e: Env, s: State)
    requires Inv(e, s) && s.cur + 1 < |s.tables| && NobodyHolds(s)
    ensures Apply(e, s, NextMove(s)).Ok? && Shape(Apply(e, s, NextMove(s)).state) && Closer(s, Apply(e, s, NextMove(s)).state)
  {
    hide Inv, Slot, Apply;
    ShapeOf(e, s);
    RehashEnabled(e, s);
    StepInv(e, s, NextMove(s));
    ShapeOf(e, Apply(e, s, NextMove(s)).state);
    RehashEffect(e, s);
  }

  lemma RehashEnabled(e: Env, s: State)
    requires Inv(e, s) && s.cur + 1 < |s.tables| && NobodyHolds(s)
    ensures Apply(e, s, NextMove(s)).Ok?
  {
    hide Placed, Hashed, Pointers, UniqueKeys, Drained, Inserting, Holding, Reading, Slot;
    if s.rehash != Free { assert IsBkt(s, OldBkt(s)); }
    if s.rehash.Linked? { SlotIn(e, s, s.rehash.to.table, e.keyOf(s.rehash.obj)); }
  }

  lemma RehashEffect(e: Env, s: State)
    requires Inv(e, s) && s.cur + 1 < |s.tables| && Apply(e, s, NextMove(s)).Ok? && Shape(Apply(e, s, NextMove(s)).state)
    ensures Closer(s, Apply(e, s, NextMove(s)).state)
  {
    hide Inv, Slot, InsertLocked, PublishMoved, Shape, Closer;
    ShapeOf(e, s);
    DoneBelow(e, s);
    if s.rehash.Linked? { PublishCloser(e, s); } else { OtherCloser(s, Apply(e, s, NextMove(s)).state); }
  }

  lemma DoneBelow(e: Env, s: State)
    requires Inv(e, s)
    ensures s.done <= s.tables[s.cur].size && (s.rehash != Free ==> s.done < s.tables[s.cur].size)
    ensures s.rehash.Linked? ==> OldBkt(s) in s.chains && |s.chains[OldBkt(s)]| > 0 && s.rehash.to in s.chains && s.rehash.to != OldBkt(s) && s.rehash.obj in s.loc
  {
    hide Hashed, Pointers, UniqueKeys, Drained, Inserting, Holding, Reading, Slot;
    if s.rehash.Linked? { SlotIn(e, s, s.rehash.to.table, e.keyOf(s.rehash.obj)); }
  }

  lemma PublishCloser(e: Env, s: State)
    requires Inv(e, s) && s.rehash.Linked? && OldBkt(s) in s.chains && |s.chains[OldBkt(s)]| > 0 && s.rehash.to in s.chains && Shape(PublishMoved(s))
    ensures Closer(s, PublishMoved(s))
  {
    hide Inv;
    DoneBelow(e, s);
    assert PublishMoved(s).loc.Keys == s.loc.Keys;
  }

  /** The moves that leave the chains as they are. */
  lemma OtherCloser(s: State, s': State)
    requires Shape(s) && Shape(s') && s'.tables == s.tables && s'.inserters == s.inserters && s'.loc == s.loc && s'.chains == s.chains
    requires s.done <= s.tables[s.cur].size && (s.rehash != Free ==> s.done < s.tables[s.cur].size)
    requires s'.cur > s.cur || (s'.cur == s.cur && (s'.done == s.done + 1 <= s.tables[s.cur].size || (s'.done == s.done && Phase(s'.rehash) < Phase(s.rehash))))
    ensures Closer(s, s')
  {}

  /** Left to itself the rehasher finishes: ht->tbl becomes the last table, and every object is in it. */
  lemma {:induction false} RehashEnds(e: Env, s: State) returns (steps: seq<Step>)
    requires Inv(e, s) && NobodyHolds(s)
    ensures Run(e, s, steps).Ok?
    ensures var s' := Run(e, s, steps).state; s'.cur + 1 == |s'.tables| == |s.tables| && s'.loc.Keys == s.loc.Keys && forall o | o in s'.loc :: s'.loc[o].table == s'.cur
    decreases |s.tables| - s.cur, ToDo(s), ToMove(s), Phase(s.rehash)
  {
    hide Inv, Apply, NextMove, ToMove, ToDo, Phase;
    ShapeOf(e, s);
    if s.cur + 1 == |s.tables| {
      steps := [];
      forall o | o in s.loc ensures s.loc[o].table == s.cur { InTable(e, s, o); }
    } else {
      var step := NextMove(s);
      RehashCloser(e, s);
      StepInv(e, s, step);
      RunFront(e, s, step, []);
      var s1 := Apply(e, s, step).state;
      var rest := RehashEnds(e, s1);
      RunFront(e, s, step, rest);
      steps := [step] + rest;
      if rest == [] { assert steps == [step]; }
    }
  }
}
