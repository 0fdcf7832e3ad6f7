/** What mempool.c's calls do to the pool: single sections, a call that runs alone, and the elements of a whole run. */
module MempoolRuns {
  import opened Mempool

  // ------------------------------------------------------------------- sections

  /** Taking from the pool waits exactly while it is empty; otherwise one of its elements goes to the caller and nothing else changes. */
  lemma TakeIs(s: State)
    ensures Apply(s, PoolAlloc).Blocked? <==> s.pool == []
    ensures s.pool != [] ==>
      var o := Apply(s, PoolAlloc);
      && o.Ok? && o.state == s.(pool := o.state.pool, held := o.state.held)
      && exists e: Elem :: e in s.pool && o.state.held == s.held + {e} && multiset(o.state.pool) + multiset{e} == multiset(s.pool)
  {
    if s.pool != [] {
      var o, e := Apply(s, PoolAlloc), Last(s);
      assert s.pool == s.pool[..|s.pool| - 1] + [e];
      assert e in s.pool && o.state.held == s.held + {e} && multiset(o.state.pool) + multiset{e} == multiset(s.pool);
    }
  }

  /** The locked section of a free gives the element to the pool exactly while the pool is below its minimum, and else to the system. */
  lemma GiveIs(s: State, t: nat)
    requires Bounded(s) && t in s.frees && s.frees[t].Locking?
    ensures
      var o, e := Apply(s, FreeLock(t)), s.frees[t].elem;
      && o.Ok? && o.state == s.(pool := o.state.pool, held := s.held - {e}, leaving := o.state.leaving, frees := s.frees - {t})
      && if |s.pool| < s.minNr then o.state.pool == s.pool + [e] && o.state.leaving == s.leaving
         else o.state.pool == s.pool && o.state.leaving == s.leaving + {e}
  {}

  /** The unlocked read sends a free to the lock exactly while the pool is below its minimum, and else commits the element to the system. */
  lemma ReadIs(s: State, t: nat)
    requires t in s.frees && s.frees[t].Called?
    ensures
      var o, e := Apply(s, FreeRead(t)), s.frees[t].elem;
      && o.Ok? && o.state.pool == s.pool
      && if |s.pool| < s.minNr then o.state == s.(frees := s.frees[t := Locking(e)])
         else o.state.frees == s.frees - {t} && o.state.held == s.held - {e} && o.state.leaving == s.leaving + {e}
  {}

  /** When the allocator, a caller of mempool_free and a resize without memory may act, and what then changes. */
  lemma OthersAre(s: State, t: nat, e: Elem)
    ensures Apply(s, SystemAlloc(e)) == if Unused(s, e) then Ok(s.(held := s.held + {e})) else Blocked
    ensures Apply(s, SystemFree(e)) == if e in s.leaving then Ok(s.(leaving := s.leaving - {e})) else Blocked
    ensures Apply(s, FreeCall(t, e)).Ok? <==> t !in s.frees && e in s.held && forall u | u in s.frees :: s.frees[u].elem != e
    ensures Apply(s, FreeCall(t, e)).Ok? ==> Apply(s, FreeCall(t, e)).state == s.(frees := s.frees[t := Called(e)])
    ensures Apply(s, ResizeNoMemory(t)).Ok? <==> t in s.resizes && (s.resizes[t].Growing? || s.resizes[t].Filling?)
    ensures Apply(s, ResizeNoMemory(t)).Ok? ==> Apply(s, ResizeNoMemory(t)).state == s.(resizes := s.resizes - {t})
  {}

  /** A growth overtaken by one at least as large drops its array; any other puts it in place, and fills it if the pool is below the new minimum. */
  lemma SwapIs(s: State, id: nat, e: Elem)
    requires Bounded(s) && id in s.resizes && s.resizes[id].Swapping?
    ensures
      var o, size := Apply(s, ResizeStep(id, e)), s.resizes[id].size;
      && o.Ok? && o.state.pool == s.pool && o.state.held == s.held && o.state.leaving == s.leaving
      && if size <= s.minNr then o.state == s.(resizes := s.resizes - {id})
         else o.state.minNr == o.state.room == size && id in o.state.resizes && o.state.resizes == s.resizes[id := Filling]
  {}

  // ------------------------------------------------------------- a run of elements

  lemma Then(s: State, steps: seq<Step>, step: Step)
    ensures Run(s, steps + [step]) == if Run(s, steps).Ok? then Apply(Run(s, steps).state, step) else Run(s, steps)
  {
    hide Apply;
    assert (steps + [step])[..|steps|] == steps;
  }

  lemma Nothing(s: State)
    ensures Run(s, []) == Ok(s)
  {}

  lemma {:induction false} RunJoin(s: State, a: seq<Step>, b: seq<Step>)
    ensures Run(s, a + b) == if Run(s, a).Ok? then Run(Run(s, a).state, b) else Run(s, a)
    decreases |b|
  {
    hide Apply;
    if |b| == 0 {
      assert a + b == a;
    } else {
      var n := |b| - 1;
      RunJoin(s, a, b[..n]);
      Then(s, a + b[..n], b[n]);
      assert a + b == a + b[..n] + [b[n]];
    }
  }

  /** A free that runs alone below the minimum puts its element in the pool. */
  lemma FreeAlone(s: State, t: nat, e: Elem)
    requires |s.pool| < s.minNr <= s.room && t !in s.frees && e in s.held && !BeingFreed(s, e)
    ensures Run(s, [FreeCall(t, e), FreeRead(t), FreeLock(t)]) == Ok(s.(pool := s.pool + [e], held := s.held - {e}))
  {
    hide Run;
    var s1 := s.(frees := s.frees[t := Called(e)]);
    var s2 := s.(frees := s.frees[t := Locking(e)]);
    assert s1.frees[t := Locking(e)] == s2.frees && s2.frees - {t} == s.frees;
    Nothing(s);
    Then(s, [], FreeCall(t, e));
    Then(s, [FreeCall(t, e)], FreeRead(t));
    Then(s, [FreeCall(t, e), FreeRead(t)], FreeLock(t));
    assert [] + [FreeCall(t, e)] == [FreeCall(t, e)] && [FreeCall(t, e)] + [FreeRead(t)] == [FreeCall(t, e), FreeRead(t)];
    assert [FreeCall(t, e), FreeRead(t)] + [FreeLock(t)] == [FreeCall(t, e), FreeRead(t), FreeLock(t)];
  }

  /** Freeing an element below the minimum and taking it again leaves the pool as it was: whoever waits on an empty pool is served by the next free. */
  lemma FreeThenTake(s: State, t: nat, e: Elem)
    requires |s.pool| < s.minNr <= s.room && t !in s.frees && e in s.held && !BeingFreed(s, e)
    ensures Run(s, [FreeCall(t, e), FreeRead(t), FreeLock(t), PoolAlloc]) == Ok(s)
  {
    hide Run;
    var free := [FreeCall(t, e), FreeRead(t), FreeLock(t)];
    FreeAlone(s, t, e);
    Then(s, free, PoolAlloc);
    var s3 := s.(pool := s.pool + [e], held := s.held - {e});
    assert s3.pool[..|s.pool|] == s.pool && s3.held + {e} == s.held;
    assert free + [PoolAlloc] == [FreeCall(t, e), FreeRead(t), FreeLock(t), PoolAlloc];
  }

  /** Taking an element and freeing it again leaves the pool as it was, in the same order. */
  lemma TakeThenFree(s: State, t: nat)
    requires Owned(s) && Bounded(s) && s.pool != [] && t !in s.frees
    ensures Run(s, [PoolAlloc, FreeCall(t, Last(s)), FreeRead(t), FreeLock(t)]) == Ok(s)
  {
    hide Run, NoDup;
    var e := Last(s);
    assert e in s.pool;
    var s1 := s.(pool := s.pool[..|s.pool| - 1], held := s.held + {e});
    var free := [FreeCall(t, e), FreeRead(t), FreeLock(t)];
    Nothing(s);
    Then(s, [], PoolAlloc);
    assert [] + [PoolAlloc] == [PoolAlloc];
    FreeAlone(s1, t, e);
    assert s1.pool + [e] == s.pool && s1.held - {e} == s.held;
    RunJoin(s, [PoolAlloc], free);
    assert [PoolAlloc] + free == [PoolAlloc, FreeCall(t, e), FreeRead(t), FreeLock(t)];
  }

  /**
   * The mempool's promise, in every run without resizing: an allocation either takes an element from the pool, or
   * min_nr elements are out, and freeing any one that nobody is freeing yet puts exactly that one in the pool.
   */
  lemma AllocServed(s: State, steps: seq<Step>, t: nat, e: Elem)
    requires Initial(s) && s.minNr > 0 && Run(s, steps).Ok? && forall n | 0 <= n < |steps| :: !steps[n].ResizeCall?
    ensures var m := Run(s, steps).state;
      if m.pool != [] then Apply(m, PoolAlloc).Ok? && Apply(m, PoolAlloc).state.held > m.held
      else
        && |m.held| >= s.minNr
        && (t !in m.frees && e in m.held && !BeingFreed(m, e) ==> Run(m, [FreeCall(t, e), FreeRead(t), FreeLock(t), PoolAlloc]) == Ok(m))
  {
    hide Run, Apply;
    RunReserve(s, steps);
    var m := Run(s, steps).state;
    TakeIs(m);
    if m.pool == [] {
      if t !in m.frees && e in m.held && !BeingFreed(m, e) { FreeThenTake(m, t, e); }
    } else {
      TakeMore(m);
    }
  }

  lemma TakeMore(s: State)
    requires Owned(s) && s.pool != []
    ensures Apply(s, PoolAlloc).Ok? && Apply(s, PoolAlloc).state.held > s.held
  {
    assert Last(s) in s.pool;
    assert Last(s) in Apply(s, PoolAlloc).state.held;
  }

  // ----------------------------------------------------------------- conservation

  function Adders(resizes: map<nat, Resize>): set<nat> { set r | r in resizes && resizes[r].Adding? }

  /** Everything that is in somebody's hands. */
  function Total(s: State): nat { |s.pool| + |s.held| + |s.leaving| + |Adders(s.resizes)| }

  /** The step takes an element from the underlying allocator. */
  predicate Makes(s: State, step: Step) {
    step.SystemAlloc? || (step.ResizeStep? && step.id in s.resizes && s.resizes[step.id].Filling?)
  }

  lemma AddersDone(resizes: map<nat, Resize>, id: nat)
    requires id in resizes
    ensures |Adders(resizes - {id})| == |Adders(resizes)| - if resizes[id].Adding? then 1 else 0
  {
    assert Adders(resizes - {id}) == Adders(resizes) - {id};
  }

  lemma AddersTurn(resizes: map<nat, Resize>, id: nat, r: Resize)
    ensures |Adders(resizes[id := r])| == |Adders(resizes)| + (if r.Adding? then 1 else 0) - if id in resizes && resizes[id].Adding? then 1 else 0
  {
    assert Adders(resizes[id := r]) == if r.Adding? then Adders(resizes) + {id} else Adders(resizes) - {id};
  }

  lemma ShrinkTotal(s: State, id: nat, size: nat)
    requires Owned(s) && (id in s.resizes ==> !s.resizes[id].Adding?)
    ensures Total(Shrink(s, id, size)) == Total(s)
  {
    hide Adders;
    AddersTurn(s.resizes, id, Shrinking(size));
    if id in s.resizes { AddersDone(s.resizes, id); } else { assert s.resizes - {id} == s.resizes; }
    if size < |s.pool| { assert Last(s) in s.pool && Last(s) !in s.leaving; }
  }

  lemma PassTotal(s: State, id: nat, e: Elem)
    requires Owned(s) && id in s.resizes && ResizePass(s, id, e).Ok?
    ensures Total(ResizePass(s, id, e).state) == Total(s) + if s.resizes[id].Filling? then 1 else 0
  {
    hide Adders, Shrink, NoDup;
    AddersDone(s.resizes, id);
    match s.resizes[id]
    case Shrinking(size) => ShrinkTotal(s, id, size);
    case Growing(size) => AddersTurn(s.resizes, id, Swapping(size));
    case Swapping(size) => AddersTurn(s.resizes, id, Filling);
    case Filling => AddersTurn(s.resizes, id, Adding(e));
    case Adding(x) => AddersTurn(s.resizes, id, Filling);
  }

  lemma StepTotal(s: State, step: Step)
    requires Owned(s) && Apply(s, step).Ok?
    ensures Total(Apply(s, step).state) + (if step.SystemFree? then 1 else 0) == Total(s) + if Makes(s, step) then 1 else 0
  {
    hide Adders, NoDup, ResizePass, Shrink;
    match step
    case PoolAlloc => assert Last(s) in s.pool;
    case ResizeCall(id, size) =>
      ShrinkTotal(s, id, size);
      AddersTurn(s.resizes, id, Growing(size));
    case ResizeStep(id, e) => PassTotal(s, id, e);
    case ResizeNoMemory(id) => AddersDone(s.resizes, id);
    case _ =>
  }

  /** How many elements the run took from the underlying allocator, and how many it gave back. */
  ghost function Made(s: State, steps: seq<Step>): nat
    decreases |steps|
  {
    if |steps| == 0 then 0
    else
      var n, o := |steps| - 1, Run(s, steps[..|steps| - 1]);
      Made(s, steps[..n]) + if o.Ok? && Makes(o.state, steps[n]) then 1 else 0
  }

  function Unmade(steps: seq<Step>): nat {
    if |steps| == 0 then 0 else Unmade(steps[..|steps| - 1]) + if steps[|steps| - 1].SystemFree? then 1 else 0
  }

  /** In every run, with any number of resizers, no element is lost or made up: each is in the pool, with a caller, on its way to the system, or with a resizer. */
  lemma {:induction false} RunTotal(s: State, steps: seq<Step>)
    requires Initial(s) && Run(s, steps).Ok?
    ensures Owned(Run(s, steps).state) && Total(Run(s, steps).state) + Unmade(steps) == |s.pool| + Made(s, steps)
    decreases |steps|
  {
    hide Apply, Makes;
    if |steps| == 0 {
      assert Adders(s.resizes) == {};
    } else {
      hide Total;
      var n := |steps| - 1;
      RunTotal(s, steps[..n]);
      StepTotal(Run(s, steps[..n]).state, steps[n]);
      StepOwned(Run(s, steps[..n]).state, steps[n]);
    }
  }

  // ------------------------------------------------------------- a resize that runs alone

  function Keep(list: seq<Elem>, size: nat): seq<Elem> { if size < |list| then list[..size] else list }

  function Rest(list: seq<Elem>, size: nat): set<Elem> { if size < |list| then set x | x in list[size..] else {} }

  /** A shrink frees the elements above its size, from the top, and then sets the minimum. */
  lemma {:induction false} ShrinkEnds(s: State, id: nat, size: nat) returns (steps: seq<Step>)
    requires id in s.resizes && s.resizes[id] == Shrinking(size)
    ensures Run(s, steps) == Ok(s.(pool := Keep(s.pool, size), leaving := s.leaving + Rest(s.pool, size), minNr := size, resizes := s.resizes - {id}))
    ensures forall x | x in steps :: x == ResizeStep(id, 0)
    decreases |s.pool|
  {
    hide Run;
    var step := ResizeStep(id, 0);
    Nothing(s);
    Then(s, [], step);
    assert [] + [step] == [step];
    if size < |s.pool| {
      var s1 := Apply(s, step).state;
      var n := |s.pool| - 1;
      assert s.resizes[id := Shrinking(size)] == s.resizes;
      assert s.pool[size..] == s.pool[size..n] + [s.pool[n]] && s1.pool == s.pool[..n] && s.pool[..n][size..] == s.pool[size..n] && s.pool[..n][..size] == s.pool[..size];
      var rest := ShrinkEnds(s1, id, size);
      RunJoin(s, [step], rest);
      steps := [step] + rest;
      assert s1.leaving + Rest(s1.pool, size) == s.leaving + Rest(s.pool, size);
    } else {
      steps := [step];
      assert s.leaving + Rest(s.pool, size) == s.leaving;
    }
  }

  /** Memory nobody has, one element for each missing. */
  ghost predicate Spare(s: State, news: seq<Elem>) { NoDup(news) && forall i | 0 <= i < |news| :: Unused(s, news[i]) }

  /** The fill loop adds the elements it is given, in order, and ends when the minimum is reached. */
  lemma {:induction false} FillEnds(s: State, id: nat, news: seq<Elem>) returns (steps: seq<Step>)
    requires id in s.resizes && s.resizes[id] == Filling && |s.pool| + |news| == s.minNr <= s.room && |news| > 0 && Spare(s, news)
    ensures Run(s, steps) == Ok(s.(pool := s.pool + news, resizes := s.resizes - {id}))
    decreases |news|
  {
    hide Run, NoDup, Unused;
    var e := news[0];
    var s2 := Fill(s.(pool := s.pool + [e]), id);
    FillOne(s, id, e);
    var two := [ResizeStep(id, e), ResizeStep(id, 0)];
    if |news| == 1 {
      assert s.pool + [e] == s.pool + news;
      steps := two;
    } else {
      assert s2.resizes == s.resizes;
      SpareLess(s, s2, news);
      var rest := FillEnds(s2, id, news[1..]);
      assert s2.pool + news[1..] == s.pool + news;
      RunJoin(s, two, rest);
      steps := two + rest;
    }
  }

  lemma FillOne(s: State, id: nat, e: Elem)
    requires id in s.resizes && s.resizes[id] == Filling && |s.pool| < s.minNr <= s.room && Unused(s, e)
    ensures Run(s, [ResizeStep(id, e), ResizeStep(id, 0)]) == Ok(Fill(s.(pool := s.pool + [e]), id))
  {
    hide Run, Unused;
    var s1 := s.(resizes := s.resizes[id := Adding(e)]);
    Nothing(s);
    Then(s, [], ResizeStep(id, e));
    Then(s, [ResizeStep(id, e)], ResizeStep(id, 0));
    assert s1.resizes[id := Filling] == s.resizes[id := Filling] && s1.resizes - {id} == s.resizes - {id};
    assert [] + [ResizeStep(id, e)] == [ResizeStep(id, e)] && [ResizeStep(id, e)] + [ResizeStep(id, 0)] == [ResizeStep(id, e), ResizeStep(id, 0)];
  }

  lemma SpareLess(s: State, s2: State, news: seq<Elem>)
    requires |news| > 0 && Spare(s, news) && s2 == s.(pool := s.pool + [news[0]])
    ensures Spare(s2, news[1..])
  {}

  lemma SpareSame(s: State, s2: State, news: seq<Elem>)
    requires Spare(s, news) && s2.pool == s.pool && s2.held == s.held && s2.leaving == s.leaving
    requires forall r | r in s2.resizes && s2.resizes[r].Adding? :: r in s.resizes && s2.resizes[r] == s.resizes[r]
    ensures Spare(s2, news)
  {}

  /** A resize that runs alone: a shrink keeps the lowest elements and frees the others; a growth keeps all and adds the memory it is given. */
  lemma ResizeAlone(s: State, id: nat, size: nat, news: seq<Elem>) returns (steps: seq<Step>)
    requires Bounded(s) && s.resizes == map[] && size > 0 && (size > s.minNr ==> |s.pool| + |news| == size && Spare(s, news))
    ensures Run(s, steps) == Ok(
      if size <= s.minNr then s.(minNr := size, pool := Keep(s.pool, size), leaving := s.leaving + Rest(s.pool, size))
      else s.(minNr := size, room := size, pool := s.pool + news))
  {
    hide Run, NoDup, Unused;
    var call := ResizeCall(id, size);
    Nothing(s);
    Then(s, [], call);
    assert [] + [call] == [call];
    var s1 := Apply(s, call).state;
    if size > s.minNr {
      SpareSame(s, s1, news);
      var rest := GrowEnds(s1, id, size, news);
      RunJoin(s, [call], rest);
      steps := [call] + rest;
      assert s1.resizes - {id} == s.resizes;
    } else if size < |s.pool| {
      FirstShrink(s, s1, id, size);
      var rest := ShrinkEnds(s1, id, size);
      RunJoin(s, [call], rest);
      steps := [call] + rest;
      assert s1.resizes - {id} == s.resizes;
    } else {
      steps := [call];
      assert s.resizes - {id} == s.resizes && s.leaving + Rest(s.pool, size) == s.leaving;
    }
  }

  lemma FirstShrink(s: State, s1: State, id: nat, size: nat)
    requires size < |s.pool| && s1 == Shrink(s, id, size)
    ensures Keep(s1.pool, size) == Keep(s.pool, size) && s1.leaving + Rest(s1.pool, size) == s.leaving + Rest(s.pool, size)
  {
    var n := |s.pool| - 1;
    assert s.pool[size..] == s.pool[size..n] + [s.pool[n]] && s.pool[..n][size..] == s.pool[size..n] && s.pool[..n][..size] == s.pool[..size];
  }

  lemma GrowEnds(s: State, id: nat, size: nat, news: seq<Elem>) returns (steps: seq<Step>)
    requires Bounded(s) && id in s.resizes && s.resizes[id] == Growing(size) && size > s.minNr && |s.pool| + |news| == size && Spare(s, news)
    ensures Run(s, steps) == Ok(s.(minNr := size, room := size, pool := s.pool + news, resizes := s.resizes - {id}))
  {
    hide Run, NoDup;
    var step := ResizeStep(id, 0);
    var s1 := s.(resizes := s.resizes[id := Swapping(size)]);
    var s2 := s.(minNr := size, room := size, resizes := s.resizes[id := Filling]);
    Nothing(s);
    Then(s, [], step);
    Then(s, [step], step);
    assert [] + [step] == [step] && [step] + [step] == [step, step];
    assert s1.resizes[id := Filling] == s2.resizes && s1.resizes - {id} == s.resizes - {id} && s2.resizes - {id} == s.resizes - {id};
    SpareSame(s, s2, news);
    var rest := FillEnds(s2, id, news);
    RunJoin(s, [step, step], rest);
    steps := [step, step] + rest;
  }
}
