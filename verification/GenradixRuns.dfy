/** __genradix_ptr_alloc calls over whole runs: what has returned stays, no node is leaked, and a call with memory finishes. */
module GenradixRuns {
  import opened Arith
  import opened Genradix
  import opened Options

  // ------------------------------------------------------------------- what is over

  /** What a call came to is final. */
  lemma OverStays(s: State, step: Step, c: nat)
    requires c in s.calls && (s.calls[c].Returned? || s.calls[c].Failed?) && Apply(s, step).Ok?
    ensures c in Apply(s, step).state.calls && Apply(s, step).state.calls[c] == s.calls[c]
  {
    hide Up, Pow64, RaiseTo, LinkAt, Reaches;
    FrameCalls(s, step);
  }

  lemma FrameCalls(s: State, step: Step)
    requires Apply(s, step).Ok?
    ensures forall d | d in s.calls && d != step.call :: d in Apply(s, step).state.calls && Apply(s, step).state.calls[d] == s.calls[d]
  {
    hide Up, Pow64, Reaches;
  }

  /** A call begins with the root of the moment; it runs out of memory only where it needs a node and has none. */
  lemma EdgesAre(s: State, c: nat, page: nat)
    ensures Apply(s, Begin(c, page)) == if c in s.calls then Blocked else Ok(s.(calls := s.calls[c := Growing(page, s.root, None)]))
    ensures Apply(s, NoMemory(c)).Ok? <==> c in s.calls && !s.calls[c].Returned? && SpareOf(s.calls[c]).None?
    ensures Apply(s, NoMemory(c)).Ok? ==> Apply(s, NoMemory(c)).state == s.(calls := s.calls[c := Failed])
  {
    hide Up, Pow64, Reaches;
  }

  // ------------------------------------------------------------------------- leaks

  ghost predicate Placed(s: State, n: nat) { exists p :: AtPlace(s, p, n) }

  ghost predicate Spare(s: State, n: nat) { exists c :: c in s.calls && SpareOf(s.calls[c]) == Some(n) }

  /** Every node in memory is linked or is the spare of a call. */
  ghost predicate NoLeak(s: State) { forall n | n in s.children :: Placed(s, n) || Spare(s, n) }

  lemma StillPlaced(s: State, s': State, n: nat)
    requires Keeps(s, s') && Placed(s, n)
    ensures Placed(s', n)
  {
    var p :| AtPlace(s, p, n);
    assert AtPlace(s', p, n);
  }

  lemma StillSpare(s: State, s': State, c: nat, n: nat)
    requires Spare(s, n) && (forall d | d in s.calls && d != c :: d in s'.calls && s'.calls[d] == s.calls[d])
    requires c in s.calls ==> SpareOf(s.calls[c]) != Some(n) || (c in s'.calls && SpareOf(s'.calls[c]) == Some(n))
    ensures Spare(s', n)
  {
    var d :| d in s.calls && SpareOf(s.calls[d]) == Some(n);
    assert d in s'.calls && SpareOf(s'.calls[d]) == Some(n);
  }

  /** Where the caller's own spare goes: it keeps it, links it or frees it. */
  ghost predicate SpareKept(s: State, s': State, c: nat) {
    c in s.calls && SpareOf(s.calls[c]).Some? ==>
      var n := SpareOf(s.calls[c]).value;
      n !in s'.children || Placed(s', n) || (c in s'.calls && SpareOf(s'.calls[c]) == Some(n))
  }

  lemma StepNoLeak(s: State, step: Step)
    requires Inv(s) && NoLeak(s) && Apply(s, step).Ok?
    ensures NoLeak(Apply(s, step).state)
  {
    hide Inv, Apply, Placed, Spare;
    var s', c := Apply(s, step).state, step.call;
    StepInv(s, step);
    FrameCalls(s, step);
    SpareGoes(s, step);
    NewNodes(s, step);
    forall n | n in s'.children ensures Placed(s', n) || Spare(s', n) {
      if n in s.children {
        if Placed(s, n) {
          StillPlaced(s, s', n);
        } else if c in s.calls && SpareOf(s.calls[c]) == Some(n) {
          if !Placed(s', n) { IsSpare(s', c, n); }
        } else {
          StillSpare(s, s', c, n);
        }
      } else {
        IsSpare(s', c, n);
      }
    }
  }

  lemma IsSpare(s: State, c: nat, n: nat)
    requires c in s.calls && SpareOf(s.calls[c]) == Some(n)
    ensures Spare(s, n)
  {}

  /** Only an allocation brings a node, and it becomes the caller's spare. */
  lemma NewNodes(s: State, step: Step)
    requires Inv(s) && Apply(s, step).Ok?
    ensures forall n | n in Apply(s, step).state.children && n !in s.children ::
      step.call in Apply(s, step).state.calls && SpareOf(Apply(s, step).state.calls[step.call]) == Some(n)
  {
    hide Inv, Up, Pow64, Reaches;
    if step.call in s.calls && SpareOf(s.calls[step.call]).Some? { SpareThere(s, step.call); }
  }

  lemma SpareThere(s: State, c: nat)
    requires Inv(s) && c in s.calls && SpareOf(s.calls[c]).Some?
    ensures SpareOf(s.calls[c]).value in s.children
  {
    assert SpareOk(s, c);
  }

  lemma SpareGoes(s: State, step: Step)
    requires Inv(s) && Apply(s, step).Ok?
    ensures SpareKept(s, Apply(s, step).state, step.call)
  {
    hide Inv, Up, Pow64, Reaches, Placed;
    var s', c := Apply(s, step).state, step.call;
    if step.Raise? && s.root == s.calls[c].seen {
      AtIs(s', Place(Raised(s.calls[c].seen, s.calls[c].spare.value).depth, 0), s.calls[c].spare.value);
    }
    if step.Link? {
      var h := s.calls[c].height;
      var p, i := Place(h, Up(s.calls[c].page, h)), Up(s.calls[c].page, h - 1) % 64;
      if i !in s.children[s.calls[c].node] { AtIs(s', Child(p, i), s.calls[c].spare.value); }
    }
  }

  lemma AtIs(s: State, p: Place, n: nat)
    requires p in s.places && s.places[p] == n
    ensures Placed(s, n)
  {
    assert AtPlace(s, p, n);
  }

  /** In every run each node in memory is in the tree or the spare of one call that still runs: losing a race leaks nothing. */
  lemma {:induction false} RunNoLeak(steps: seq<Step>)
    requires Run(Init, steps).Ok?
    ensures NoLeak(Run(Init, steps).state) && Inv(Run(Init, steps).state)
    decreases |steps|
  {
    hide Apply, Inv;
    RunInv(steps);
    if |steps| > 0 {
      var n := |steps| - 1;
      RunNoLeak(steps[..n]);
      StepNoLeak(Run(Init, steps[..n]).state, steps[n]);
    }
  }

  // ---------------------------------------------------------------------- progress

  lemma {:induction false} Above(nodes: set<nat>) returns (n: nat)
    ensures forall x | x in nodes :: x < n
    decreases |nodes|
  {
    if nodes == {} {
      n := 0;
    } else {
      var x :| x in nodes;
      var m := Above(nodes - {x});
      n := if x < m then m else x + 1;
      forall y | y in nodes ensures y < n { assert y != x ==> y in nodes - {x}; }
    }
  }

  lemma {:induction false} RunFront(s: State, step: Step, rest: seq<Step>)
    requires Apply(s, step).Ok?
    ensures Run(s, [step] + rest) == Run(Apply(s, step).state, rest)
    decreases |rest|
  {
    hide Apply;
    if rest == [] {
      assert [step] + rest == [step] && [step][..0] == [];
      assert Run(s, []) == Ok(s);
    } else {
      var n := |rest| - 1;
      RunFront(s, step, rest[..n]);
      assert ([step] + rest)[..n + 1] == [step] + rest[..n];
    }
  }

  lemma {:induction false} PowMore(a: nat, b: nat)
    requires a <= b
    ensures Pow64(a) <= Pow64(b)
    decreases b - a
  {
    if a < b { PowMore(a, b - 1); }
  }

  lemma {:induction false} PowAbove(page: nat)
    ensures page < Pow64(page + 1)
  {
    if page > 0 { PowAbove(page - 1); }
  }

  /** How many times the tree seen may have to be raised to hold 64^depth pages. */
  function Levels(seen: Option<Root>, depth: nat): nat {
    if seen.None? then depth + 1 else if seen.value.depth < depth then depth - seen.value.depth else 0
  }

  predicate Runs(c: Call) { c.Growing? || c.Walking? }

  function First(c: Call): nat { if c.Growing? then 1 else 0 }

  function Second(c: Call, depth: nat): nat { match c case Growing(_, seen, _) => Levels(seen, depth) case Walking(_, _, h, _) => h case _ => 0 }

  function Third(c: Call): nat { if SpareOf(c).None? then 1 else 0 }

  /** What an unfinished call does next, given a node that nobody has. */
  function NextStep(s: State, c: nat, node: nat): Step
    requires c in s.calls && Runs(s.calls[c])
  {
    match s.calls[c]
    case Growing(page, seen, spare) => if Reaches(seen, page) then Enter(c) else if spare.None? then Alloc(c, node) else Raise(c)
    case Walking(page, n, h, spare) =>
      if h == 0 then Finish(c)
      else if n in s.children && Up(page, h - 1) % 64 in s.children[n] then Read(c)
      else if spare.None? then Alloc(c, node) else Link(c)
    case _ => Finish(c)
  }

  ghost predicate Closer(c: Call, c': Call, depth: nat) {
    || First(c') < First(c)
    || (First(c') == First(c) && Second(c', depth) < Second(c, depth))
    || (First(c') == First(c) && Second(c', depth) == Second(c, depth) && Third(c') < Third(c))
  }

  /** A call that has memory can always make its next access, and gets closer to its end by it. */
  lemma CallGoes(s: State, c: nat, node: nat, depth: nat)
    requires Inv(s) && c in s.calls && Runs(s.calls[c]) && node !in s.children && s.calls[c].page < Pow64(depth)
    ensures Apply(s, NextStep(s, c, node)).Ok? && c in Apply(s, NextStep(s, c, node)).state.calls
    ensures
      var call, call' := s.calls[c], Apply(s, NextStep(s, c, node)).state.calls[c];
      if Runs(call') then call'.page == call.page && Closer(call, call', depth) else call'.Returned? && call'.page == call.page
  {
    hide Inv, Up, Pow64;
    if s.calls[c].Growing? { RootDeeper(s, c, depth); } else { if s.calls[c].height > 0 { WalkingNode(s, c); } }
  }

  /** The root is never less deep than the one a call saw. */
  lemma RootDeeper(s: State, c: nat, depth: nat)
    requires Inv(s) && c in s.calls && s.calls[c].Growing? && s.calls[c].page < Pow64(depth)
    ensures
      var seen := s.calls[c].seen;
      && (seen.Some? && s.root != seen ==> s.root.Some? && seen.value.depth < s.root.value.depth)
      && (!Reaches(seen, s.calls[c].page) && seen.Some? ==> seen.value.depth < depth)
  {
    hide Spares, Tree, Pow64, KidsOk;
    assert OnPath(s, s.calls[c]);
    var seen := s.calls[c].seen;
    if seen.Some? {
      PlaceParts(s, Place(seen.value.depth, 0));
      RootPlace(s);
      if seen.value.depth >= depth { PowMore(depth, seen.value.depth); }
    }
  }

  lemma RootPlace(s: State)
    requires Tree(s)
    ensures s.root.Some? ==> AtPlace(s, Place(s.root.value.depth, 0), s.root.value.node)
  {}

  /** With memory and left alone, a call returns its page's node. */
  lemma {:induction false} CallEnds(s: State, c: nat, depth: nat) returns (steps: seq<Step>)
    requires Inv(s) && c in s.calls && Runs(s.calls[c]) && s.calls[c].page < Pow64(depth)
    ensures Run(s, steps).Ok? && forall x | x in steps :: x.call == c && !x.NoMemory?
    ensures
      var s' := Run(s, steps).state;
      Inv(s') && c in s'.calls && s'.calls[c].Returned? && s'.calls[c].page == s.calls[c].page && AtPlace(s', Place(0, s.calls[c].page), s'.calls[c].node)
    decreases First(s.calls[c]), Second(s.calls[c], depth), Third(s.calls[c])
  {
    hide Inv, Apply, First, Second, Third, AtPlace;
    var node := Above(s.children.Keys);
    var step := NextStep(s, c, node);
    CallGoes(s, c, node, depth);
    StepInv(s, step);
    var s1 := Apply(s, step).state;
    if Runs(s1.calls[c]) {
      var rest := CallEnds(s1, c, depth);
      RunFront(s, step, rest);
      steps := [step] + rest;
    } else {
      RunFront(s, step, []);
      assert [step] + [] == [step];
      steps := [step];
      ReturnedAt(s1, c);
    }
  }

  lemma ReturnedAt(s: State, c: nat)
    requires Inv(s) && c in s.calls && s.calls[c].Returned?
    ensures AtPlace(s, Place(0, s.calls[c].page), s.calls[c].node)
  {
    assert OnPath(s, s.calls[c]);
  }

  /** __genradix_ptr_alloc of any page, from any state that a run can reach, can be brought to return that page's node. */
  lemma AllocEnds(s: State, c: nat, page: nat) returns (steps: seq<Step>)
    requires Inv(s) && c !in s.calls
    ensures Run(s, [Begin(c, page)] + steps).Ok? && forall x | x in steps :: x.call == c && !x.NoMemory?
    ensures
      var s' := Run(s, [Begin(c, page)] + steps).state;
      c in s'.calls && s'.calls[c].Returned? && AtPlace(s', Place(0, page), s'.calls[c].node)
  {
    hide Inv, Apply, AtPlace;
    EdgesAre(s, c, page);
    StepInv(s, Begin(c, page));
    var s1 := Apply(s, Begin(c, page)).state;
    PowAbove(page);
    steps := CallEnds(s1, c, page + 1);
    RunFront(s, Begin(c, page), steps);
  }
}
