/**
 * The growable radix tree of linux/generic-radix-tree.c under concurrent __genradix_ptr_alloc calls. A step is one
 * atomic access of a call: reading a pointer, a cmpxchg, or an allocation. Pages are numbered from 0; a node at
 * height h and position p holds the pages p * 64^h to (p + 1) * 64^h - 1, whatever the depth of the tree.
 */
module Genradix {
  import opened Arith
  import opened Options

  datatype Root = Root(node: nat, depth: nat)

  /** Height and position of a node. */
  datatype Place = Place(height: nat, pos: nat)

  /** A call for a page: raising the tree from the root it last saw, walking down, or returned. */
  datatype Call =
    | Growing(page: nat, seen: Option<Root>, spare: Option<nat>)
    | Walking(page: nat, node: nat, height: nat, spare: Option<nat>)
    | Returned(page: nat, node: nat)
    | Failed

  datatype State = State(
    root: Option<Root>,
    children: map<nat, map<nat, nat>>,  // the child pointers that are not NULL, for every node in memory
    calls: map<nat, Call>,
    places: map<Place, nat>)            // which node is linked at each place

  const Init := State(None, map[], map[], map[])

  lemma {:induction false} UpZero(page: nat, h: nat)
    ensures Up(page, h) == 0 <==> page < Pow64(h)
  {
    UpRange(page, h, 0);
  }

  // ------------------------------------------------------------------ invariant

  function Child(p: Place, i: nat): Place
    requires p.height > 0
  {
    Place(p.height - 1, 64 * p.pos + i)
  }

  function Parent(p: Place): Place { Place(p.height + 1, p.pos / 64) }

  /** The child pointers of the node at p are the nodes at p's child places. */
  ghost predicate KidsOk(s: State, p: Place)
    requires p in s.places && s.places[p] in s.children
  {
    var kids := s.children[s.places[p]];
    && (forall i: nat | i in kids :: i < 64 && p.height > 0 && Child(p, i) in s.places && kids[i] == s.places[Child(p, i)])
    && (forall i: nat | i < 64 && p.height > 0 && Child(p, i) in s.places :: i in kids)
  }

  ghost predicate Inside(s: State, p: Place) {
    && s.root.Some? && p.height <= s.root.value.depth && p.pos < Pow64(s.root.value.depth - p.height)
    && (p.height < s.root.value.depth ==> Parent(p) in s.places)
  }

  ghost predicate Tree(s: State) {
    && (s.root.Some? ==> Place(s.root.value.depth, 0) in s.places && s.places[Place(s.root.value.depth, 0)] == s.root.value.node)
    && (forall p | p in s.places :: Inside(s, p))
    && (forall p, q | p in s.places && q in s.places && s.places[p] == s.places[q] :: p == q)
    && (forall p | p in s.places :: s.places[p] in s.children && KidsOk(s, p))
  }

  function SpareOf(c: Call): Option<nat> {
    match c
    case Growing(_, _, sp) => sp
    case Walking(_, _, _, sp) => sp
    case _ => None
  }

  ghost predicate SpareOk(s: State, c: nat)
    requires c in s.calls
  {
    var sp := SpareOf(s.calls[c]);
    sp.Some? ==> sp.value in s.children && s.children[sp.value] == map[] && forall p | p in s.places :: s.places[p] != sp.value
  }

  /** A node not yet linked belongs to one call. */
  ghost predicate Spares(s: State) {
    && (forall c | c in s.calls :: SpareOk(s, c))
    && (forall c, d | c in s.calls && d in s.calls && SpareOf(s.calls[c]).Some? && SpareOf(s.calls[c]) == SpareOf(s.calls[d]) :: c == d)
  }

  ghost predicate AtPlace(s: State, p: Place, n: nat) { p in s.places && s.places[p] == n }

  /** Where a call stands is on the path of its page. */
  ghost predicate OnPath(s: State, c: Call) {
    match c
    case Growing(_, seen, _) => seen.Some? ==> AtPlace(s, Place(seen.value.depth, 0), seen.value.node)
    case Walking(page, node, h, _) => AtPlace(s, Place(h, Up(page, h)), node)
    case Returned(page, node) => AtPlace(s, Place(0, page), node)
    case Failed => true
  }

  ghost predicate Inv(s: State) {
    Tree(s) && Spares(s) && forall c | c in s.calls :: OnPath(s, s.calls[c])
  }

  // ----------------------------------------------------------------------- steps

  datatype Step =
    | Begin(call: nat, page: nat)
    | Alloc(call: nat, node: nat)
    | NoMemory(call: nat)
    | Raise(call: nat)
    | Enter(call: nat)
    | Read(call: nat)
    | Link(call: nat)
    | Finish(call: nat)

  datatype Outcome = Ok(state: State) | Blocked

  function WithSpare(c: Call, sp: Option<nat>): Call {
    match c
    case Growing(page, seen, _) => Growing(page, seen, sp)
    case Walking(page, node, h, _) => Walking(page, node, h, sp)
    case _ => c
  }

  /** The tree seen is deep enough for the page. */
  predicate Reaches(seen: Option<Root>, page: nat) { seen.Some? && page < Pow64(seen.value.depth) }

  /** The root that a spare node would become. */
  function Raised(seen: Option<Root>, n: nat): Root { Root(n, if seen.Some? then seen.value.depth + 1 else 0) }

  function RootKids(seen: Option<Root>): map<nat, nat> {
    if seen.Some? then map[0 := seen.value.node] else map[]
  }

  function RaiseTo(s: State, seen: Option<Root>, n: nat): State {
    s.(root := Some(Raised(seen, n)),
       children := s.children[n := RootKids(seen)],
       places := s.places[Place(Raised(seen, n).depth, 0) := n])
  }

  function LinkAt(s: State, p: Place, i: nat, n: nat, m: nat): State
    requires n in s.children && p.height > 0
  {
    var kids: map<nat, nat> := s.children[n][i := m];
    s.(children := s.children[n := kids], places := s.places[Child(p, i) := m])
  }

  function SetCall(s: State, c: nat, call: Call): State { s.(calls := s.calls[c := call]) }

  function Apply(s: State, step: Step): Outcome {
    if step.Begin? then
      if step.call in s.calls then Blocked else Ok(SetCall(s, step.call, Growing(step.page, s.root, None)))
    else if step.call !in s.calls then Blocked
    else
      var c := s.calls[step.call];
      match step
      case Begin(_, _) => Blocked
      case Alloc(_, node) =>
        if node in s.children || SpareOf(c).Some? || c.Returned? || c.Failed? then Blocked
        else Ok(SetCall(s, step.call, WithSpare(c, Some(node))).(children := s.children[node := map[]]))
      case NoMemory(_) => if SpareOf(c).Some? || c.Returned? then Blocked else Ok(SetCall(s, step.call, Failed))
      case Raise(_) =>
        if !c.Growing? || c.spare.None? || Reaches(c.seen, c.page) then Blocked
        else if s.root == c.seen then
          Ok(SetCall(RaiseTo(s, c.seen, c.spare.value), step.call, Growing(c.page, Some(Raised(c.seen, c.spare.value)), None)))
        else Ok(SetCall(s, step.call, c.(seen := s.root)))
      case Enter(_) =>
        if !c.Growing? || !Reaches(c.seen, c.page) then Blocked
        else Ok(SetCall(s, step.call, Walking(c.page, c.seen.value.node, c.seen.value.depth, c.spare)))
      case Read(_) =>
        if !c.Walking? || c.height == 0 || c.node !in s.children then Blocked
        else
          var i := Up(c.page, c.height - 1) % 64;
          if i in s.children[c.node] then Ok(SetCall(s, step.call, Walking(c.page, s.children[c.node][i], c.height - 1, c.spare)))
          else Blocked
      case Link(_) =>
        if !c.Walking? || c.height == 0 || c.node !in s.children || c.spare.None? then Blocked
        else
          var i := Up(c.page, c.height - 1) % 64;
          if i in s.children[c.node] then Ok(SetCall(s, step.call, Walking(c.page, s.children[c.node][i], c.height - 1, c.spare)))
          else
            Ok(SetCall(LinkAt(s, Place(c.height, Up(c.page, c.height)), i, c.node, c.spare.value), step.call,
                       Walking(c.page, c.spare.value, c.height - 1, None)))
      case Finish(_) =>
        if !c.Walking? || c.height != 0 then Blocked
        else Ok(SetCall(s, step.call, Returned(c.page, c.node)).(children := if c.spare.Some? then s.children - {c.spare.value} else s.children))
  }

  function Run(s: State, steps: seq<Step>): Outcome
    decreases |steps|
  {
    if |steps| == 0 then Ok(s)
    else
      var o := Run(s, steps[..|steps| - 1]);
      if o.Ok? then Apply(o.state, steps[|steps| - 1]) else o
  }

  lemma PlaceParts(s: State, p: Place)
    requires Tree(s) && p in s.places
    ensures Inside(s, p) && s.places[p] in s.children && KidsOk(s, p)
  {}

  lemma OnePlace(s: State, p: Place, q: Place)
    requires Tree(s) && p in s.places && q in s.places && p != q
    ensures s.places[p] != s.places[q]
  {}

  // ------------------------------------------------------------ steps that link nothing

  ghost predicate SameLinks(s: State, s': State) {
    && s'.root == s.root && s'.places == s.places
    && forall p | p in s.places && s.places[p] in s.children :: s.places[p] in s'.children && s'.children[s.places[p]] == s.children[s.places[p]]
  }

  lemma SameTree(s: State, s': State)
    requires Tree(s) && SameLinks(s, s')
    ensures Tree(s')
  {
    forall p | p in s'.places ensures Inside(s', p) { assert Inside(s, p); }
    forall p | p in s'.places ensures s'.places[p] in s'.children && KidsOk(s', p) { assert KidsOk(s, p); }
  }

  lemma SamePath(s: State, s': State, c: Call)
    requires OnPath(s, c) && s'.places == s.places
    ensures OnPath(s', c)
  {}

  lemma SameSpare(s: State, s': State, c: nat)
    requires c in s.calls && c in s'.calls && SpareOk(s, c) && s'.places == s.places && SpareOf(s'.calls[c]) == SpareOf(s.calls[c])
    requires SpareOf(s.calls[c]).Some? ==> SpareOf(s.calls[c]).value in s'.children && s'.children[SpareOf(s.calls[c]).value] == map[]
    ensures SpareOk(s', c)
  {}

  /** One call changes; it keeps its spare, or gives it up. */
  lemma CallMoves(s: State, c: nat, call: Call)
    requires Inv(s) && OnPath(s, call)
    requires SpareOf(call) == None || (c in s.calls && SpareOf(call) == SpareOf(s.calls[c]))
    ensures Inv(SetCall(s, c, call))
  {
    hide Tree, OnPath, SpareOk;
    var s' := SetCall(s, c, call);
    LinkedNodes(s);
    SameTree(s, s');
    forall d | d in s'.calls ensures OnPath(s', s'.calls[d]) { SamePath(s, s', s'.calls[d]); }
    forall d | d in s'.calls ensures SpareOk(s', d) {
      if SpareOf(s'.calls[d]).None? {
        NoSpare(s', d);
      } else {
        SpareIn(s, d);
        SameSpare(s, s', d);
      }
    }
  }

  lemma LinkedNodes(s: State)
    requires Tree(s)
    ensures forall p | p in s.places :: s.places[p] in s.children
  {}

  lemma AllocInv(s: State, c: nat, node: nat)
    requires Inv(s) && c in s.calls && node !in s.children && SpareOf(s.calls[c]).None? && (s.calls[c].Growing? || s.calls[c].Walking?)
    ensures Inv(SetCall(s, c, WithSpare(s.calls[c], Some(node))).(children := s.children[node := map[]]))
  {
    hide Tree, OnPath, SpareOk;
    var s' := SetCall(s, c, WithSpare(s.calls[c], Some(node))).(children := s.children[node := map[]]);
    LinkedNodes(s);
    SameTree(s, s');
    forall d | d in s'.calls ensures OnPath(s', s'.calls[d]) { KeepPath(s, s', s.calls[d], s'.calls[d]); }
    forall d | d in s'.calls ensures SpareOk(s', d) {
      SpareIn(s, d);
      if d != c { SameSpare(s, s', d); } else { NewSpare(s', c, node); }
    }
    forall d, e | d in s'.calls && e in s'.calls && SpareOf(s'.calls[d]).Some? && SpareOf(s'.calls[d]) == SpareOf(s'.calls[e]) ensures d == e {
      SpareIn(s, d);
      SpareIn(s, e);
    }
  }

  lemma KeepPath(s: State, s': State, c: Call, c': Call)
    requires OnPath(s, c) && s'.places == s.places && (c' == c || exists sp :: c' == WithSpare(c, sp))
    ensures OnPath(s', c')
  {}

  lemma SpareIn(s: State, c: nat)
    requires c in s.calls && SpareOk(s, c)
    ensures var sp := SpareOf(s.calls[c]); sp.Some? ==> sp.value in s.children && s.children[sp.value] == map[]
    ensures var sp := SpareOf(s.calls[c]); sp.Some? ==> forall p | p in s.places :: s.places[p] != sp.value
  {}

  lemma NewSpare(s: State, c: nat, node: nat)
    requires c in s.calls && SpareOf(s.calls[c]) == Some(node) && node in s.children && s.children[node] == map[]
    requires forall p | p in s.places :: s.places[p] != node
    ensures SpareOk(s, c)
  {}

  lemma FreeInv(s: State, c: nat, call: Call)
    requires Inv(s) && c in s.calls && SpareOf(s.calls[c]).Some? && SpareOf(call).None? && OnPath(s, call)
    ensures Inv(SetCall(s, c, call).(children := s.children - {SpareOf(s.calls[c]).value}))
  {
    hide Tree, OnPath, SpareOk;
    var n := SpareOf(s.calls[c]).value;
    var s' := SetCall(s, c, call).(children := s.children - {n});
    SpareIn(s, c);
    LinkedNodes(s);
    SameTree(s, s');
    forall d | d in s'.calls ensures OnPath(s', s'.calls[d]) {
      SamePath(s, s', s'.calls[d]);
    }
    forall d | d in s'.calls ensures SpareOk(s', d) {
      if d != c { SpareIn(s, d); SameSpare(s, s', d); } else { NoSpare(s', c); }
    }
  }

  lemma NoSpare(s: State, c: nat)
    requires c in s.calls && SpareOf(s.calls[c]).None?
    ensures SpareOk(s, c)
  {}

  // --------------------------------------------------------------- steps that link a node

  /** s' has one more node, n, at a place that was empty. */
  ghost predicate Grows(s: State, s': State, at: Place, n: nat) {
    at !in s.places && s'.places == s.places[at := n]
  }

  lemma GrownPath(s: State, s': State, at: Place, n: nat, c: Call)
    requires OnPath(s, c) && Grows(s, s', at, n)
    ensures OnPath(s', c)
  {}

  /** The call's spare becomes the node at a new place. */
  lemma GrownCalls(s: State, s': State, at: Place, c: nat, call: Call)
    requires Spares(s) && (forall d | d in s.calls :: OnPath(s, s.calls[d]))
    requires c in s.calls && SpareOf(s.calls[c]).Some? && Grows(s, s', at, SpareOf(s.calls[c]).value)
    requires s'.calls == s.calls[c := call] && SpareOf(call).None? && OnPath(s', call)
    requires forall d | d in s.calls && d != c && SpareOf(s.calls[d]).Some? ::
      SpareOf(s.calls[d]).value in s'.children && s'.children[SpareOf(s.calls[d]).value] == s.children[SpareOf(s.calls[d]).value]
    requires forall d | d in s.calls && SpareOf(s.calls[d]).Some? :: SpareOf(s.calls[d]).value in s.children
    ensures Spares(s') && forall d | d in s'.calls :: OnPath(s', s'.calls[d])
  {
    var n := SpareOf(s.calls[c]).value;
    forall d | d in s'.calls ensures OnPath(s', s'.calls[d]) {
      if d != c { GrownPath(s, s', at, n, s.calls[d]); }
    }
    forall d | d in s'.calls ensures SpareOk(s', d) {
      if d != c { assert SpareOk(s, d); }
    }
  }

  lemma RaiseTree(s: State, n: nat)
    requires Tree(s) && n in s.children && s.children[n] == map[] && (forall p | p in s.places :: s.places[p] != n)
    ensures var s' := RaiseTo(s, s.root, n); Tree(s') && Grows(s, s', Place(Raised(s.root, n).depth, 0), n)
  {
    var s' := RaiseTo(s, s.root, n);
    var at := Place(Raised(s.root, n).depth, 0);
    assert at in s.places ==> Inside(s, at);
    LinkedNodes(s);
    forall p | p in s'.places ensures Inside(s', p) {
      if p != at { RaiseInside(s, n, p); } else { assert Pow64(0) == 1; }
    }
    forall p | p in s'.places ensures s'.places[p] in s'.children && KidsOk(s', p) {
      if p != at {
        RaiseKids(s, n, p);
      } else {
        RaiseRoot(s, n);
      }
    }
  }

  lemma RaiseInside(s: State, n: nat, p: Place)
    requires Tree(s) && p in s.places
    ensures Inside(RaiseTo(s, s.root, n), p)
  {
    assert Inside(s, p);
    var d := s.root.value.depth;
    assert Pow64(d + 1 - p.height) == 64 * Pow64(d - p.height);
    if p.height == d { assert Pow64(0) == 1; }
  }

  lemma RaiseKids(s: State, n: nat, p: Place)
    requires Tree(s) && p in s.places && s.places[p] in s.children && s.places[p] != n
    requires Place(Raised(s.root, n).depth, 0) !in s.places
    ensures KidsOk(RaiseTo(s, s.root, n), p)
  {
    hide Tree, Pow64;
    PlaceParts(s, p);
  }

  lemma RaiseRoot(s: State, n: nat)
    requires Tree(s) && Place(Raised(s.root, n).depth, 0) !in s.places
    ensures KidsOk(RaiseTo(s, s.root, n), Place(Raised(s.root, n).depth, 0))
  {
    var s' := RaiseTo(s, s.root, n);
    var at := Place(Raised(s.root, n).depth, 0);
    if s.root.Some? {
      forall i: nat | i < 64 && Child(at, i) in s'.places ensures i == 0 {
        assert Inside(s, Child(at, i));
        assert Pow64(0) == 1;
      }
    }
  }

  /** n is at p, and its child pointer i is NULL. */
  ghost predicate Vacant(s: State, p: Place, i: nat, n: nat) {
    p in s.places && s.places[p] == n && n in s.children && p.height > 0 && i < 64 && i !in s.children[n]
  }

  lemma LinkTree(s: State, p: Place, i: nat, n: nat, m: nat)
    requires Tree(s) && Vacant(s, p, i, n)
    requires m in s.children && s.children[m] == map[] && (forall q | q in s.places :: s.places[q] != m)
    ensures Tree(LinkAt(s, p, i, n, m)) && Grows(s, LinkAt(s, p, i, n, m), Child(p, i), m)
  {
    hide Inside, KidsOk;
    var s' := LinkAt(s, p, i, n, m);
    var at := Child(p, i);
    LinkEmpty(s, p, i, n);
    forall q | q in s'.places ensures Inside(s', q) {
      if q == at { LinkInside(s, p, i, n, m); } else { StillInside(s, s', q); }
    }
    forall q | q in s'.places ensures s'.places[q] in s'.children && KidsOk(s', q) {
      if q == at { LeafKids(s, p, i, n, m); } else if q == p { LinkKids(s, p, i, n, m); } else { OtherKids(s, p, i, n, m, q); }
    }
  }

  lemma LinkEmpty(s: State, p: Place, i: nat, n: nat)
    requires Tree(s) && Vacant(s, p, i, n)
    ensures Child(p, i) !in s.places
  {
    assert KidsOk(s, p);
  }

  lemma LinkInside(s: State, p: Place, i: nat, n: nat, m: nat)
    requires Tree(s) && Vacant(s, p, i, n)
    ensures Inside(LinkAt(s, p, i, n, m), Child(p, i))
  {
    assert Inside(s, p);
    var d := s.root.value.depth;
    assert Pow64(d - p.height + 1) == 64 * Pow64(d - p.height);
    assert Parent(Child(p, i)) == p;
  }

  lemma StillInside(s: State, s': State, q: Place)
    requires Inside(s, q) && s'.root == s.root && forall p | p in s.places :: p in s'.places
    ensures Inside(s', q)
  {}

  lemma LinkKids(s: State, p: Place, i: nat, n: nat, m: nat)
    requires Tree(s) && Vacant(s, p, i, n) && Child(p, i) !in s.places && m != n
    ensures KidsOk(LinkAt(s, p, i, n, m), p)
  {
    assert KidsOk(s, p);
  }

  lemma OtherKids(s: State, p: Place, i: nat, n: nat, m: nat, q: Place)
    requires Tree(s) && Vacant(s, p, i, n) && q in s.places && q != p && s.places[q] != m && Child(p, i) !in s.places
    ensures s.places[q] in s.children && KidsOk(LinkAt(s, p, i, n, m), q)
  {
    hide Tree, Inside;
    PlaceParts(s, q);
    OnePlace(s, p, q);
    assert forall j: nat | j < 64 && q.height > 0 && Child(q, j) == Child(p, i) :: q == p;
  }

  lemma LeafKids(s: State, p: Place, i: nat, n: nat, m: nat)
    requires Tree(s) && Vacant(s, p, i, n) && Child(p, i) !in s.places && m in s.children && s.children[m] == map[] && m != n
    ensures KidsOk(LinkAt(s, p, i, n, m), Child(p, i))
  {
    var at := Child(p, i);
    if at.height > 0 {
      forall j: nat | j < 64 ensures Child(at, j) !in s.places && Child(at, j) != at {
        assert Parent(Child(at, j)) == at;
        assert Child(at, j) in s.places ==> Inside(s, Child(at, j)) && Inside(s, p);
      }
    }
  }

  // -------------------------------------------------------------------- every step

  lemma RaiseInv(s: State, c: nat)
    requires Inv(s) && c in s.calls && s.calls[c].Growing? && s.calls[c].spare.Some? && s.root == s.calls[c].seen
    ensures
      var call := s.calls[c];
      var s' := SetCall(RaiseTo(s, call.seen, call.spare.value), c, Growing(call.page, Some(Raised(call.seen, call.spare.value)), None));
      Inv(s') && Grows(s, s', Place(Raised(call.seen, call.spare.value).depth, 0), call.spare.value)
  {
    hide Tree, SpareOk;
    var call := s.calls[c];
    var n := call.spare.value;
    SpareIn(s, c);
    RaiseTree(s, n);
    var s1 := RaiseTo(s, s.root, n);
    var s' := SetCall(s1, c, Growing(call.page, Some(Raised(call.seen, n)), None));
    forall d | d in s.calls && SpareOf(s.calls[d]).Some? ensures SpareOf(s.calls[d]).value in s.children && (d != c ==> SpareOf(s.calls[d]).value != n) {
      SpareIn(s, d);
    }
    GrownCalls(s, s', Place(Raised(call.seen, n).depth, 0), c, s'.calls[c]);
    OnlyCalls(s1, s');
  }

  lemma OnlyCalls(s: State, s': State)
    requires Tree(s) && s'.root == s.root && s'.children == s.children && s'.places == s.places
    ensures Tree(s')
  {
    hide Tree;
    LinkedNodes(s);
    SameTree(s, s');
  }

  lemma StepPlace(page: nat, h: nat)
    requires h > 0
    ensures Child(Place(h, Up(page, h)), Up(page, h - 1) % 64) == Place(h - 1, Up(page, h - 1))
  {}

  lemma WalkingNode(s: State, c: nat)
    requires Inv(s) && c in s.calls && s.calls[c].Walking? && s.calls[c].height > 0
    ensures
      var call := s.calls[c];
      var p, i := Place(call.height, Up(call.page, call.height)), Up(call.page, call.height - 1) % 64;
      && AtPlace(s, p, call.node) && call.node in s.children
      && (i in s.children[call.node] ==> AtPlace(s, Child(p, i), s.children[call.node][i]))
      && (i !in s.children[call.node] ==> Vacant(s, p, i, call.node))
  {
    var call := s.calls[c];
    var p := Place(call.height, Up(call.page, call.height));
    assert OnPath(s, call);
    assert KidsOk(s, p);
  }

  lemma LinkInv(s: State, c: nat)
    requires Inv(s) && c in s.calls && s.calls[c].Walking? && s.calls[c].height > 0 && s.calls[c].spare.Some?
    requires Vacant(s, Place(s.calls[c].height, Up(s.calls[c].page, s.calls[c].height)), Up(s.calls[c].page, s.calls[c].height - 1) % 64, s.calls[c].node)
    ensures
      var call := s.calls[c];
      var p, i := Place(call.height, Up(call.page, call.height)), Up(call.page, call.height - 1) % 64;
      var s' := SetCall(LinkAt(s, p, i, call.node, call.spare.value), c, Walking(call.page, call.spare.value, call.height - 1, None));
      Inv(s') && Grows(s, s', Child(p, i), call.spare.value)
  {
    hide Tree, SpareOk, Up;
    var call := s.calls[c];
    var p, i := Place(call.height, Up(call.page, call.height)), Up(call.page, call.height - 1) % 64;
    var n, m := call.node, call.spare.value;
    SpareIn(s, c);
    LinkTree(s, p, i, n, m);
    StepPlace(call.page, call.height);
    var s1 := LinkAt(s, p, i, n, m);
    var s' := SetCall(s1, c, Walking(call.page, m, call.height - 1, None));
    forall d | d in s.calls && SpareOf(s.calls[d]).Some? ensures SpareOf(s.calls[d]).value in s.children && SpareOf(s.calls[d]).value != n {
      SpareIn(s, d);
    }
    GrownCalls(s, s', Child(p, i), c, s'.calls[c]);
    OnlyCalls(s1, s');
  }

  /** No linked node ever moves or is replaced. */
  ghost predicate Keeps(s: State, s': State) { forall p | p in s.places :: AtPlace(s', p, s.places[p]) }

  /** Every step keeps the invariant and every linked node where it is. */
  lemma StepInv(s: State, step: Step)
    requires Inv(s) && Apply(s, step).Ok?
    ensures Inv(Apply(s, step).state) && Keeps(s, Apply(s, step).state)
  {
    hide Inv, Up, RaiseTo, LinkAt, Pow64;
    var c := step.call;
    match step
    case Begin(_, page) => BeginPath(s, page); CallMoves(s, c, Growing(page, s.root, None));
    case Alloc(_, node) => AllocInv(s, c, node);
    case NoMemory(_) => CallMoves(s, c, Failed);
    case Raise(_) =>
      if s.root == s.calls[c].seen {
        RaiseInv(s, c);
      } else {
        BeginPath(s, s.calls[c].page);
        CallMoves(s, c, s.calls[c].(seen := s.root));
      }
    case Enter(_) => EnterPath(s, c); CallMoves(s, c, Walking(s.calls[c].page, s.calls[c].seen.value.node, s.calls[c].seen.value.depth, s.calls[c].spare));
    case Read(_) => StepDown(s, c);
    case Link(_) =>
      WalkingNode(s, c);
      var i := Up(s.calls[c].page, s.calls[c].height - 1) % 64;
      if i in s.children[s.calls[c].node] { StepDown(s, c); } else { LinkInv(s, c); }
    case Finish(_) => FinishInv(s, c);
  }

  lemma BeginPath(s: State, page: nat)
    requires Inv(s)
    ensures forall sp :: OnPath(s, Growing(page, s.root, sp))
  {}

  lemma EnterPath(s: State, c: nat)
    requires Inv(s) && c in s.calls && s.calls[c].Growing? && Reaches(s.calls[c].seen, s.calls[c].page)
    ensures OnPath(s, Walking(s.calls[c].page, s.calls[c].seen.value.node, s.calls[c].seen.value.depth, s.calls[c].spare))
  {
    UpZero(s.calls[c].page, s.calls[c].seen.value.depth);
    assert OnPath(s, s.calls[c]);
  }

  lemma StepDown(s: State, c: nat)
    requires Inv(s) && c in s.calls && s.calls[c].Walking? && s.calls[c].height > 0 && s.calls[c].node in s.children
    requires Up(s.calls[c].page, s.calls[c].height - 1) % 64 in s.children[s.calls[c].node]
    ensures
      var call := s.calls[c];
      var m := s.children[call.node][Up(call.page, call.height - 1) % 64];
      Inv(SetCall(s, c, Walking(call.page, m, call.height - 1, call.spare)))
  {
    hide Inv, Up;
    WalkingNode(s, c);
    var call := s.calls[c];
    StepPlace(call.page, call.height);
    CallMoves(s, c, Walking(call.page, s.children[call.node][Up(call.page, call.height - 1) % 64], call.height - 1, call.spare));
  }

  lemma FinishInv(s: State, c: nat)
    requires Inv(s) && Apply(s, Finish(c)).Ok?
    ensures Inv(Apply(s, Finish(c)).state) && Keeps(s, Apply(s, Finish(c)).state)
  {
    hide Tree, Spares;
    var call := s.calls[c];
    assert OnPath(s, call);
    assert Up(call.page, 0) == call.page;
    if call.spare.Some? { FreeInv(s, c, Returned(call.page, call.node)); } else { CallMoves(s, c, Returned(call.page, call.node)); }
  }

  /** In every run the tree is well formed and each linked node is at one place. */
  lemma {:induction false} RunInv(steps: seq<Step>)
    requires Run(Init, steps).Ok?
    ensures Inv(Run(Init, steps).state)
    decreases |steps|
  {
    hide Apply, Tree, Spares;
    InitInv();
    if |steps| != 0 {
      RunInv(steps[..|steps| - 1]);
      StepInv(Run(Init, steps[..|steps| - 1]).state, steps[|steps| - 1]);
    }
  }

  lemma InitInv()
    ensures Inv(Init)
  {}

  /** The slot a call returned is the slot of its page for ever after, through any growth. */
  lemma {:induction false} SlotForEver(s: State, steps: seq<Step>, page: nat, node: nat)
    requires Inv(s) && AtPlace(s, Place(0, page), node) && Run(s, steps).Ok?
    ensures Inv(Run(s, steps).state) && AtPlace(Run(s, steps).state, Place(0, page), node)
    decreases |steps|
  {
    hide Apply, Inv;
    if |steps| != 0 {
      var n := |steps| - 1;
      SlotForEver(s, steps[..n], page, node);
      StepInv(Run(s, steps[..n]).state, steps[n]);
    }
  }

  /** Two calls for one page return the same slot. */
  lemma SameSlot(s: State, c: nat, d: nat)
    requires Inv(s) && c in s.calls && d in s.calls && s.calls[c].Returned? && s.calls[d].Returned?
    ensures s.calls[c].node == s.calls[d].node <==> s.calls[c].page == s.calls[d].page
  {
    assert OnPath(s, s.calls[c]) && OnPath(s, s.calls[d]);
  }

  /** __genradix_ptr: follows the child pointers down to the page, or finds it absent. */
  method Lookup(s: State, page: nat) returns (r: Option<nat>)
    requires Inv(s)
    ensures r == if Place(0, page) in s.places then Some(s.places[Place(0, page)]) else None
  {
    hide Spares, OnPath, Inside, KidsOk, Up, Pow64;
    if s.root.None? || page >= Pow64(s.root.value.depth) {
      NotInside(s, page);
      return None;
    }
    var n, h := s.root.value.node, s.root.value.depth;
    UpZero(page, h);
    while h > 0
      invariant AtPlace(s, Place(h, Up(page, h)), n)
    {
      var i := Up(page, h - 1) % 64;
      StepPlace(page, h);
      KidAt(s, Place(h, Up(page, h)), i);
      if i !in s.children[n] {
        NoneUnder(s, page, h - 1);
        return None;
      }
      n := s.children[n][i];
      h := h - 1;
    }
    UpSelf(page);
    return Some(n);
  }

  lemma UpSelf(page: nat)
    ensures Up(page, 0) == page
  {}

  lemma KidAt(s: State, p: Place, i: nat)
    requires Tree(s) && p in s.places && p.height > 0 && i < 64
    ensures s.places[p] in s.children
    ensures i in s.children[s.places[p]] <==> Child(p, i) in s.places
    ensures i in s.children[s.places[p]] ==> s.children[s.places[p]][i] == s.places[Child(p, i)]
  {
    assert KidsOk(s, p);
  }

  lemma NotInside(s: State, page: nat)
    requires Tree(s) && (s.root.None? || page >= Pow64(s.root.value.depth))
    ensures Place(0, page) !in s.places
  {
    assert Place(0, page) in s.places ==> Inside(s, Place(0, page));
  }

  lemma ParentLinked(s: State, page: nat, h: nat)
    requires Tree(s) && s.root.Some? && h < s.root.value.depth && Place(h, Up(page, h)) in s.places
    ensures Place(h + 1, Up(page, h + 1)) in s.places
  {
    hide Tree, Pow64, KidsOk;
    PlaceParts(s, Place(h, Up(page, h)));
    assert Parent(Place(h, Up(page, h))) == Place(h + 1, Up(page, h + 1));
  }

  /** Above a linked page every node of its path is linked. */
  lemma {:induction false} PathLinked(s: State, page: nat, h: nat)
    requires Tree(s) && s.root.Some? && Place(0, page) in s.places && h <= s.root.value.depth
    ensures Place(h, Up(page, h)) in s.places
    decreases h
  {
    hide Tree, Up;
    UpSelf(page);
    if h > 0 {
      PathLinked(s, page, h - 1);
      ParentLinked(s, page, h - 1);
    }
  }

  lemma NoneUnder(s: State, page: nat, h: nat)
    requires Tree(s) && Place(h, Up(page, h)) !in s.places && s.root.Some? && h <= s.root.value.depth
    ensures Place(0, page) !in s.places
  {
    hide Up;
    if Place(0, page) in s.places { PathLinked(s, page, h); }
  }
}
