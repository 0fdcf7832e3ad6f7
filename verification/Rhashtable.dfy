/**
 * The resizable hash table of linux/rhashtable.c (flat tables, no duplicates list) under any interleaving of
 * slow-path inserts, table attach, rehashing and lock-free lookups. A step is one section run under a bucket
 * lock, cut where it reads future_tbl, one pointer write of the rehasher, or one pointer read of a lookup.
 */
module Rhashtable {
  /** Bucket slot of the table numbered table; tables are numbered in the order future_tbl links them. */
  datatype Bkt = Bkt(table: nat, slot: nat)

  /** A chain pointer: an object, or the nulls marker of a bucket. */
  datatype Ptr = Nil(bkt: Bkt) | To(obj: nat)

  datatype Table = Table(size: nat, rnd: nat)

  /** The one rehasher: between buckets, holding an old bucket's lock, or halfway through moving obj. */
  datatype Rehash = Free | Locked | Linked(obj: nat, to: Bkt) | Published(obj: nat, to: Bkt)

  /** An insert on its way to a table, or holding a bucket's lock having seen that there is no later table. */
  datatype Inserter = Inserter(obj: nat, table: nat) | Ready(obj: nat, table: nat, bkt: Bkt)

  /** A lookup of key at ptr in its table's bucket; held are the matches that were present when it began. */
  datatype Reader = Reader(key: nat, table: nat, ptr: Ptr, held: set<nat>)

  datatype State = State(
    tables: seq<Table>,
    cur: nat,                   // ht->tbl
    done: nat,                  // buckets of ht->tbl already rehashed
    rehash: Rehash,
    heads: map<Bkt, Ptr>,
    next: map<nat, Ptr>,
    chains: map<Bkt, seq<nat>>, // the objects each bucket owns, in chain order
    loc: map<nat, Bkt>,         // the bucket that owns each object in the table
    nelems: nat,
    inserters: map<nat, Inserter>,
    readers: map<nat, Reader>)

  /** hash(k, rnd) is the hash of key k with a table's hash_rnd; keyOf gives an object's key; maxSize 0 is no limit. */
  datatype Env = Env(hash: (nat, nat) -> nat, keyOf: nat -> nat, maxElems: nat, maxSize: nat)

  predicate IsBkt(s: State, b: Bkt) { b.table < |s.tables| && b.slot < s.tables[b.table].size }

  function Slot(e: Env, s: State, t: nat, k: nat): Bkt
    requires t < |s.tables| && s.tables[t].size > 0
  {
    Bkt(t, e.hash(k, s.tables[t].rnd) % s.tables[t].size)
  }

  /** The bucket whose chain is being rehashed. */
  function OldBkt(s: State): Bkt { Bkt(s.cur, s.done) }

  function First(s: State, b: Bkt): Ptr
    requires b in s.chains
  {
    if |s.chains[b]| > 0 then To(s.chains[b][0]) else Nil(b)
  }

  // ---------------------------------------------------------------- invariant

  /** What the last pointer of a bucket's chain holds. */
  function EndPtr(s: State, b: Bkt): Ptr {
    if b != OldBkt(s) then Nil(b)
    else match s.rehash
      case Linked(_, to) => if to in s.chains then First(s, to) else Nil(b)
      case Published(obj, _) => To(obj)
      case _ => Nil(b)
  }

  /** The pointer that precedes position i of a bucket's chain. */
  function PtrAt(s: State, b: Bkt, i: nat): Ptr
    requires b in s.chains && i <= |s.chains[b]|
  {
    if i < |s.chains[b]| then To(s.chains[b][i]) else EndPtr(s, b)
  }

  ghost predicate Shape(s: State) {
    && s.cur < |s.tables| && (forall t | 0 <= t < |s.tables| :: s.tables[t].size > 0)
    && (forall b :: b in s.chains <==> IsBkt(s, b)) && (forall b :: b in s.heads <==> IsBkt(s, b))
  }

  /** Each object in the table is at one position of one chain. */
  ghost predicate Placed(s: State) {
    && (forall b, i | b in s.chains && 0 <= i < |s.chains[b]| :: s.chains[b][i] in s.loc && s.loc[s.chains[b][i]] == b)
    && (forall o | o in s.loc :: s.loc[o] in s.chains && o in s.chains[s.loc[o]])
    && (forall b, i, j | b in s.chains && 0 <= i < j < |s.chains[b]| :: s.chains[b][i] != s.chains[b][j])
    && s.nelems == |s.loc|
  }

  ghost predicate Hashed(e: Env, s: State)
    requires Shape(s)
  {
    forall o | o in s.loc && s.loc[o].table < |s.tables| :: s.loc[o] == Slot(e, s, s.loc[o].table, e.keyOf(o))
  }

  predicate HeadOk(s: State, b: Bkt)
    requires b in s.chains
  {
    b in s.heads && s.heads[b] == PtrAt(s, b, 0)
  }

  predicate NextOk(s: State, b: Bkt, i: nat)
    requires b in s.chains && i < |s.chains[b]|
  {
    s.chains[b][i] in s.next && s.next[s.chains[b][i]] == PtrAt(s, b, i + 1)
  }

  /** The pointers in memory spell out the chains. */
  ghost predicate Pointers(s: State) {
    && (forall b | b in s.chains :: HeadOk(s, b))
    && (forall b: Bkt, i: nat | b in s.chains && i < |s.chains[b]| :: NextOk(s, b, i))
  }

  ghost predicate UniqueKeys(e: Env, s: State) {
    forall o, o' | o in s.loc && o' in s.loc && e.keyOf(o) == e.keyOf(o') :: o == o'
  }

  /** Tables before ht->tbl, and the buckets of ht->tbl already rehashed, are empty. */
  ghost predicate Drained(s: State) {
    forall b | b in s.chains && (b.table < s.cur || (b.table == s.cur && b.slot < s.done)) :: s.chains[b] == []
  }

  ghost predicate Rehashing(e: Env, s: State)
    requires Shape(s)
  {
    && s.done <= s.tables[s.cur].size
    && (s.rehash != Free ==> s.cur + 1 < |s.tables| && s.done < s.tables[s.cur].size)
    && (s.done > 0 ==> s.cur + 1 < |s.tables|)
    && match s.rehash
       case Linked(obj, to) =>
         && OldBkt(s) in s.chains && |s.chains[OldBkt(s)]| > 0 && s.chains[OldBkt(s)][|s.chains[OldBkt(s)]| - 1] == obj
         && s.cur < to.table < |s.tables| && to == Slot(e, s, to.table, e.keyOf(obj))
       case Published(obj, to) => obj in s.loc && s.loc[obj].table > s.cur
       case _ => true
  }

  /** An inserter has passed every table that could hold its key. */
  ghost predicate Passed(e: Env, s: State, i: Inserter) {
    && i.table < |s.tables| && i.obj !in s.loc
    && forall o | o in s.loc && e.keyOf(o) == e.keyOf(i.obj) :: s.loc[o].table >= i.table
  }

  ghost predicate Inserting(e: Env, s: State) {
    && (forall i | i in s.inserters :: Passed(e, s, s.inserters[i]))
    && (forall i, j | i in s.inserters && j in s.inserters && s.inserters[i].obj == s.inserters[j].obj :: i == j)
  }

  /** The bucket is not behind the rehasher. */
  predicate Undrained(s: State, b: Bkt) { s.cur <= b.table && (b.table == s.cur ==> s.done <= b.slot) }

  /** The rehasher holds b's bit lock. */
  predicate RehashLocked(s: State, b: Bkt) {
    (s.rehash != Free && b == OldBkt(s)) || (s.rehash.Linked? && b == s.rehash.to)
  }

  /** An inserter holds b's bit lock. */
  predicate InsertLocked(s: State, b: Bkt) { exists i :: i in s.inserters && s.inserters[i].Ready? && s.inserters[i].bkt == b }

  /** Nobody with r's key has gone past the bucket that r holds, nor can before r lets go of it. */
  ghost predicate HoldOk(e: Env, s: State, id: nat)
    requires Shape(s) && id in s.inserters && s.inserters[id].Ready?
  {
    var r := s.inserters[id];
    && r.table < |s.tables| && r.bkt == Slot(e, s, r.table, e.keyOf(r.obj)) && Undrained(s, r.bkt) && !RehashLocked(s, r.bkt)
    && (forall o | o in s.loc :: e.keyOf(o) != e.keyOf(r.obj))
    && (forall j | j in s.inserters && e.keyOf(s.inserters[j].obj) == e.keyOf(r.obj) ::
          s.inserters[j].table <= r.table && (s.inserters[j].Ready? ==> j == id))
  }

  ghost predicate Holding(e: Env, s: State)
    requires Shape(s)
  {
    forall id | id in s.inserters && s.inserters[id].Ready? :: HoldOk(e, s, id)
  }

  // ----------------------------------------------------------------- readers

  /** A lookup in bucket b that stands at p has strayed into a chain of a later table. */
  ghost predicate Strayed(s: State, b: Bkt, p: Ptr) {
    match p
    case Nil(c) => c.table > b.table
    case To(o) => o in s.loc && s.loc[o].table > b.table
  }

  /** p is position i of bucket b's chain. */
  ghost predicate StandsAt(s: State, b: Bkt, p: Ptr, i: nat) {
    b in s.chains && i <= |s.chains[b]| && p == if i < |s.chains[b]| then To(s.chains[b][i]) else Nil(b)
  }

  /** o is still to come: in a later table, or at or after p, or the lookup has to walk its bucket again. */
  ghost predicate Ahead(s: State, b: Bkt, p: Ptr, o: nat) {
    && o in s.loc && s.loc[o].table >= b.table
    && (s.loc[o].table > b.table || Strayed(s, b, p) || exists i, j :: StandsAt(s, b, p, i) && i <= j && StandsAt(s, b, To(o), j))
  }

  ghost predicate OnTrack(e: Env, s: State, r: Reader)
    requires Shape(s)
  {
    && r.table < |s.tables|
    && var b := Slot(e, s, r.table, r.key);
    && (Strayed(s, b, r.ptr) || exists i :: StandsAt(s, b, r.ptr, i))
    && forall o | o in r.held :: e.keyOf(o) == r.key && Ahead(s, b, r.ptr, o)
  }

  ghost predicate Reading(e: Env, s: State)
    requires Shape(s)
  {
    forall r | r in s.readers :: OnTrack(e, s, s.readers[r])
  }

  ghost predicate Inv(e: Env, s: State) {
    && Shape(s) && Placed(s) && Hashed(e, s) && Pointers(s) && UniqueKeys(e, s) && Drained(s)
    && Rehashing(e, s) && Inserting(e, s) && Holding(e, s) && Reading(e, s)
  }

  // -------------------------------------------------------------------- steps

  const RHT_ELASTICITY := 16

  datatype Verdict = Exists | Onward | Retry | TooBig | Insert

  ghost predicate HasKey(e: Env, list: seq<nat>, k: nat) { exists i :: 0 <= i < |list| && e.keyOf(list[i]) == k }

  /** The object that rhashtable_lookup_one finds. */
  ghost function Match(e: Env, list: seq<nat>, k: nat): (o: nat)
    requires HasKey(e, list, k)
    ensures o in list && e.keyOf(o) == k
  {
    var i :| 0 <= i < |list| && e.keyOf(list[i]) == k;
    list[i]
  }

  /** rhashtable_lookup_one, then the tests of rhashtable_insert_one, for a locked bucket. */
  ghost function Visit(e: Env, s: State, b: Bkt, k: nat): Verdict
    requires b in s.chains && b.table < |s.tables|
  {
    var size := s.tables[b.table].size;
    if HasKey(e, s.chains[b], k) then Exists
    else if b.table + 1 < |s.tables| then Onward
    else if |s.chains[b]| >= RHT_ELASTICITY then Retry
    else if s.nelems >= e.maxElems then TooBig
    else if s.nelems > size && (e.maxSize == 0 || size < e.maxSize) then Retry
    else Insert
  }

  /** Some other section holds b's bit lock. */
  predicate BucketLocked(s: State, b: Bkt) { RehashLocked(s, b) || InsertLocked(s, b) }

  datatype Step =
    | Attach(size: nat, rnd: nat)
    | StartBucket | MoveLink(table: nat) | MovePublish | MoveUnlink | EndBucket | SwitchTable
    | InsertBegin(id: nat, obj: nat)
    | InsertVisit(id: nat)
    | InsertAdd(id: nat)
    | ReadBegin(id: nat, key: nat)
    | ReadStep(id: nat)

  /**
   * What the step returns to its caller: nothing yet, the object or NULL of a lookup, or, for an insert,
   * success, the object that already has the key, or -E2BIG.
   */
  datatype Ret = Going | Found(obj: nat) | Missing | Added | Present(obj: nat) | TooMany

  datatype Outcome = Ok(state: State, ret: Ret) | Blocked

  /** The buckets of a new table, each holding value. */
  function Fresh<T>(n: nat, size: nat, value: Bkt -> T): (m: map<Bkt, T>)
    ensures forall b :: b in m <==> b.table == n && b.slot < size
    ensures forall b | b in m :: m[b] == value(b)
  {
    map i | 0 <= i < size :: Bkt(n, i) := value(Bkt(n, i))
  }

  /** rhashtable_rehash_attach on the last table. */
  function AttachTable(s: State, size: nat, rnd: nat): State {
    var n := |s.tables|;
    s.(tables := s.tables + [Table(size, rnd)],
       heads := s.heads + Fresh(n, size, b => Nil(b)),
       chains := s.chains + Fresh(n, size, b => []))
  }

  function DropLast(c: seq<nat>): seq<nat>
    requires |c| > 0
  {
    c[..|c| - 1]
  }

  function Last(c: seq<nat>): nat
    requires |c| > 0
  {
    c[|c| - 1]
  }

  /** The three writes of rhashtable_rehash_one. Table t was the last when it looked; more may have come since. */
  function LinkMoved(e: Env, s: State, t: nat): State
    requires Shape(s) && OldBkt(s) in s.chains && |s.chains[OldBkt(s)]| > 0 && s.cur < t < |s.tables|
  {
    var obj := Last(s.chains[OldBkt(s)]);
    var to := Slot(e, s, t, e.keyOf(obj));
    s.(next := s.next[obj := s.heads[to]], rehash := Linked(obj, to))
  }

  function PublishMoved(s: State): State
    requires s.rehash.Linked? && s.rehash.to in s.chains && OldBkt(s) in s.chains && |s.chains[OldBkt(s)]| > 0
  {
    var obj, to, src := s.rehash.obj, s.rehash.to, OldBkt(s);
    s.(heads := s.heads[to := To(obj)],
       chains := s.chains[src := DropLast(s.chains[src])][to := [obj] + s.chains[to]],
       loc := s.loc[obj := to],
       rehash := Published(obj, to))
  }

  function UnlinkMoved(s: State): State
    requires OldBkt(s) in s.chains
  {
    var src := OldBkt(s);
    if |s.chains[src]| == 0 then s.(heads := s.heads[src := Nil(src)], rehash := Locked)
    else s.(next := s.next[Last(s.chains[src]) := Nil(src)], rehash := Locked)
  }

  function AddObject(s: State, b: Bkt, obj: nat): State
    requires b in s.chains && b in s.heads
  {
    s.(next := s.next[obj := s.heads[b]],
       heads := s.heads[b := To(obj)],
       chains := s.chains[b := [obj] + s.chains[b]],
       loc := s.loc[obj := b],
       nelems := s.nelems + 1)
  }

  ghost function InsertPass(e: Env, s: State, id: nat): Outcome
    requires Shape(s)
  {
    if id !in s.inserters || s.inserters[id].Ready? || s.inserters[id].table >= |s.tables| then Blocked
    else
      var i := s.inserters[id];
      var b := Slot(e, s, i.table, e.keyOf(i.obj));
      if BucketLocked(s, b) then Blocked
      else match Visit(e, s, b, e.keyOf(i.obj))
        case Onward => Ok(s.(inserters := s.inserters[id := Inserter(i.obj, i.table + 1)]), Going)
        case Retry => Ok(s.(inserters := s.inserters[id := Inserter(i.obj, s.cur)]), Going)
        case Insert => Ok(s.(inserters := s.inserters[id := Ready(i.obj, i.table, b)]), Going)
        case Exists => Ok(s.(inserters := s.inserters - {id}), Present(Match(e, s.chains[b], e.keyOf(i.obj))))
        case TooBig => Ok(s.(inserters := s.inserters - {id}), TooMany)
  }

  /** One pointer read of __rhashtable_lookup. */
  function ReadPass(e: Env, s: State, id: nat): Outcome
    requires Shape(s)
  {
    if id !in s.readers || s.readers[id].table >= |s.tables| then Blocked
    else
      var r := s.readers[id];
      var b := Slot(e, s, r.table, r.key);
      match r.ptr
      case To(o) =>
        if e.keyOf(o) == r.key then Ok(s.(readers := s.readers - {id}), Found(o))
        else if o in s.next then Ok(s.(readers := s.readers[id := r.(ptr := s.next[o])]), Going)
        else Blocked
      case Nil(c) =>
        if c != b then Ok(s.(readers := s.readers[id := r.(ptr := s.heads[b])]), Going)
        else if r.table + 1 < |s.tables| then
          Ok(s.(readers := s.readers[id := r.(table := r.table + 1, ptr := s.heads[Slot(e, s, r.table + 1, r.key)])]), Going)
        else Ok(s.(readers := s.readers - {id}), Missing)
  }

  function Matches(e: Env, s: State, k: nat): set<nat> { set o | o in s.loc && e.keyOf(o) == k }

  ghost function Apply(e: Env, s: State, step: Step): Outcome
    requires Shape(s)
  {
    match step
    case Attach(size, rnd) => if size == 0 then Blocked else Ok(AttachTable(s, size, rnd), Going)
    case StartBucket =>
      if s.rehash == Free && s.cur + 1 < |s.tables| && s.done < s.tables[s.cur].size && !InsertLocked(s, OldBkt(s)) then
        Ok(s.(rehash := Locked), Going)
      else Blocked
    case MoveLink(t) =>
      if s.rehash == Locked && OldBkt(s) in s.chains && |s.chains[OldBkt(s)]| > 0 && s.cur < t < |s.tables|
        && !InsertLocked(s, LinkMoved(e, s, t).rehash.to)
      then Ok(LinkMoved(e, s, t), Going) else Blocked
    case MovePublish =>
      if s.rehash.Linked? && s.rehash.to in s.chains && OldBkt(s) in s.chains && |s.chains[OldBkt(s)]| > 0 then Ok(PublishMoved(s), Going) else Blocked
    case MoveUnlink =>
      if s.rehash.Published? && OldBkt(s) in s.chains then Ok(UnlinkMoved(s), Going) else Blocked
    case EndBucket =>
      if s.rehash == Locked && OldBkt(s) in s.chains && s.chains[OldBkt(s)] == [] then Ok(s.(rehash := Free, done := s.done + 1), Going) else Blocked
    case SwitchTable =>
      if s.rehash == Free && s.cur + 1 < |s.tables| && s.done == s.tables[s.cur].size then Ok(s.(cur := s.cur + 1, done := 0), Going) else Blocked
    case InsertBegin(id, obj) =>
      if id in s.inserters || obj in s.loc || (exists i :: i in s.inserters && s.inserters[i].obj == obj) then Blocked
      else Ok(s.(inserters := s.inserters[id := Inserter(obj, s.cur)]), Going)
    case InsertVisit(id) => InsertPass(e, s, id)
    case InsertAdd(id) =>
      if id in s.inserters && s.inserters[id].Ready? && s.inserters[id].bkt in s.chains && s.inserters[id].bkt in s.heads then
        Ok(AddObject(s, s.inserters[id].bkt, s.inserters[id].obj).(inserters := s.inserters - {id}), Added)
      else Blocked
    case ReadBegin(id, k) =>
      if id in s.readers then Blocked
      else Ok(s.(readers := s.readers[id := Reader(k, s.cur, s.heads[Slot(e, s, s.cur, k)], Matches(e, s, k))]), Going)
    case ReadStep(id) => ReadPass(e, s, id)
  }

  // ------------------------------------------- sections that change no chain

  ghost predicate SameData(s: State, s': State) {
    s'.tables == s.tables && s'.chains == s.chains && s'.loc == s.loc && s'.nelems == s.nelems && s'.heads.Keys == s.heads.Keys
  }

  lemma SameTrack(e: Env, s: State, s': State, r: Reader)
    requires Shape(s) && Shape(s') && SameData(s, s') && OnTrack(e, s, r)
    ensures OnTrack(e, s', r)
  {
    var b := Slot(e, s, r.table, r.key);
    assert forall p, i :: StandsAt(s', b, p, i) <==> StandsAt(s, b, p, i);
    assert forall p :: Strayed(s', b, p) <==> Strayed(s, b, p);
    forall o | o in r.held ensures Ahead(s', b, r.ptr, o) {
      assert Ahead(s, b, r.ptr, o);
      if s.loc[o].table == b.table && !Strayed(s, b, r.ptr) {
        var i, j :| StandsAt(s, b, r.ptr, i) && i <= j && StandsAt(s, b, To(o), j);
        assert StandsAt(s', b, r.ptr, i) && StandsAt(s', b, To(o), j);
      }
    }
    if !Strayed(s, b, r.ptr) {
      var i :| StandsAt(s, b, r.ptr, i);
      assert StandsAt(s', b, r.ptr, i);
    }
  }

  lemma SameShape(e: Env, s: State, s': State)
    requires Shape(s) && SameData(s, s') && s'.cur < |s.tables|
    ensures Shape(s') && (Placed(s) ==> Placed(s')) && (Hashed(e, s) ==> Hashed(e, s')) && (UniqueKeys(e, s) ==> UniqueKeys(e, s'))
  {
    forall b ensures b in s'.heads <==> IsBkt(s', b) { assert b in s'.heads.Keys <==> b in s.heads.Keys; }
    if Hashed(e, s) {
      forall o | o in s'.loc && s'.loc[o].table < |s'.tables| ensures s'.loc[o] == Slot(e, s', s'.loc[o].table, e.keyOf(o)) {
        assert s.loc[o] == Slot(e, s, s.loc[o].table, e.keyOf(o));
      }
    }
  }

  lemma SameReading(e: Env, s: State, s': State)
    requires Shape(s) && Shape(s') && SameData(s, s') && Reading(e, s) && s'.readers == s.readers
    ensures Reading(e, s')
  {
    forall r | r in s'.readers ensures OnTrack(e, s', s'.readers[r]) { SameTrack(e, s, s', s.readers[r]); }
  }

  lemma SameInserting(e: Env, s: State, s': State)
    requires SameData(s, s') && Inserting(e, s) && s'.inserters == s.inserters
    ensures Inserting(e, s')
  {
    forall i | i in s'.inserters ensures Passed(e, s', s'.inserters[i]) { assert Passed(e, s, s.inserters[i]); }
  }

  /** What the rehasher may not do to a bucket that an inserter holds. */
  ghost predicate LocksKept(s: State, s': State) {
    forall b | InsertLocked(s, b) && IsBkt(s, b) && Undrained(s, b) && !RehashLocked(s, b) :: Undrained(s', b) && !RehashLocked(s', b)
  }

  lemma HoldSame(e: Env, s: State, s': State)
    requires Shape(s) && Shape(s') && Holding(e, s) && s'.inserters == s.inserters && TablesKept(s, s') && LocksKept(s, s')
    requires forall o | o in s'.loc :: o in s.loc
    ensures Holding(e, s')
  {
    hide Shape, Slot, Undrained, RehashLocked, IsBkt, InsertLocked, TablesKept;
    forall id | id in s'.inserters && s'.inserters[id].Ready? ensures HoldOk(e, s', id) {
      var r := s.inserters[id];
      assert HoldOk(e, s, id);
      SlotKept(e, s, s', r.table, e.keyOf(r.obj));
      SlotIsBkt(e, s, r.table, e.keyOf(r.obj));
      TablesMore(s, s');
      assert InsertLocked(s, r.bkt) by { HeldOne(s, id); }
    }
  }

  lemma SameLocks(s: State, s': State)
    requires s'.cur == s.cur && s'.done == s.done && s'.rehash == s.rehash
    ensures LocksKept(s, s')
  {
    hide InsertLocked, IsBkt;
  }

  lemma HeldOne(s: State, id: nat)
    requires id in s.inserters && s.inserters[id].Ready?
    ensures InsertLocked(s, s.inserters[id].bkt)
  {}

  lemma SlotIsBkt(e: Env, s: State, t: nat, k: nat)
    requires Shape(s) && t < |s.tables|
    ensures IsBkt(s, Slot(e, s, t, k))
  {}

  lemma TablesMore(s: State, s': State)
    requires TablesKept(s, s')
    ensures |s.tables| <= |s'.tables|
  {}

  lemma SameRest(e: Env, s: State, s': State)
    requires Inv(e, s) && SameData(s, s') && s'.cur < |s.tables| && s'.readers == s.readers && s'.inserters == s.inserters
    requires Pointers(s') && Drained(s') && (Shape(s') ==> Rehashing(e, s')) && LocksKept(s, s')
    ensures Inv(e, s')
  {
    hide Placed, Hashed, UniqueKeys, Pointers, Drained, Rehashing, Inserting, Reading, LocksKept, Holding;
    SameShape(e, s, s');
    SameReading(e, s, s');
    SameInserting(e, s, s');
    assert s'.tables[..|s.tables|] == s.tables;
    HoldSame(e, s, s');
  }

  lemma OnlyAt(s: State, b: Bkt, i: nat, c: Bkt, j: nat)
    requires Placed(s) && b in s.chains && c in s.chains && i < |s.chains[b]| && j < |s.chains[c]| && s.chains[b][i] == s.chains[c][j]
    ensures b == c && i == j
  {
    assert b == c;
  }

  lemma LinkNext(e: Env, s: State, t: nat, to: Bkt, b: Bkt, i: nat)
    requires Shape(s) && Placed(s) && Pointers(s) && s.rehash == Locked && OldBkt(s) in s.chains && |s.chains[OldBkt(s)]| > 0 && s.cur < t < |s.tables|
    requires b in s.chains && i < |s.chains[b]| && to in s.chains && to != OldBkt(s) && LinkMoved(e, s, t).rehash.to == to
    ensures NextOk(LinkMoved(e, s, t), b, i)
  {
    hide Placed, Pointers;
    var src := OldBkt(s);
    PointersAt(s, b, i);
    PointersAtHead(s, to);
    if s.chains[b][i] == Last(s.chains[src]) { OnlyAt(s, b, i, src, |s.chains[src]| - 1); }
  }

  lemma PointersAt(s: State, b: Bkt, i: nat)
    requires Pointers(s) && b in s.chains && i < |s.chains[b]|
    ensures NextOk(s, b, i)
  {}

  lemma PointersAtHead(s: State, b: Bkt)
    requires Pointers(s) && b in s.chains
    ensures HeadOk(s, b)
  {}

  lemma LinkPointers(e: Env, s: State, t: nat, to: Bkt)
    requires Shape(s) && Placed(s) && Pointers(s) && s.rehash == Locked && OldBkt(s) in s.chains && |s.chains[OldBkt(s)]| > 0 && s.cur < t < |s.tables|
    requires to in s.chains && to != OldBkt(s) && LinkMoved(e, s, t).rehash.to == to
    ensures Pointers(LinkMoved(e, s, t))
  {
    hide Placed, NextOk, PtrAt;
    var s' := LinkMoved(e, s, t);
    forall b | b in s'.chains ensures HeadOk(s', b) { PointersAtHead(s, b); LinkHead(e, s, t, b); }
    forall b: Bkt, i: nat | b in s'.chains && i < |s'.chains[b]| ensures NextOk(s', b, i) { LinkNext(e, s, t, to, b, i); }
  }

  lemma LinkHead(e: Env, s: State, t: nat, b: Bkt)
    requires Shape(s) && s.rehash == Locked && OldBkt(s) in s.chains && |s.chains[OldBkt(s)]| > 0 && s.cur < t < |s.tables| && b in s.chains && HeadOk(s, b)
    ensures HeadOk(LinkMoved(e, s, t), b)
  {}

  lemma LinkInv(e: Env, s: State, t: nat)
    requires Inv(e, s) && s.rehash == Locked && OldBkt(s) in s.chains && |s.chains[OldBkt(s)]| > 0 && s.cur < t < |s.tables|
    requires !InsertLocked(s, LinkMoved(e, s, t).rehash.to)
    ensures Inv(e, LinkMoved(e, s, t))
  {
    hide Placed, Pointers, Inserting, Reading, UniqueKeys, Hashed, Holding, InsertLocked;
    var s' := LinkMoved(e, s, t);
    assert IsBkt(s, s'.rehash.to);
    LinkPointers(e, s, t, s'.rehash.to);
    SameRest(e, s, s');
  }

  lemma UnlinkOne(s: State, b: Bkt)
    requires Placed(s) && Pointers(s) && s.rehash.Published? && OldBkt(s) in s.chains && b in s.chains
    ensures HeadOk(UnlinkMoved(s), b)
    ensures forall i: nat | i < |s.chains[b]| :: NextOk(UnlinkMoved(s), b, i)
  {
    hide Placed, Pointers;
    var s' := UnlinkMoved(s);
    var src := OldBkt(s);
    PointersAtHead(s, b);
    forall i: nat | i < |s.chains[b]| ensures NextOk(s', b, i) {
      PointersAt(s, b, i);
      if |s.chains[src]| > 0 && s.chains[b][i] == Last(s.chains[src]) { OnlyAt(s, b, i, src, |s.chains[src]| - 1); }
    }
  }

  lemma UnlinkPointers(s: State)
    requires Placed(s) && Pointers(s) && s.rehash.Published? && OldBkt(s) in s.chains
    ensures Pointers(UnlinkMoved(s))
  {
    hide Placed, HeadOk, NextOk;
    var s' := UnlinkMoved(s);
    forall b | b in s'.chains ensures HeadOk(s', b) && forall i: nat | i < |s'.chains[b]| :: NextOk(s', b, i) { UnlinkOne(s, b); }
  }

  lemma UnlinkInv(e: Env, s: State)
    requires Inv(e, s) && s.rehash.Published? && OldBkt(s) in s.chains
    ensures Inv(e, UnlinkMoved(s))
  {
    hide Placed, Pointers, Inserting, Reading, UniqueKeys, Hashed, IsBkt;
    var s' := UnlinkMoved(s);
    UnlinkPointers(s);
    assert OldBkt(s) in s.heads;
    assert s'.heads.Keys == s.heads.Keys;
    assert Drained(s');
    SameRest(e, s, s');
  }

  lemma FreePointers(s: State, s': State)
    requires Pointers(s) && s'.chains == s.chains && s'.heads == s.heads && s'.next == s.next
    requires !s.rehash.Linked? && !s.rehash.Published? && !s'.rehash.Linked? && !s'.rehash.Published?
    ensures Pointers(s')
  {
    forall b | b in s'.chains ensures HeadOk(s', b) { assert HeadOk(s, b); }
    forall b: Bkt, i: nat | b in s'.chains && i < |s'.chains[b]| ensures NextOk(s', b, i) { assert NextOk(s, b, i); }
  }

  lemma StartInv(e: Env, s: State)
    requires Inv(e, s) && Apply(e, s, StartBucket).Ok?
    ensures Inv(e, Apply(e, s, StartBucket).state)
  {
    hide Placed, Hashed, UniqueKeys, Pointers, Inserting, Reading;
    var s' := Apply(e, s, StartBucket).state;
    FreePointers(s, s');
    SameRest(e, s, s');
  }

  lemma EndInv(e: Env, s: State)
    requires Inv(e, s) && Apply(e, s, EndBucket).Ok?
    ensures Inv(e, Apply(e, s, EndBucket).state)
  {
    hide Placed, Hashed, UniqueKeys, Pointers, Inserting, Reading;
    var s' := Apply(e, s, EndBucket).state;
    FreePointers(s, s');
    forall b | b in s'.chains && (b.table < s'.cur || (b.table == s'.cur && b.slot < s'.done)) ensures s'.chains[b] == [] {
      assert b.table == s.cur && b.slot == s.done ==> b == OldBkt(s);
    }
    SameRest(e, s, s');
  }

  lemma SwitchInv(e: Env, s: State)
    requires Inv(e, s) && Apply(e, s, SwitchTable).Ok?
    ensures Inv(e, Apply(e, s, SwitchTable).state)
  {
    hide Placed, Hashed, UniqueKeys, Pointers, Inserting, Reading;
    var s' := Apply(e, s, SwitchTable).state;
    FreePointers(s, s');
    assert Drained(s');
    SameRest(e, s, s');
  }

  // ----------------------------------------- chains that grow in front and shrink behind

  /** b's chain gained k objects in front and kept its first m; the others have moved to later tables. */
  ghost predicate Shifted(s: State, s': State, b: Bkt, k: nat, m: nat) {
    && b in s.chains && b in s'.chains && m <= |s.chains[b]| && |s'.chains[b]| == k + m
    && (forall i: nat | i < m :: s'.chains[b][k + i] == s.chains[b][i])
    && (forall i: nat | m <= i < |s.chains[b]| :: s.chains[b][i] in s'.loc && s'.loc[s.chains[b][i]].table > b.table)
  }

  /** Objects stay where they are or move to a later table. */
  ghost predicate Forward(s: State, s': State) {
    forall o | o in s.loc :: o in s'.loc && (s'.loc[o] == s.loc[o] || s'.loc[o].table > s.loc[o].table)
  }

  ghost predicate TablesKept(s: State, s': State) { |s.tables| <= |s'.tables| && s'.tables[..|s.tables|] == s.tables }

  lemma StandShifted(s: State, s': State, b: Bkt, k: nat, m: nat, p: Ptr, i: nat)
    requires Shifted(s, s', b, k, m) && StandsAt(s, b, p, i)
    ensures i < m ==> StandsAt(s', b, p, k + i)
    ensures m <= i < |s.chains[b]| ==> Strayed(s', b, p)
    ensures i == |s.chains[b]| ==> StandsAt(s', b, p, k + m)
  {}

  lemma AheadShifted(s: State, s': State, b: Bkt, k: nat, m: nat, p: Ptr, o: nat)
    requires Shifted(s, s', b, k, m) && Forward(s, s') && Ahead(s, b, p, o)
    ensures Ahead(s', b, p, o)
  {
    if s'.loc[o].table == b.table {
      if Strayed(s, b, p) {
        assert Strayed(s', b, p);
      } else {
        var i, j :| StandsAt(s, b, p, i) && i <= j && StandsAt(s, b, To(o), j);
        StandShifted(s, s', b, k, m, p, i);
        StandShifted(s, s', b, k, m, To(o), j);
        assert StandsAt(s', b, p, k + i) && StandsAt(s', b, To(o), k + j);
      }
    }
  }

  lemma TrackShifted(e: Env, s: State, s': State, r: Reader, k: nat, m: nat)
    requires Shape(s) && Shape(s') && OnTrack(e, s, r) && TablesKept(s, s') && Forward(s, s')
    requires Shifted(s, s', Slot(e, s, r.table, r.key), k, m)
    ensures OnTrack(e, s', r)
  {
    hide Ahead, Shifted;
    var b := Slot(e, s, r.table, r.key);
    assert s'.tables[r.table] == s'.tables[..|s.tables|][r.table];
    assert Slot(e, s', r.table, r.key) == b;
    forall o | o in r.held ensures Ahead(s', b, r.ptr, o) { AheadShifted(s, s', b, k, m, r.ptr, o); }
    if Strayed(s, b, r.ptr) {
      assert Strayed(s', b, r.ptr);
    } else {
      var i :| StandsAt(s, b, r.ptr, i);
      StandShifted(s, s', b, k, m, r.ptr, i);
    }
  }

  lemma ReadingShifted(e: Env, s: State, s': State)
    requires Shape(s) && Shape(s') && Reading(e, s) && TablesKept(s, s') && Forward(s, s') && s'.readers == s.readers
    requires forall b | b in s.chains :: exists k, m :: Shifted(s, s', b, k, m)
    ensures Reading(e, s')
  {
    hide OnTrack, Shifted, Forward, TablesKept;
    forall r | r in s'.readers ensures OnTrack(e, s', s'.readers[r]) {
      var rd := s.readers[r];
      var b := TrackBkt(e, s, rd);
      var k, m :| Shifted(s, s', b, k, m);
      TrackShifted(e, s, s', rd, k, m);
    }
  }

  lemma TrackBkt(e: Env, s: State, r: Reader) returns (b: Bkt)
    requires Shape(s) && OnTrack(e, s, r)
    ensures r.table < |s.tables| && b == Slot(e, s, r.table, r.key) && b in s.chains
  {
    b := Slot(e, s, r.table, r.key);
    assert IsBkt(s, b);
  }

  lemma PassedForward(e: Env, s: State, s': State, i: Inserter)
    requires Passed(e, s, i) && Forward(s, s') && |s.tables| <= |s'.tables|
    requires forall o | o in s'.loc && e.keyOf(o) == e.keyOf(i.obj) :: o in s.loc || s'.loc[o].table >= i.table
    requires i.obj !in s'.loc
    ensures Passed(e, s', i)
  {
    forall o | o in s'.loc && e.keyOf(o) == e.keyOf(i.obj) ensures s'.loc[o].table >= i.table {
      if o in s.loc { assert s.loc[o].table >= i.table; }
    }
  }

  // ---------------------------------------------------------------- publishing

  ghost predicate Moving(e: Env, s: State) {
    && Shape(s) && Placed(s) && Rehashing(e, s) && s.rehash.Linked?
  }

  lemma MovingParts(e: Env, s: State)
    requires Moving(e, s)
    ensures var src, to, obj := OldBkt(s), s.rehash.to, s.rehash.obj;
      && src in s.chains && to in s.chains && src != to && src.table < to.table && |s.chains[src]| > 0 && Last(s.chains[src]) == obj
      && obj in s.loc && s.loc[obj] == src && obj !in s.chains[to]
  {
    var src, to, obj := OldBkt(s), s.rehash.to, s.rehash.obj;
    assert IsBkt(s, to);
    assert s.chains[src][|s.chains[src]| - 1] == obj;
    assert forall j | 0 <= j < |s.chains[to]| :: s.loc[s.chains[to][j]] == to;
  }

  lemma PublishOwner(e: Env, s: State, b: Bkt, i: nat)
    requires Moving(e, s) && s.rehash.to in s.chains && OldBkt(s) in s.chains && |s.chains[OldBkt(s)]| > 0
    requires b in PublishMoved(s).chains && i < |PublishMoved(s).chains[b]|
    ensures PublishMoved(s).chains[b][i] in PublishMoved(s).loc && PublishMoved(s).loc[PublishMoved(s).chains[b][i]] == b
  {
    MovingParts(e, s);
    var s' := PublishMoved(s);
    var src, to := OldBkt(s), s.rehash.to;
    var c := s.chains[src];
    if b == src {
      assert c[i] != c[|c| - 1];
    } else if b == to {
      assert i > 0 ==> s'.chains[b][i] == s.chains[to][i - 1];
    } else {
      assert s.loc[s.chains[b][i]] == b;
    }
  }

  lemma PublishNoDup(e: Env, s: State, b: Bkt, i: nat, j: nat)
    requires Moving(e, s) && s.rehash.to in s.chains && OldBkt(s) in s.chains && |s.chains[OldBkt(s)]| > 0
    requires b in PublishMoved(s).chains && i < j < |PublishMoved(s).chains[b]|
    ensures PublishMoved(s).chains[b][i] != PublishMoved(s).chains[b][j]
  {
    MovingParts(e, s);
    var s' := PublishMoved(s);
    var to := s.rehash.to;
    if b == to {
      assert s'.chains[b][j] == s.chains[to][j - 1];
      assert i > 0 ==> s'.chains[b][i] == s.chains[to][i - 1];
    }
  }

  lemma PublishPlaced(e: Env, s: State)
    requires Moving(e, s) && s.rehash.to in s.chains && OldBkt(s) in s.chains && |s.chains[OldBkt(s)]| > 0
    ensures Placed(PublishMoved(s))
  {
    hide Shape, Rehashing;
    MovingParts(e, s);
    var s' := PublishMoved(s);
    forall b, i | b in s'.chains && 0 <= i < |s'.chains[b]| ensures s'.chains[b][i] in s'.loc && s'.loc[s'.chains[b][i]] == b {
      PublishOwner(e, s, b, i);
    }
    forall o | o in s'.loc ensures s'.loc[o] in s'.chains && o in s'.chains[s'.loc[o]] { PublishedIn(e, s, o); }
    forall b, i, j | b in s'.chains && 0 <= i < j < |s'.chains[b]| ensures s'.chains[b][i] != s'.chains[b][j] {
      PublishNoDup(e, s, b, i, j);
    }
    PublishCount(e, s);
  }

  lemma PublishCount(e: Env, s: State)
    requires Moving(e, s) && s.rehash.to in s.chains && OldBkt(s) in s.chains && |s.chains[OldBkt(s)]| > 0
    ensures PublishMoved(s).nelems == |PublishMoved(s).loc|
  {
    MovingParts(e, s);
    assert PublishMoved(s).loc.Keys == s.loc.Keys;
    SameSize(s.loc, PublishMoved(s).loc);
  }

  lemma SameSize(m: map<nat, Bkt>, m': map<nat, Bkt>)
    requires m.Keys == m'.Keys
    ensures |m| == |m'|
  {
    assert |m| == |m.Keys| && |m'| == |m'.Keys|;
  }

  lemma PublishedIn(e: Env, s: State, o: nat)
    requires Moving(e, s) && s.rehash.to in s.chains && OldBkt(s) in s.chains && |s.chains[OldBkt(s)]| > 0
    requires o in PublishMoved(s).loc
    ensures PublishMoved(s).loc[o] in PublishMoved(s).chains && o in PublishMoved(s).chains[PublishMoved(s).loc[o]]
  {
    MovingParts(e, s);
    var s' := PublishMoved(s);
    var src, to, obj := OldBkt(s), s.rehash.to, s.rehash.obj;
    if o == obj {
      assert s'.chains[to][0] == obj;
    } else {
      var b := s.loc[o];
      var i :| 0 <= i < |s.chains[b]| && s.chains[b][i] == o;
      if b == to { assert s'.chains[to][i + 1] == o; } else { assert s'.chains[b][i] == o; }
    }
  }

  lemma PublishShifted(e: Env, s: State, b: Bkt)
    requires Moving(e, s) && s.rehash.to in s.chains && OldBkt(s) in s.chains && |s.chains[OldBkt(s)]| > 0 && b in s.chains
    ensures exists k, m :: Shifted(s, PublishMoved(s), b, k, m)
  {
    MovingParts(e, s);
    var s' := PublishMoved(s);
    var n := |s.chains[b]|;
    if b == OldBkt(s) {
      assert Shifted(s, s', b, 0, n - 1);
    } else if b == s.rehash.to {
      assert Shifted(s, s', b, 1, n);
    } else {
      assert Shifted(s, s', b, 0, n);
    }
  }

  lemma PublishPointer(e: Env, s: State, b: Bkt)
    requires Moving(e, s) && Pointers(s) && s.rehash.to in s.chains && OldBkt(s) in s.chains && |s.chains[OldBkt(s)]| > 0 && b in s.chains
    ensures HeadOk(PublishMoved(s), b)
    ensures forall i: nat | i < |PublishMoved(s).chains[b]| :: NextOk(PublishMoved(s), b, i)
  {
    hide Pointers, Placed, Rehashing, Shape;
    MovingParts(e, s);
    var s' := PublishMoved(s);
    var src, to, obj := OldBkt(s), s.rehash.to, s.rehash.obj;
    PointersAtHead(s, b);
    forall i: nat | i < |s'.chains[b]| ensures NextOk(s', b, i) {
      if b == to && i > 0 {
        PointersAt(s, b, i - 1);
        assert s'.chains[b][i] == s.chains[b][i - 1];
        assert i < |s.chains[b]| ==> s'.chains[b][i + 1] == s.chains[b][i];
      } else if b == to {
        PointersAt(s, src, |s.chains[src]| - 1);
        assert |s.chains[b]| > 0 ==> s'.chains[b][1] == s.chains[b][0];
      } else {
        PointersAt(s, b, i);
      }
    }
  }

  lemma PublishHashed(e: Env, s: State)
    requires Moving(e, s) && Hashed(e, s) && s.rehash.to in s.chains && OldBkt(s) in s.chains && |s.chains[OldBkt(s)]| > 0
    ensures Shape(PublishMoved(s)) && Hashed(e, PublishMoved(s))
  {
    hide Placed;
    var s' := PublishMoved(s);
    MovingParts(e, s);
    assert s'.chains.Keys == s.chains.Keys && s'.heads.Keys == s.heads.Keys;
    forall b ensures b in s'.chains <==> IsBkt(s', b) { assert b in s'.chains.Keys <==> b in s.chains.Keys; }
    forall b ensures b in s'.heads <==> IsBkt(s', b) { assert b in s'.heads.Keys <==> b in s.heads.Keys; }
    forall o | o in s'.loc && s'.loc[o].table < |s'.tables| ensures s'.loc[o] == Slot(e, s', s'.loc[o].table, e.keyOf(o)) {
      assert o != s.rehash.obj ==> s.loc[o] == Slot(e, s, s.loc[o].table, e.keyOf(o));
    }
  }

  lemma PublishThreads(e: Env, s: State)
    requires Inv(e, s) && Moving(e, s) && s.rehash.to in s.chains && OldBkt(s) in s.chains && |s.chains[OldBkt(s)]| > 0
    requires Shape(PublishMoved(s))
    ensures Inserting(e, PublishMoved(s)) && Reading(e, PublishMoved(s))
  {
    hide Placed, Hashed, UniqueKeys, Pointers, Drained, Rehashing, Reading, Passed, OnTrack, Shifted;
    var s' := PublishMoved(s);
    MovingParts(e, s);
    forall b | b in s.chains ensures exists k, m :: Shifted(s, s', b, k, m) { PublishShifted(e, s, b); }
    assert Forward(s, s') && TablesKept(s, s');
    ReadingShifted(e, s, s');
    forall i | i in s'.inserters ensures Passed(e, s', s'.inserters[i]) {
      PassedParts(e, s, s.inserters[i]);
      PassedForward(e, s, s', s.inserters[i]);
    }
  }

  lemma PassedParts(e: Env, s: State, i: Inserter)
    requires Passed(e, s, i)
    ensures i.obj !in s.loc
  {}

  lemma PublishOthers(e: Env, s: State)
    requires Inv(e, s) && Moving(e, s) && s.rehash.to in s.chains && OldBkt(s) in s.chains && |s.chains[OldBkt(s)]| > 0
    requires Shape(PublishMoved(s))
    ensures UniqueKeys(e, PublishMoved(s)) && Drained(PublishMoved(s)) && Rehashing(e, PublishMoved(s))
  {
    hide Placed, Hashed, Pointers, Reading, Inserting;
    MovingParts(e, s);
    var s' := PublishMoved(s);
    assert forall o :: o in s'.loc <==> o in s.loc;
  }

  lemma PublishInv(e: Env, s: State)
    requires Inv(e, s) && s.rehash.Linked? && s.rehash.to in s.chains && OldBkt(s) in s.chains && |s.chains[OldBkt(s)]| > 0
    ensures Inv(e, PublishMoved(s))
  {
    hide Shape, Placed, Hashed, Pointers, Reading, Inserting, UniqueKeys, Drained, Rehashing, Holding;
    var s' := PublishMoved(s);
    PublishPlaced(e, s);
    PublishHashed(e, s);
    PublishThreads(e, s);
    PublishOthers(e, s);
    PublishPointers(e, s);
    PublishHolding(e, s);
  }

  lemma PublishHolding(e: Env, s: State)
    requires Inv(e, s) && s.rehash.Linked? && s.rehash.to in s.chains && OldBkt(s) in s.chains && |s.chains[OldBkt(s)]| > 0
    requires Shape(PublishMoved(s))
    ensures Holding(e, PublishMoved(s))
  {
    hide Placed, Hashed, Pointers, Reading, Inserting, UniqueKeys, Drained, Holding, IsBkt, InsertLocked, Shape;
    MovingParts(e, s);
    assert s.tables[..|s.tables|] == s.tables;
    HoldSame(e, s, PublishMoved(s));
  }

  lemma PublishPointers(e: Env, s: State)
    requires Moving(e, s) && Pointers(s) && s.rehash.to in s.chains && OldBkt(s) in s.chains && |s.chains[OldBkt(s)]| > 0
    ensures Pointers(PublishMoved(s))
  {
    hide Shape, Placed, Rehashing, HeadOk, NextOk;
    var s' := PublishMoved(s);
    MovingParts(e, s);
    forall b | b in s'.chains ensures HeadOk(s', b) && forall i: nat | i < |s'.chains[b]| :: NextOk(s', b, i) { PublishPointer(e, s, b); }
  }

  // ----------------------------------------------------------------- attaching

  /** s' is s with one more, empty, table. */
  ghost predicate Attached(s: State, s': State) {
    && s' == s.(tables := s'.tables, heads := s'.heads, chains := s'.chains)
    && |s'.tables| == |s.tables| + 1 && s'.tables[..|s.tables|] == s.tables && s'.tables[|s.tables|].size > 0
    && (forall b | b in s.chains :: b in s'.chains && s'.chains[b] == s.chains[b] && b in s'.heads && b in s.heads && s'.heads[b] == s.heads[b])
    && (forall b | b in s'.chains && b !in s.chains :: s'.chains[b] == [] && b.table == |s.tables| && b in s'.heads && s'.heads[b] == Nil(b))
  }

  lemma AttachedFrame(s: State, s': State)
    requires Attached(s, s')
    ensures s'.inserters == s.inserters && TablesKept(s, s') && LocksKept(s, s') && s'.loc == s.loc
  {
    hide IsBkt, InsertLocked;
  }

  lemma AttachIsBkt(s: State, size: nat, rnd: nat, b: Bkt)
    ensures IsBkt(AttachTable(s, size, rnd), b) <==> IsBkt(s, b) || (b.table == |s.tables| && b.slot < size)
  {
    hide Fresh;
  }

  lemma AttachShape(s: State, size: nat, rnd: nat)
    requires Shape(s) && size > 0
    ensures Shape(AttachTable(s, size, rnd)) && Attached(s, AttachTable(s, size, rnd))
  {
    hide IsBkt, Fresh;
    var s' := AttachTable(s, size, rnd);
    forall b ensures (b in s'.chains <==> IsBkt(s', b)) && (b in s'.heads <==> IsBkt(s', b)) {
      AttachIsBkt(s, size, rnd, b);
      assert b in s.chains <==> IsBkt(s, b);
      assert b in s.heads <==> IsBkt(s, b);
    }
    AttachNew(s, size, rnd);
  }

  lemma AttachNew(s: State, size: nat, rnd: nat)
    requires Shape(s) && size > 0
    ensures Attached(s, AttachTable(s, size, rnd))
  {
    hide Fresh;
    var s' := AttachTable(s, size, rnd);
    var n := |s.tables|;
    assert s'.tables[..n] == s.tables;
    forall b | b in s.chains ensures b.table < n && b in s.heads { assert IsBkt(s, b); }
  }

  lemma SlotKept(e: Env, s: State, s': State, t: nat, k: nat)
    requires Shape(s) && Shape(s') && TablesKept(s, s') && t < |s.tables|
    ensures Slot(e, s', t, k) == Slot(e, s, t, k) && s'.tables[t] == s.tables[t]
  {
    assert s'.tables[t] == s'.tables[..|s.tables|][t];
  }

  lemma AttachPlaced(s: State, s': State)
    requires Shape(s) && Placed(s) && Drained(s) && Attached(s, s')
    ensures Placed(s') && Drained(s') && Forward(s, s') && TablesKept(s, s')
  {
    hide Shape;
    forall b, i | b in s'.chains && 0 <= i < |s'.chains[b]| ensures s'.chains[b][i] in s'.loc && s'.loc[s'.chains[b][i]] == b {
      assert b in s.chains;
    }
    forall b, i, j | b in s'.chains && 0 <= i < j < |s'.chains[b]| ensures s'.chains[b][i] != s'.chains[b][j] { assert b in s.chains; }
    forall o | o in s'.loc ensures s'.loc[o] in s'.chains && o in s'.chains[s'.loc[o]] { assert s.loc[o] in s.chains; }
  }

  lemma AttachHashed(e: Env, s: State, s': State)
    requires Shape(s) && Placed(s) && Hashed(e, s) && UniqueKeys(e, s) && Attached(s, s') && Shape(s')
    ensures Hashed(e, s') && UniqueKeys(e, s')
  {
    hide Slot;
    forall o | o in s'.loc && s'.loc[o].table < |s'.tables| ensures s'.loc[o] == Slot(e, s', s'.loc[o].table, e.keyOf(o)) {
      assert s.loc[o] in s.chains && IsBkt(s, s.loc[o]);
      SlotKept(e, s, s', s.loc[o].table, e.keyOf(o));
    }
  }

  lemma AttachRehashing(e: Env, s: State, s': State)
    requires Shape(s) && Rehashing(e, s) && Attached(s, s') && Shape(s')
    ensures Rehashing(e, s')
  {
    hide Slot;
    SlotKept(e, s, s', s.cur, 0);
    if s.rehash.Linked? { SlotKept(e, s, s', s.rehash.to.table, e.keyOf(s.rehash.obj)); }
  }

  lemma AttachThreads(e: Env, s: State, s': State)
    requires Inserting(e, s) && Shape(s) && Reading(e, s) && Attached(s, s') && Shape(s') && Forward(s, s') && TablesKept(s, s')
    ensures Inserting(e, s') && Reading(e, s')
  {
    hide Passed, OnTrack, Reading, Shape;
    forall b | b in s.chains ensures exists k, m :: Shifted(s, s', b, k, m) { assert Shifted(s, s', b, 0, |s.chains[b]|); }
    hide Shifted;
    ReadingShifted(e, s, s');
    forall i | i in s'.inserters ensures Passed(e, s', s'.inserters[i]) {
      PassedParts(e, s, s.inserters[i]);
      PassedForward(e, s, s', s.inserters[i]);
    }
  }

  lemma AttachEnd(s: State, s': State, b: Bkt, i: nat)
    requires Attached(s, s') && b in s.chains && (s.rehash.Linked? ==> s.rehash.to in s.chains) && i <= |s.chains[b]|
    ensures b in s'.chains && s'.chains[b] == s.chains[b] && PtrAt(s', b, i) == PtrAt(s, b, i)
  {}

  lemma AttachPointers(s: State, s': State)
    requires Pointers(s) && Attached(s, s') && (s.rehash.Linked? ==> s.rehash.to in s.chains) && OldBkt(s).table < |s.tables|
    ensures Pointers(s')
  {
    hide PtrAt;
    forall b | b in s'.chains ensures HeadOk(s', b) {
      if b in s.chains {
        assert HeadOk(s, b);
        AttachEnd(s, s', b, 0);
      } else {
        NewHead(s', b);
      }
    }
    forall b: Bkt, i: nat | b in s'.chains && i < |s'.chains[b]| ensures NextOk(s', b, i) {
      assert NextOk(s, b, i);
      AttachEnd(s, s', b, i + 1);
    }
  }

  lemma NewHead(s: State, b: Bkt)
    requires b in s.chains && s.chains[b] == [] && b in s.heads && s.heads[b] == Nil(b) && b != OldBkt(s)
    ensures HeadOk(s, b)
  {}

  lemma AttachInv(e: Env, s: State, size: nat, rnd: nat)
    requires Inv(e, s) && size > 0
    ensures Inv(e, AttachTable(s, size, rnd))
  {
    hide Placed, Hashed, Pointers, Reading, Inserting, UniqueKeys, Drained, Attached;
    var s' := AttachTable(s, size, rnd);
    AttachShape(s, size, rnd);
    AttachPlaced(s, s');
    AttachHashed(e, s, s');
    AttachRehashing(e, s, s');
    assert s.rehash.Linked? ==> IsBkt(s, s.rehash.to);
    AttachPointers(s, s');
    AttachThreads(e, s, s');
    HoldSame(e, s, s') by { AttachedFrame(s, s'); }
  }

  // ----------------------------------------------------------------- inserting

  /** obj may go in front of b, a bucket that its inserter holds. */
  ghost predicate Addable(e: Env, s: State, b: Bkt, obj: nat) {
    && Shape(s) && Placed(s) && Rehashing(e, s) && b in s.chains && b in s.heads && Undrained(s, b)
    && !RehashLocked(s, b) && obj !in s.loc && b.table < |s.tables| && b == Slot(e, s, b.table, e.keyOf(obj))
  }

  lemma AddPlaced(e: Env, s: State, b: Bkt, obj: nat)
    requires Addable(e, s, b, obj)
    ensures Placed(AddObject(s, b, obj))
  {
    hide Rehashing, Shape, Slot;
    var s' := AddObject(s, b, obj);
    forall c, i | c in s'.chains && 0 <= i < |s'.chains[c]| ensures s'.chains[c][i] in s'.loc && s'.loc[s'.chains[c][i]] == c {
      assert c == b && i > 0 ==> s'.chains[c][i] == s.chains[c][i - 1];
    }
    forall o | o in s'.loc ensures s'.loc[o] in s'.chains && o in s'.chains[s'.loc[o]] {
      if o == obj { assert s'.chains[b][0] == obj; }
    }
    forall c, i, j | c in s'.chains && 0 <= i < j < |s'.chains[c]| ensures s'.chains[c][i] != s'.chains[c][j] {
      if c == b {
        assert s'.chains[c][j] == s.chains[c][j - 1];
        assert i > 0 ==> s'.chains[c][i] == s.chains[c][i - 1];
      }
    }
    AddSize(s.loc, obj, b);
  }

  lemma AddSize(m: map<nat, Bkt>, obj: nat, b: Bkt)
    requires obj !in m
    ensures |m[obj := b]| == |m| + 1
  {
    assert m[obj := b].Keys == m.Keys + {obj};
    assert |m| == |m.Keys| && |m[obj := b]| == |m[obj := b].Keys|;
  }

  lemma AddShape(e: Env, s: State, b: Bkt, obj: nat)
    requires Addable(e, s, b, obj) && Hashed(e, s) && Drained(s)
    ensures Shape(AddObject(s, b, obj)) && Hashed(e, AddObject(s, b, obj)) && Drained(AddObject(s, b, obj)) && Rehashing(e, AddObject(s, b, obj))
  {
    hide IsBkt, Placed;
    var s' := AddObject(s, b, obj);
    assert forall c :: c in s'.chains <==> c in s.chains;
    assert forall c :: c in s'.heads <==> c in s.heads;
    forall c ensures IsBkt(s', c) <==> IsBkt(s, c) { SameIsBkt(s, s', c); }
    forall o | o in s'.loc && s'.loc[o].table < |s'.tables| ensures s'.loc[o] == Slot(e, s', s'.loc[o].table, e.keyOf(o)) {
      assert o != obj ==> s.loc[o] == Slot(e, s, s.loc[o].table, e.keyOf(o));
    }
  }

  lemma SameIsBkt(s: State, s': State, b: Bkt)
    requires s'.tables == s.tables
    ensures IsBkt(s', b) <==> IsBkt(s, b)
  {}

  lemma AddPointer(e: Env, s: State, b: Bkt, obj: nat, c: Bkt)
    requires Addable(e, s, b, obj) && Pointers(s) && c in s.chains
    ensures HeadOk(AddObject(s, b, obj), c)
    ensures forall i: nat | i < |AddObject(s, b, obj).chains[c]| :: NextOk(AddObject(s, b, obj), c, i)
  {
    hide Pointers, Shape;
    var s' := AddObject(s, b, obj);
    PointersAtHead(s, c);
    PointersAtHead(s, b);
    forall i: nat | i < |s'.chains[c]| ensures NextOk(s', c, i) {
      if c == b && i > 0 {
        PointersAt(s, b, i - 1);
        assert s'.chains[c][i] == s.chains[c][i - 1];
        assert i < |s.chains[c]| ==> s'.chains[c][i + 1] == s.chains[c][i];
      } else if c == b {
        assert |s.chains[b]| > 0 ==> s'.chains[b][1] == s.chains[b][0];
      } else {
        PointersAt(s, c, i);
        assert s.chains[c][i] in s.loc;
      }
    }
  }

  lemma AddPointers(e: Env, s: State, b: Bkt, obj: nat)
    requires Addable(e, s, b, obj) && Pointers(s)
    ensures Pointers(AddObject(s, b, obj))
  {
    hide Shape, Placed, Rehashing, HeadOk, NextOk;
    var s' := AddObject(s, b, obj);
    forall c | c in s'.chains ensures HeadOk(s', c) && forall i: nat | i < |s'.chains[c]| :: NextOk(s', c, i) { AddPointer(e, s, b, obj, c); }
  }

  lemma AddThreads(e: Env, s: State, b: Bkt, obj: nat, id: nat)
    requires Addable(e, s, b, obj) && Inserting(e, s) && Reading(e, s) && Shape(AddObject(s, b, obj))
    requires id in s.inserters && s.inserters[id].obj == obj
    requires forall j | j in s.inserters && e.keyOf(s.inserters[j].obj) == e.keyOf(obj) :: s.inserters[j].table <= b.table
    ensures Inserting(e, AddObject(s, b, obj).(inserters := s.inserters - {id})) && Reading(e, AddObject(s, b, obj))
  {
    hide Placed, Rehashing, Passed, OnTrack, Reading, Slot, Shape;
    var s1 := AddObject(s, b, obj);
    forall c | c in s.chains ensures exists k, m :: Shifted(s, s1, c, k, m) {
      assert Shifted(s, s1, c, if c == b then 1 else 0, |s.chains[c]|);
    }
    hide Shifted;
    ReadingShifted(e, s, s1);
    var s' := s1.(inserters := s.inserters - {id});
    forall i | i in s'.inserters ensures Passed(e, s', s'.inserters[i]) {
      PassedParts(e, s, s.inserters[i]);
      assert s.inserters[i].obj != obj;
      PassedForward(e, s, s', s.inserters[i]);
    }
  }

  /** The other inserters that hold a bucket are after other keys. */
  lemma AddHolding(e: Env, s: State, id: nat)
    requires Shape(s) && Holding(e, s) && id in s.inserters && s.inserters[id].Ready? && s.inserters[id].bkt in s.chains && s.inserters[id].bkt in s.heads
    requires Shape(WithObject(s, id))
    ensures Holding(e, WithObject(s, id))
  {
    hide Shape, Slot, Undrained, RehashLocked;
    var s' := WithObject(s, id);
    var r := s.inserters[id];
    assert HoldOk(e, s, id);
    forall x | x in s'.inserters && s'.inserters[x].Ready? ensures HoldOk(e, s', x) {
      assert HoldOk(e, s, x);
      SameUndrained(s, s', s.inserters[x].bkt);
      SlotSame(e, s, s', s.inserters[x].table, e.keyOf(s.inserters[x].obj));
      assert e.keyOf(s.inserters[x].obj) != e.keyOf(r.obj);
    }
  }

  lemma SameUndrained(s: State, s': State, b: Bkt)
    requires s'.cur == s.cur && s'.done == s.done && s'.rehash == s.rehash
    ensures (Undrained(s', b) <==> Undrained(s, b)) && (RehashLocked(s', b) <==> RehashLocked(s, b))
  {}

  lemma SlotSame(e: Env, s: State, s': State, t: nat, k: nat)
    requires Shape(s) && Shape(s') && s'.tables == s.tables && t < |s.tables|
    ensures Slot(e, s', t, k) == Slot(e, s, t, k)
  {}

  function WithObject(s: State, id: nat): State
    requires id in s.inserters && s.inserters[id].Ready? && s.inserters[id].bkt in s.chains && s.inserters[id].bkt in s.heads
  {
    AddObject(s, s.inserters[id].bkt, s.inserters[id].obj).(inserters := s.inserters - {id})
  }

  lemma AddInv(e: Env, s: State, id: nat)
    requires Inv(e, s) && id in s.inserters && s.inserters[id].Ready? && s.inserters[id].bkt in s.chains && s.inserters[id].bkt in s.heads
    ensures Inv(e, WithObject(s, id))
  {
    hide Slot, Placed, Hashed, Pointers, Drained, Rehashing, Inserting, Reading, Undrained, RehashLocked;
    var r := s.inserters[id];
    var b, obj := r.bkt, r.obj;
    var s1 := AddObject(s, b, obj);
    var s' := WithObject(s, id);
    assert HoldOk(e, s, id);
    NotInside(e, s, id);
    SlotTable(e, s, r.table, e.keyOf(obj));
    AddPlaced(e, s, b, obj);
    AddShape(e, s, b, obj);
    AddPointers(e, s, b, obj);
    AddThreads(e, s, b, obj, id);
    OtherThreads(e, s1, s');
    AddHolding(e, s, id);
  }

  lemma NotInside(e: Env, s: State, id: nat)
    requires Inserting(e, s) && id in s.inserters
    ensures s.inserters[id].obj !in s.loc
  {
    assert Passed(e, s, s.inserters[id]);
  }

  /** The tables do not depend on who is inserting. */
  lemma OtherThreads(e: Env, s: State, s': State)
    requires Shape(s) && Placed(s) && Hashed(e, s) && Pointers(s) && Drained(s) && Rehashing(e, s) && Reading(e, s)
    requires s' == s.(inserters := s'.inserters)
    ensures Shape(s') && Placed(s') && Hashed(e, s') && Pointers(s') && Drained(s') && Rehashing(e, s') && Reading(e, s')
  {
    hide Placed, Hashed, Drained, Reading, Pointers;
    forall b ensures IsBkt(s', b) <==> IsBkt(s, b) {}
    SameShape(e, s, s');
    SameReading(e, s, s');
    SamePointers(s, s');
  }

  lemma SamePointers(s: State, s': State)
    requires Pointers(s) && Drained(s) && s'.chains == s.chains && s'.heads == s.heads && s'.next == s.next && s'.rehash == s.rehash && s'.cur == s.cur && s'.done == s.done
    ensures Pointers(s') && Drained(s')
  {
    forall b | b in s'.chains ensures HeadOk(s', b) { assert HeadOk(s, b); }
    forall b: Bkt, i: nat | b in s'.chains && i < |s'.chains[b]| ensures NextOk(s', b, i) { assert NextOk(s, b, i); }
  }

  // ------------------------------------------------------------ what an insert sees

  lemma InTable(e: Env, s: State, o: nat)
    requires Inv(e, s) && o in s.loc
    ensures s.cur <= s.loc[o].table < |s.tables| && s.loc[o] in s.chains && o in s.chains[s.loc[o]]
    ensures s.loc[o] == Slot(e, s, s.loc[o].table, e.keyOf(o))
  {
    hide Pointers, UniqueKeys, Rehashing, Inserting, Reading;
    assert IsBkt(s, s.loc[o]);
    assert s.chains[s.loc[o]] != [];
  }

  /** After a pass over its bucket that finds nothing, the key is in no table up to this one. */
  lemma PassedMore(e: Env, s: State, i: Inserter)
    requires Inv(e, s) && Passed(e, s, i) && !HasKey(e, s.chains[Slot(e, s, i.table, e.keyOf(i.obj))], e.keyOf(i.obj))
    ensures forall o | o in s.loc && e.keyOf(o) == e.keyOf(i.obj) :: s.loc[o].table > i.table
  {
    hide Inv, Slot, HasKey;
    forall o | o in s.loc && e.keyOf(o) == e.keyOf(i.obj) ensures s.loc[o].table > i.table {
      InTable(e, s, o);
      HasKeyFrom(e, s.chains[s.loc[o]], o);
    }
  }

  lemma HasKeyFrom(e: Env, list: seq<nat>, o: nat)
    requires o in list
    ensures HasKey(e, list, e.keyOf(o))
  {}

  /** The pass adds an object only if its key is nowhere in the table, and reports -EEXIST only if it is somewhere. */
  lemma VisitMeans(e: Env, s: State, id: nat)
    requires Inv(e, s) && id in s.inserters
    ensures
      var i := s.inserters[id];
      var k := e.keyOf(i.obj);
      && i.table < |s.tables| && Slot(e, s, i.table, k) in s.chains
      && var v := Visit(e, s, Slot(e, s, i.table, k), k);
      && (v == Insert ==> forall o | o in s.loc :: e.keyOf(o) != k)
      && (v == Exists ==> exists o :: o in s.loc && e.keyOf(o) == k)
  {
    hide Pointers, UniqueKeys, Drained, Rehashing, Reading, Hashed;
    var i := s.inserters[id];
    var k := e.keyOf(i.obj);
    assert Passed(e, s, i);
    var b := Slot(e, s, i.table, k);
    assert IsBkt(s, b);
    if !HasKey(e, s.chains[b], k) {
      PassedMore(e, s, i);
      if i.table + 1 == |s.tables| {
        forall o | o in s.loc ensures e.keyOf(o) != k { InTable(e, s, o); }
      }
    }
  }

  lemma InsertPassInv(e: Env, s: State, id: nat)
    requires Inv(e, s) && InsertPass(e, s, id).Ok?
    ensures Inv(e, InsertPass(e, s, id).state)
  {
    hide Placed, Hashed, Pointers, UniqueKeys, Drained, Reading, Rehashing, Holding, Visit, Slot, BucketLocked;
    VisitMeans(e, s, id);
    var i := s.inserters[id];
    var k := e.keyOf(i.obj);
    var b := Slot(e, s, i.table, k);
    var v := Visit(e, s, b, k);
    assert Passed(e, s, i);
    SlotTable(e, s, i.table, k);
    var s' := InsertPass(e, s, id).state;
    OtherThreads(e, s, s');
    SameKeys(e, s, s');
    if v == Insert { VisitInsert(e, s, b, k); SamePassed2(e, s, i, Ready(i.obj, i.table, b)); }
    if v == Onward { VisitOnward(e, s, b, k); PassedMore(e, s, i); }
    if v == Retry { RetryPassed(e, s, i); }
    InsertersUpdated(e, s, s', id);
    VisitHolding(e, s, id);
  }

  lemma SamePassed2(e: Env, s: State, i: Inserter, r: Inserter)
    requires Passed(e, s, i) && r.obj == i.obj && r.table == i.table
    ensures Passed(e, s, r)
  {}

  /** Whoever holds a bucket keeps the others with its key from passing it, and a new holder is alone. */
  lemma VisitHolding(e: Env, s: State, id: nat)
    requires Shape(s) && Inv(e, s) && InsertPass(e, s, id).Ok? && Shape(InsertPass(e, s, id).state)
    ensures Holding(e, InsertPass(e, s, id).state)
  {
    hide Inv, InsertPass, HoldOk, Shape;
    var s' := InsertPass(e, s, id).state;
    PassKinds(e, s, id);
    forall x | x in s'.inserters && s'.inserters[x].Ready? ensures HoldOk(e, s', x) {
      if x == id { NewHolder(e, s, id); } else { OldHolder(e, s, s', id, x); }
    }
  }

  /** What a pass does to its inserter. */
  lemma PassKinds(e: Env, s: State, id: nat)
    requires Inv(e, s) && InsertPass(e, s, id).Ok?
    ensures var s' := InsertPass(e, s, id).state;
      && s' == s.(inserters := s'.inserters) && id in s.inserters && !s.inserters[id].Ready? && Moves(s, s', id)
      && s.inserters[id].table < |s.tables|
      && !BucketLocked(s, Slot(e, s, s.inserters[id].table, e.keyOf(s.inserters[id].obj)))
  {
    hide Placed, Hashed, Pointers, UniqueKeys, Drained, Reading, Rehashing, Holding, Slot, BucketLocked, Visit;
    VisitMeans(e, s, id);
    var i := s.inserters[id];
    var b := Slot(e, s, i.table, e.keyOf(i.obj));
    SlotTable(e, s, i.table, e.keyOf(i.obj));
    VisitLast(e, s, b, e.keyOf(i.obj));
  }

  ghost predicate Moves(s: State, s': State, id: nat)
    requires id in s.inserters
  {
    var i := s.inserters[id];
    || s'.inserters == s.inserters - {id}
    || (id in s'.inserters && s'.inserters == s.inserters[id := s'.inserters[id]] && s'.inserters[id].obj == i.obj
        && if s'.inserters[id].Ready? then s'.inserters[id].table == i.table && i.table + 1 >= |s.tables|
           else s'.inserters[id].table == i.table + 1 || s'.inserters[id].table == s.cur)
  }

  lemma NewHolder(e: Env, s: State, id: nat)
    requires Inv(e, s) && InsertPass(e, s, id).Ok? && Shape(InsertPass(e, s, id).state)
    requires id in InsertPass(e, s, id).state.inserters && InsertPass(e, s, id).state.inserters[id].Ready?
    ensures HoldOk(e, InsertPass(e, s, id).state, id)
  {
    hide Placed, Hashed, Pointers, UniqueKeys, Drained, Reading, Rehashing, Holding, Slot, InsertLocked, RehashLocked, Undrained, Visit, Inserting;
    VisitMeans(e, s, id);
    var i := s.inserters[id];
    var k := e.keyOf(i.obj);
    var b := Slot(e, s, i.table, k);
    SlotTable(e, s, i.table, k);
    VisitInsert(e, s, b, k);
    var s' := InsertPass(e, s, id).state;
    SlotSame(e, s, s', i.table, k);
    SameUndrained(s, s', b);
    LastUndrained(e, s, b);
    forall j | j in s'.inserters && e.keyOf(s'.inserters[j].obj) == k ensures s'.inserters[j].table <= i.table && (s'.inserters[j].Ready? ==> j == id) {
      if j != id { Alone(e, s, id, j); }
    }
  }

  lemma LastUndrained(e: Env, s: State, b: Bkt)
    requires Shape(s) && Rehashing(e, s) && b.table + 1 == |s.tables|
    ensures Undrained(s, b)
  {}

  lemma Alone(e: Env, s: State, id: nat, j: nat)
    requires Shape(s) && Inserting(e, s) && Holding(e, s) && id in s.inserters && j in s.inserters && j != id
    requires s.inserters[id].table + 1 == |s.tables| && e.keyOf(s.inserters[j].obj) == e.keyOf(s.inserters[id].obj)
    requires !InsertLocked(s, Slot(e, s, s.inserters[id].table, e.keyOf(s.inserters[id].obj)))
    ensures s.inserters[j].table <= s.inserters[id].table && !s.inserters[j].Ready?
  {
    hide Slot, InsertLocked, Holding, Shape;
    assert Passed(e, s, s.inserters[j]);
    if s.inserters[j].Ready? { SameSlotLocked(e, s, j, id); }
  }

  /** An inserter that holds a bucket keeps the others with its key out of its table's bucket. */
  lemma SameSlotLocked(e: Env, s: State, j: nat, id: nat)
    requires Shape(s) && Holding(e, s) && j in s.inserters && s.inserters[j].Ready? && id in s.inserters
    requires e.keyOf(s.inserters[j].obj) == e.keyOf(s.inserters[id].obj) && s.inserters[id].table < |s.tables|
    ensures s.inserters[id].table <= s.inserters[j].table
    ensures s.inserters[id].table == s.inserters[j].table ==> InsertLocked(s, Slot(e, s, s.inserters[id].table, e.keyOf(s.inserters[id].obj)))
  {
    hide Slot, Undrained, RehashLocked, Shape;
    assert HoldOk(e, s, j);
  }

  lemma OldHolder(e: Env, s: State, s': State, id: nat, x: nat)
    requires Inv(e, s) && Shape(s') && s' == s.(inserters := s'.inserters) && id in s.inserters && Moves(s, s', id)
    requires s.inserters[id].table < |s.tables| && !BucketLocked(s, Slot(e, s, s.inserters[id].table, e.keyOf(s.inserters[id].obj)))
    requires x != id && x in s.inserters && s.inserters[x].Ready? && x in s'.inserters
    ensures HoldOk(e, s', x)
  {
    hide Placed, Hashed, Pointers, UniqueKeys, Drained, Reading, Rehashing, Slot, RehashLocked, Undrained, InsertLocked, Inserting;
    var i, r := s.inserters[id], s.inserters[x];
    assert HoldOk(e, s, x);
    SlotSame(e, s, s', r.table, e.keyOf(r.obj));
    SameUndrained(s, s', r.bkt);
    CurBelow(s, r.bkt);
    SlotTable(e, s, r.table, e.keyOf(r.obj));
    if e.keyOf(r.obj) == e.keyOf(i.obj) { SameSlotLocked(e, s, x, id); }
  }

  lemma CurBelow(s: State, b: Bkt)
    requires Undrained(s, b)
    ensures s.cur <= b.table
  {}

  lemma VisitLast(e: Env, s: State, b: Bkt, k: nat)
    requires b in s.chains && b.table < |s.tables|
    ensures Visit(e, s, b, k) == Insert ==> b.table + 1 >= |s.tables|
  {}

  lemma SlotTable(e: Env, s: State, t: nat, k: nat)
    requires t < |s.tables| && s.tables[t].size > 0
    ensures Slot(e, s, t, k).table == t
  {}

  lemma SameKeys(e: Env, s: State, s': State)
    requires UniqueKeys(e, s) && s'.loc == s.loc
    ensures UniqueKeys(e, s')
  {}

  lemma VisitInsert(e: Env, s: State, b: Bkt, k: nat)
    requires Shape(s) && b in s.chains && b.table < |s.tables| && Visit(e, s, b, k) == Insert
    ensures b.table + 1 == |s.tables|
  {
    assert IsBkt(s, b);
  }

  lemma VisitOnward(e: Env, s: State, b: Bkt, k: nat)
    requires b in s.chains && b.table < |s.tables| && Visit(e, s, b, k) == Onward
    ensures b.table + 1 < |s.tables| && !HasKey(e, s.chains[b], k)
  {}

  lemma RetryPassed(e: Env, s: State, i: Inserter)
    requires Inv(e, s) && Passed(e, s, i)
    ensures Passed(e, s, Inserter(i.obj, s.cur))
  {
    hide Placed, Hashed, Pointers, UniqueKeys, Drained, Rehashing, Inserting, Reading;
    forall o | o in s.loc && e.keyOf(o) == e.keyOf(i.obj) ensures s.loc[o].table >= s.cur { InTable(e, s, o); }
  }

  lemma InsertersUpdated(e: Env, s: State, s': State, id: nat)
    requires Inserting(e, s) && id in s.inserters && s' == s.(inserters := s'.inserters)
    requires s'.inserters == s.inserters - {id}
      || (id in s'.inserters && s'.inserters == s.inserters[id := s'.inserters[id]] && s'.inserters[id].obj == s.inserters[id].obj
          && Passed(e, s, s'.inserters[id]))
    ensures Inserting(e, s')
  {
    forall i | i in s'.inserters ensures Passed(e, s', s'.inserters[i]) {
      assert i != id ==> Passed(e, s, s.inserters[i]);
      SamePassed(e, s, s', s'.inserters[i]);
    }
  }

  lemma SamePassed(e: Env, s: State, s': State, i: Inserter)
    requires Passed(e, s, i) && s'.loc == s.loc && s'.tables == s.tables
    ensures Passed(e, s', i)
  {}

  lemma BeginHolding(e: Env, s: State, id: nat, obj: nat)
    requires Inv(e, s) && Apply(e, s, InsertBegin(id, obj)).Ok? && Shape(Apply(e, s, InsertBegin(id, obj)).state)
    ensures Holding(e, Apply(e, s, InsertBegin(id, obj)).state)
  {
    hide Placed, Hashed, Pointers, UniqueKeys, Drained, Reading, Rehashing, Slot, RehashLocked, Undrained, Inserting;
    var s' := Apply(e, s, InsertBegin(id, obj)).state;
    forall x | x in s'.inserters && s'.inserters[x].Ready? ensures HoldOk(e, s', x) {
      assert HoldOk(e, s, x);
      var r := s.inserters[x];
      SlotSame(e, s, s', r.table, e.keyOf(r.obj));
      SameUndrained(s, s', r.bkt);
      CurBelow(s, r.bkt);
      SlotTable(e, s, r.table, e.keyOf(r.obj));
    }
  }

  lemma InsertBeginInv(e: Env, s: State, id: nat, obj: nat)
    requires Inv(e, s) && Apply(e, s, InsertBegin(id, obj)).Ok?
    ensures Inv(e, Apply(e, s, InsertBegin(id, obj)).state)
  {
    hide Placed, Hashed, Pointers, UniqueKeys, Drained, Reading, Rehashing, Holding;
    var s' := Apply(e, s, InsertBegin(id, obj)).state;
    OtherThreads(e, s, s');
    SameKeys(e, s, s');
    BeginHolding(e, s, id, obj);
    forall i | i in s'.inserters ensures Passed(e, s', s'.inserters[i]) {
      if i == id {
        forall o | o in s.loc ensures s.loc[o].table >= s.cur { InTable(e, s, o); }
      } else {
        assert Passed(e, s, s.inserters[i]);
      }
    }
  }

  // ------------------------------------------------------------- what a lookup sees

  /** The pointer at a chain position leads to the next position or into a later table. */
  lemma PtrAtKind(e: Env, s: State, b: Bkt, i: nat)
    requires Shape(s) && Placed(s) && Rehashing(e, s) && b in s.chains && i <= |s.chains[b]|
    ensures StandsAt(s, b, PtrAt(s, b, i), i) || Strayed(s, b, PtrAt(s, b, i))
  {
    if s.rehash.Linked? { assert IsBkt(s, s.rehash.to); }
  }

  lemma StrayFurther(s: State, b: Bkt, c: Bkt, p: Ptr, i: nat)
    requires Placed(s) && b.table < c.table && (StandsAt(s, c, p, i) || Strayed(s, c, p))
    ensures Strayed(s, b, p)
  {}

  /** A lookup put at the head of b will see every match in b. */
  lemma HeadTrack(e: Env, s: State, t: nat, r: Reader)
    requires Inv(e, s) && t < |s.tables| && (forall o | o in r.held :: o in s.loc && e.keyOf(o) == r.key && s.loc[o].table >= t)
    ensures Slot(e, s, t, r.key) in s.heads && OnTrack(e, s, r.(table := t, ptr := s.heads[Slot(e, s, t, r.key)]))
  {
    hide Hashed, UniqueKeys, Drained, Inserting, Reading;
    var b := Slot(e, s, t, r.key);
    assert IsBkt(s, b);
    PointersAtHead(s, b);
    PtrAtKind(e, s, b, 0);
    var p := s.heads[b];
    assert Strayed(s, b, p) || StandsAt(s, b, p, 0);
    forall o | o in r.held ensures Ahead(s, b, p, o) {
      if s.loc[o].table == t {
        InTable(e, s, o);
        var j :| 0 <= j < |s.chains[b]| && s.chains[b][j] == o;
        assert StandsAt(s, b, p, 0) && StandsAt(s, b, To(o), j);
      }
    }
  }

  /** A read of the next pointer keeps every match ahead. */
  lemma NextTrack(e: Env, s: State, r: Reader, o: nat)
    requires Inv(e, s) && OnTrack(e, s, r) && r.ptr == To(o) && e.keyOf(o) != r.key
    ensures o in s.loc && o in s.next && OnTrack(e, s, r.(ptr := s.next[o]))
  {
    hide Hashed, UniqueKeys, Drained, Inserting, Reading, Ahead, Pointers, Rehashing;
    var b := Slot(e, s, r.table, r.key);
    assert o in s.loc by { if !Strayed(s, b, r.ptr) { var i :| StandsAt(s, b, r.ptr, i); } }
    var c := s.loc[o];
    InTable(e, s, o);
    var j :| 0 <= j < |s.chains[c]| && s.chains[c][j] == o;
    PointersAt(s, c, j);
    PtrAtKind(e, s, c, j + 1);
    var p := s.next[o];
    if Strayed(s, b, r.ptr) {
      StrayFurther(s, b, c, p, j + 1);
      forall x | x in r.held ensures Ahead(s, b, p, x) { StrayedAhead(s, b, r.ptr, p, x); }
    } else {
      var i :| StandsAt(s, b, r.ptr, i);
      OnlyAt(s, b, i, c, j);
      forall x | x in r.held ensures Ahead(s, b, p, x) { StepAhead(e, s, b, i, o, x); }
    }
  }

  lemma StrayedAhead(s: State, b: Bkt, p: Ptr, p': Ptr, x: nat)
    requires Ahead(s, b, p, x) && Strayed(s, b, p')
    ensures Ahead(s, b, p', x)
  {}

  lemma StepAhead(e: Env, s: State, b: Bkt, i: nat, o: nat, x: nat)
    requires Placed(s) && b in s.chains && i < |s.chains[b]| && s.chains[b][i] == o && x != o && Ahead(s, b, To(o), x)
    ensures Ahead(s, b, PtrAt(s, b, i + 1), x)
  {
    if s.loc[x].table == b.table {
      assert !Strayed(s, b, To(o));
      var k, j :| StandsAt(s, b, To(o), k) && k <= j && StandsAt(s, b, To(x), j);
      OnlyAt(s, b, i, b, k);
      assert StandsAt(s, b, PtrAt(s, b, i + 1), i + 1);
    }
  }

  /** At its own bucket's end marker, every match is in a later table. */
  lemma EndTrack(e: Env, s: State, r: Reader)
    requires Shape(s) && OnTrack(e, s, r) && r.ptr == Nil(Slot(e, s, r.table, r.key))
    ensures forall o | o in r.held :: o in s.loc && e.keyOf(o) == r.key && s.loc[o].table > r.table
  {
    var b := Slot(e, s, r.table, r.key);
    forall o | o in r.held ensures o in s.loc && s.loc[o].table > r.table {
      assert Ahead(s, b, r.ptr, o);
      assert forall i, j | StandsAt(s, b, r.ptr, i) && StandsAt(s, b, To(o), j) :: j < i;
    }
  }

  lemma ReadersUpdated(e: Env, s: State, s': State, id: nat)
    requires Inv(e, s) && s' == s.(readers := s'.readers)
    requires s'.readers == s.readers - {id} || (id in s'.readers && s'.readers == s.readers[id := s'.readers[id]] && OnTrack(e, s, s'.readers[id]))
    ensures Inv(e, s')
  {
    hide Placed, Hashed, Pointers, UniqueKeys, Drained, OnTrack, Inserting, Holding, Rehashing;
    SameShape(e, s, s');
    SamePointers(s, s');
    ReadersHold(e, s, s');
    forall i | i in s'.readers ensures OnTrack(e, s', s'.readers[i]) {
      assert i != id ==> OnTrack(e, s, s.readers[i]);
      SameTrack(e, s, s', s'.readers[i]);
    }
    SameInserting(e, s, s');
  }

  lemma ReadersHold(e: Env, s: State, s': State)
    requires Inv(e, s) && Shape(s') && s' == s.(readers := s'.readers)
    ensures Holding(e, s') && Rehashing(e, s')
  {
    hide Placed, Hashed, Pointers, UniqueKeys, Drained, Reading, Inserting, Holding, LocksKept;
    SameLocks(s, s');
    assert s.tables[..|s.tables|] == s.tables;
    HoldSame(e, s, s');
  }

  lemma ReadPassInv(e: Env, s: State, id: nat)
    requires Inv(e, s) && id in s.readers
    ensures ReadPass(e, s, id).Ok? && Inv(e, ReadPass(e, s, id).state)
  {
    hide Placed, Hashed, Pointers, UniqueKeys, Drained, Inserting, Rehashing, Slot, Ahead, StandsAt, Strayed;
    var r := s.readers[id];
    assert OnTrack(e, s, r);
    var b := Slot(e, s, r.table, r.key);
    match r.ptr {
      case To(o) => if e.keyOf(o) != r.key { NextTrack(e, s, r, o); }
      case Nil(c) =>
        if c != b {
          HeldAfter(e, s, r);
          HeadTrack(e, s, r.table, r);
        } else {
          EndTrack(e, s, r);
          if r.table + 1 < |s.tables| { HeadTrack(e, s, r.table + 1, r); }
        }
    }
    ReadersUpdated(e, s, ReadPass(e, s, id).state, id);
  }

  lemma HeldAfter(e: Env, s: State, r: Reader)
    requires Shape(s) && OnTrack(e, s, r)
    ensures forall o | o in r.held :: o in s.loc && e.keyOf(o) == r.key && s.loc[o].table >= r.table
  {}

  lemma ReadBeginInv(e: Env, s: State, id: nat, k: nat)
    requires Inv(e, s) && Apply(e, s, ReadBegin(id, k)).Ok?
    ensures Inv(e, Apply(e, s, ReadBegin(id, k)).state)
  {
    hide Placed, Hashed, Pointers, UniqueKeys, Drained, Inserting, Rehashing, Reading, OnTrack, Slot;
    var r := Reader(k, s.cur, Nil(Bkt(0, 0)), Matches(e, s, k));
    forall o | o in r.held ensures o in s.loc && e.keyOf(o) == k && s.loc[o].table >= s.cur { InTable(e, s, o); }
    HeadTrack(e, s, s.cur, r);
    ReadersUpdated(e, s, Apply(e, s, ReadBegin(id, k)).state, id);
  }

  // ------------------------------------------------------------------- every run

  lemma StepInv(e: Env, s: State, step: Step)
    requires Inv(e, s) && Apply(e, s, step).Ok?
    ensures Inv(e, Apply(e, s, step).state)
  {
    hide Inv, InsertPass, ReadPass, LinkMoved, PublishMoved, UnlinkMoved, AttachTable;
    match step
    case Attach(size, rnd) => AttachInv(e, s, size, rnd);
    case StartBucket => StartInv(e, s);
    case MoveLink(t) => LinkInv(e, s, t);
    case MovePublish => PublishInv(e, s);
    case MoveUnlink => UnlinkInv(e, s);
    case EndBucket => EndInv(e, s);
    case SwitchTable => SwitchInv(e, s);
    case InsertBegin(id, obj) => InsertBeginInv(e, s, id, obj);
    case InsertVisit(id) => InsertPassInv(e, s, id);
    case InsertAdd(id) => AddInv(e, s, id);
    case ReadBegin(id, k) => ReadBeginInv(e, s, id, k);
    case ReadStep(id) => ReadStepInv(e, s, id);
  }

  lemma ReadStepInv(e: Env, s: State, id: nat)
    requires Inv(e, s) && ReadPass(e, s, id).Ok?
    ensures Inv(e, ReadPass(e, s, id).state)
  {
    hide Inv;
    if id in s.readers { ReadPassInv(e, s, id); }
  }

  /** An empty table of the given size. */
  function Start(size: nat, rnd: nat): State {
    State([Table(size, rnd)], 0, 0, Free, Fresh(0, size, b => Nil(b)), map[], Fresh(0, size, b => []), map[], 0, map[], map[])
  }

  lemma StartsOk(e: Env, size: nat, rnd: nat)
    requires size > 0
    ensures Inv(e, Start(size, rnd))
  {}

  /** What a sequence of steps does; it stops at the first that is blocked. */
  ghost function Run(e: Env, s: State, steps: seq<Step>): Outcome
    decreases |steps|
  {
    if |steps| == 0 then Ok(s, Going)
    else
      var o := Run(e, s, steps[..|steps| - 1]);
      if o.Ok? && Shape(o.state) then Apply(e, o.state, steps[|steps| - 1]) else Blocked
  }

  /** In every run from an empty table no key is in the table twice, and nelems counts the objects. */
  lemma {:induction false} NoDuplicates(e: Env, size: nat, rnd: nat, steps: seq<Step>)
    requires size > 0 && Run(e, Start(size, rnd), steps).Ok?
    ensures Inv(e, Run(e, Start(size, rnd), steps).state)
    ensures var s := Run(e, Start(size, rnd), steps).state; UniqueKeys(e, s) && s.nelems == |s.loc|
    decreases |steps|
  {
    hide Apply, Shape, Hashed, Pointers, UniqueKeys, Drained, Rehashing, Inserting, Reading;
    StartsOk(e, size, rnd);
    if |steps| != 0 {
      var n := |steps| - 1;
      NoDuplicates(e, size, rnd, steps[..n]);
      StepInv(e, Run(e, Start(size, rnd), steps[..n]).state, steps[n]);
    }
  }

  /** No object is lost: a step keeps every object in the table, where it was or in a later table. */
  lemma NoneLost(e: Env, s: State, step: Step)
    requires Inv(e, s) && Apply(e, s, step).Ok?
    ensures Forward(s, Apply(e, s, step).state)
  {
    hide Placed, Hashed, Pointers, UniqueKeys, Drained, Inserting, Reading, Fresh, Visit, Slot;
    if step == MovePublish { MovingParts(e, s); }
    if step.InsertAdd? { NotInside(e, s, step.id); }
  }

  /** The lookup is about to return no object. */
  predicate Misses(e: Env, s: State, r: Reader)
    requires Shape(s)
  {
    r.table + 1 == |s.tables| && r.ptr == Nil(Slot(e, s, r.table, r.key))
  }

  /** A lookup that returns no object began when no object with its key was in the table. */
  lemma LookupComplete(e: Env, s: State, id: nat)
    requires Inv(e, s) && id in s.readers && Misses(e, s, s.readers[id])
    ensures s.readers[id].held == {}
  {
    hide Hashed, Pointers, UniqueKeys, Drained, Rehashing, Inserting, Ahead, Slot;
    var r := s.readers[id];
    assert OnTrack(e, s, r);
    EndTrack(e, s, r);
    forall o | o in r.held ensures false { InTable(e, s, o); }
  }

  /** A lookup that returns an object returns one in the table. */
  lemma LookupSound(e: Env, s: State, id: nat)
    requires Inv(e, s) && id in s.readers && s.readers[id].ptr.To?
    ensures s.readers[id].ptr.obj in s.loc
  {
    hide Hashed, Pointers, UniqueKeys, Drained, Rehashing, Inserting, Ahead, Slot;
    var r := s.readers[id];
    assert OnTrack(e, s, r);
    var b := Slot(e, s, r.table, r.key);
    if !Strayed(s, b, r.ptr) { var i :| StandsAt(s, b, r.ptr, i); }
  }

  // ---------------------------------------------------------- the locked chain walk

  /** rhashtable_lookup_one over the pointers of a bucket whose lock it holds: it sees exactly the bucket's chain. */
  method LookupOne(e: Env, s: State, b: Bkt, k: nat) returns (found: bool, elasticity: int)
    requires Inv(e, s) && b in s.chains && !BucketLocked(s, b)
    ensures found <==> HasKey(e, s.chains[b], k)
    ensures !found ==> elasticity == RHT_ELASTICITY - |s.chains[b]|
  {
    hide Hashed, UniqueKeys, Drained, Rehashing, Inserting, Reading, Pointers, Placed;
    elasticity := RHT_ELASTICITY;
    ghost var i: nat := 0;
    PointersAtHead(s, b);
    var p := s.heads[b];
    while p.To?
      invariant i <= |s.chains[b]| && p == PtrAt(s, b, i) && elasticity == RHT_ELASTICITY - i
      invariant forall j | 0 <= j < i :: e.keyOf(s.chains[b][j]) != k
      decreases |s.chains[b]| - i
    {
      PointersAt(s, b, i);
      elasticity := elasticity - 1;
      if e.keyOf(p.obj) == k { return true, elasticity; }
      p := s.next[p.obj];
      i := i + 1;
    }
    return false, elasticity;
  }
}
