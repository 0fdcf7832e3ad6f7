/** The shape of the id allocator's tree (c_src/ida.c): a 64-ary bitmap tree in a flat array, read as a set of free ids. */
module IdaTree {
  import opened Arith

  /** A machine word as the set of its set bits. */
  type Word = set<nat>

  function UpTo(n: nat): (w: set<nat>)
    ensures forall k: nat :: k in w <==> k < n
  {
    if n == 0 then {} else UpTo(n - 1) + {n - 1}
  }

  /** ~0UL. */
  function Full(): (w: Word)
    ensures w != {} && forall k: nat :: k in w <==> k < 64
  {
    var w := UpTo(64);
    assert 0 in w;
    w
  }

  /** Number of nodes on the first n levels, which is also the index of the first node of level n. */
  function Nodes(n: nat): nat { if n == 0 then 0 else 64 * Nodes(n - 1) + 1 }

  lemma {:induction false} NodesSum(n: nat)
    ensures Nodes(n + 1) == Nodes(n) + Pow64(n)
  {
    if n != 0 { NodesSum(n - 1); }
  }

  lemma {:induction false} NodesMonotone(m: nat, n: nat)
    requires m <= n
    ensures Nodes(m) <= Nodes(n)
    decreases n - m
  {
    if m < n {
      NodesMonotone(m, n - 1);
      NodesSum(n - 1);
    }
  }

  /** Bit k of node i and the word it stands for say the same. */
  predicate Agree(ns: seq<Word>, i: nat, k: nat) {
    64 * i + 1 + k < |ns| && (k in ns[i] <==> ns[64 * i + 1 + k] != {})
  }

  predicate Small(w: Word) { forall k | k in w :: k < 64 }

  /** An interior bit is set just when the child word is not zero. */
  ghost predicate Wf(ns: seq<Word>, D: nat) {
    && |ns| == Nodes(D)
    && (forall i | 0 <= i < |ns| :: Small(ns[i]))
    && (D > 0 ==> forall i, k: nat | 0 <= i < Nodes(D - 1) && k < 64 :: Agree(ns, i, k))
  }

  lemma {:induction false} NodeIndex(L: nat, x: nat, D: nat)
    requires L < D && x < Pow64(L)
    ensures Nodes(L) + x < Nodes(D)
  {
    NodesSum(L);
    NodesMonotone(L + 1, D);
  }

  /** An id outside the tree is free; one inside is free when its leaf bit is set. */
  predicate IsFree(ns: seq<Word>, D: nat, id: nat) {
    if D == 0 || id >= Pow64(D) then true
    else Nodes(D - 1) + id / 64 < |ns| && id % 64 in ns[Nodes(D - 1) + id / 64]
  }

  lemma WfAt(ns: seq<Word>, D: nat, i: nat, k: nat)
    requires Wf(ns, D) && D > 0 && i < Nodes(D - 1) && k < 64
    ensures Agree(ns, i, k)
  {}

  /** A zero word has no free id below it. */
  lemma {:induction false} ZeroWord(ns: seq<Word>, D: nat, h: nat, id: nat)
    requires Wf(ns, D) && 1 <= h <= D && id < Pow64(D) && Nodes(D - h) + Up(id, h) < |ns| && ns[Nodes(D - h) + Up(id, h)] == {}
    ensures !IsFree(ns, D, id)
    decreases h
  {
    hide Wf;
    if h > 1 {
      UpBound(id, h, D);
      UpBound(id, h - 1, D);
      NodeIndex(D - h + 1, Up(id, h - 1), D);
      NodeIndex(D - h, Up(id, h), D - 1);
      var i, k := Nodes(D - h) + Up(id, h), Up(id, h - 1) % 64;
      WfAt(ns, D, i, k);
      assert 64 * i + 1 + k == Nodes(D - h + 1) + Up(id, h - 1);
      ZeroWord(ns, D, h - 1, id);
    } else {
      assert Up(id, 1) == id / 64 by { assert Up(id, 0) == id; }
    }
  }

  // ------------------------------------------------------------- one bit changes

  /** Every parent bit but the one for node j is right. */
  ghost predicate WfBut(ns: seq<Word>, D: nat, j: nat) {
    && |ns| == Nodes(D) && j < |ns|
    && (forall i | 0 <= i < |ns| :: Small(ns[i]))
    && (D > 0 ==> forall i, k: nat | 0 <= i < Nodes(D - 1) && k < 64 && 64 * i + 1 + k != j :: Agree(ns, i, k))
  }

  function Parent(j: nat): nat
    requires j > 0
  {
    (j - 1) / 64
  }

  function BitInParent(j: nat): nat
    requires j > 0
  {
    (j - 1) % 64
  }

  lemma ParentOf(j: nat, D: nat)
    requires 0 < j < Nodes(D)
    ensures D > 1 && Parent(j) < Nodes(D - 1) && Parent(j) < j && 64 * Parent(j) + 1 + BitInParent(j) == j && BitInParent(j) < 64
  {
    assert Nodes(0) == 0 && Nodes(1) == 1;
  }

  /** The last mismatch is gone. */
  lemma WfDone(ns: seq<Word>, D: nat, j: nat)
    requires WfBut(ns, D, j) && (j > 0 ==> Agree(ns, Parent(j), BitInParent(j)))
    ensures Wf(ns, D)
  {
    if D > 0 {
      forall i, k: nat | 0 <= i < Nodes(D - 1) && k < 64 ensures Agree(ns, i, k) {
        if 64 * i + 1 + k == j { assert i == Parent(j) && k == BitInParent(j); }
      }
    }
  }

  /** Setting node j's bit in its parent to what j says moves the mismatch to the parent. */
  lemma WfUp(ns: seq<Word>, D: nat, j: nat, w: Word)
    requires WfBut(ns, D, j) && 0 < j
    requires Small(w) && Parent(j) < |ns|
    requires forall k | k != BitInParent(j) :: k in w <==> k in ns[Parent(j)]
    requires BitInParent(j) in w <==> ns[j] != {}
    ensures WfBut(ns[Parent(j) := w], D, Parent(j))
  {
    ParentOf(j, D);
    var p := Parent(j);
    var ns' := ns[p := w];
    forall i, k: nat | 0 <= i < Nodes(D - 1) && k < 64 && 64 * i + 1 + k != p ensures Agree(ns', i, k) {
      if 64 * i + 1 + k == j {
        assert i == p && k == BitInParent(j);
      } else {
        assert Agree(ns, i, k);
      }
    }
  }

  lemma LeafChanged(ns: seq<Word>, D: nat, j: nat, w: Word)
    requires Wf(ns, D) && D > 0 && Nodes(D - 1) <= j < |ns| && Small(w)
    ensures WfBut(ns[j := w], D, j)
  {
    var ns' := ns[j := w];
    forall i, k: nat | 0 <= i < Nodes(D - 1) && k < 64 && 64 * i + 1 + k != j ensures Agree(ns', i, k) { assert Agree(ns, i, k); }
  }

  /** Words above the leaves do not say which ids are free. */
  lemma InteriorFree(ns: seq<Word>, ns': seq<Word>, D: nat, id: nat)
    requires |ns| == |ns'| && (D > 0 ==> forall i | Nodes(D - 1) <= i < |ns| :: ns'[i] == ns[i])
    ensures IsFree(ns', D, id) <==> IsFree(ns, D, id)
  {}

  /** Changing one leaf bit changes one id. */
  lemma LeafFree(ns: seq<Word>, D: nat, id: nat, w: Word, x: nat)
    requires |ns| == Nodes(D) && D > 0 && id < Pow64(D) && Nodes(D - 1) + id / 64 < |ns|
    requires forall k | k != id % 64 :: k in w <==> k in ns[Nodes(D - 1) + id / 64]
    ensures x != id ==> (IsFree(ns[Nodes(D - 1) + id / 64 := w], D, x) <==> IsFree(ns, D, x))
    ensures IsFree(ns[Nodes(D - 1) + id / 64 := w], D, id) <==> id % 64 in w
  {
    if x / 64 == id / 64 && x != id { assert x % 64 != id % 64; }
  }

  lemma LeafIndex(D: nat, id: nat)
    requires D > 0 && id < Pow64(D)
    ensures Nodes(D - 1) <= Nodes(D - 1) + id / 64 < Nodes(D)
  {
    NodesSum(D - 1);
  }

  // -------------------------------------------------------------------- growing

  /** The level of a node and its position there. */
  lemma {:induction false} LevelOf(i: nat, D: nat) returns (L: nat, x: nat)
    requires i < Nodes(D)
    ensures L < D && x < Pow64(L) && i == Nodes(L) + x
    decreases D
  {
    NodesSum(D - 1);
    if i >= Nodes(D - 1) {
      L, x := D - 1, i - Nodes(D - 1);
    } else {
      L, x := LevelOf(i, D - 1);
    }
  }

  /** ms is ns as the leftmost subtree of a tree one level deeper, whose other words are all ones. */
  ghost predicate Grown(ns: seq<Word>, D: nat, ms: seq<Word>) {
    && |ns| == Nodes(D) && |ms| == Nodes(D + 1)
    && (forall k: nat :: k in ms[0] <==> k < 64 && (k != 0 || D == 0 || ns[0] != {}))
    && (forall L: nat, x: nat | 0 < L <= D && x < Pow64(L) :: GrownAt(ns, ms, L, x))
  }

  ghost predicate GrownAt(ns: seq<Word>, ms: seq<Word>, L: nat, x: nat)
    requires L > 0
  {
    && Nodes(L) + x < |ms|
    && (x < Pow64(L - 1) ==> Nodes(L - 1) + x < |ns| && ms[Nodes(L) + x] == ns[Nodes(L - 1) + x])
    && (x >= Pow64(L - 1) ==> ms[Nodes(L) + x] == Full())
  }

  lemma ChildIndexOf(L: nat, x: nat, k: nat)
    requires x < Pow64(L) && k < 64
    ensures 64 * (Nodes(L) + x) + 1 + k == Nodes(L + 1) + (64 * x + k) && 64 * x + k < Pow64(L + 1)
    ensures L > 0 ==> (64 * x + k < Pow64(L) <==> x < Pow64(L - 1))
  {}

  lemma GrownAgree(ns: seq<Word>, D: nat, ms: seq<Word>, L: nat, x: nat, k: nat)
    requires Wf(ns, D) && Grown(ns, D, ms) && L < D && x < Pow64(L) && k < 64
    ensures Agree(ms, Nodes(L) + x, k)
  {
    hide Wf, Full, Nodes, Pow64;
    var c := 64 * x + k;
    NodeIndex(L, x, D);
    ChildIndexOf(L, x, k);
    NodeIndex(L + 1, c, D + 1);
    assert GrownAt(ns, ms, L + 1, c);
    if L == 0 {
      RootChild(ns, D, ms, x, k);
    } else {
      assert GrownAt(ns, ms, L, x);
      if x < Pow64(L - 1) {
        NodeIndex(L - 1, x, D - 1);
        WfAt(ns, D, Nodes(L - 1) + x, k);
        ChildIndexOf(L - 1, x, k);
      }
    }
  }

  lemma RootChild(ns: seq<Word>, D: nat, ms: seq<Word>, x: nat, k: nat)
    requires Wf(ns, D) && Grown(ns, D, ms) && 0 < D && x < Pow64(0) && k < 64 && GrownAt(ns, ms, 1, 64 * x + k)
    ensures Agree(ms, Nodes(0) + x, k)
  {
    assert Pow64(0) == 1 && Nodes(0) == 0 && Nodes(1) == 1;
  }

  lemma GrownWf(ns: seq<Word>, D: nat, ms: seq<Word>)
    requires Wf(ns, D) && Grown(ns, D, ms)
    ensures Wf(ms, D + 1)
  {
    forall i: nat, k: nat | i < Nodes(D) && k < 64 ensures Agree(ms, i, k) {
      var L, x := LevelOf(i, D);
      GrownAgree(ns, D, ms, L, x, k);
    }
    forall i: nat | i < |ms| ensures Small(ms[i]) {
      var L, x := LevelOf(i, D + 1);
      if L > 0 { assert GrownAt(ns, ms, L, x); }
    }
  }

  /** Growing changes no id. */
  lemma GrownFree(ns: seq<Word>, D: nat, ms: seq<Word>, id: nat)
    requires Wf(ns, D) && Grown(ns, D, ms)
    ensures IsFree(ms, D + 1, id) <==> IsFree(ns, D, id)
  {
    if id < Pow64(D + 1) {
      LeafIndex(D + 1, id);
      var x := id / 64;
      if D == 0 {
        assert Nodes(0) == 0 && Pow64(0) == 1;
      } else {
        assert GrownAt(ns, ms, D, x);
        if id < Pow64(D) { LeafIndex(D, id); }
      }
    }
  }
}
