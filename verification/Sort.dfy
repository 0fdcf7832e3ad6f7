/** sort_r of linux/sort.c: bottom-up heapsort in place, driven by byte offsets. */
module Sort {
  import opened Arith
  import opened SortBits

  /** What sort_r needs of a comparison: a total preorder, told apart by sign. */
  ghost predicate Preorder<T(!new)>(cmp: (T, T) -> int) {
    && (forall x, y :: cmp(x, y) <= 0 <==> cmp(y, x) >= 0)
    && (forall x, y, z | cmp(x, y) >= 0 && cmp(y, z) >= 0 :: cmp(x, z) >= 0)
  }

  predicate Ge<T>(cmp: (T, T) -> int, x: T, y: T) { cmp(x, y) >= 0 }

  lemma GeTrans<T(!new)>(cmp: (T, T) -> int, x: T, y: T, z: T)
    requires Preorder(cmp) && Ge(cmp, x, y) && Ge(cmp, y, z)
    ensures Ge(cmp, x, z)
  {}

  lemma GeTotal<T(!new)>(cmp: (T, T) -> int, x: T, y: T)
    requires Preorder(cmp) && !Ge(cmp, x, y)
    ensures Ge(cmp, y, x)
  {}

  // ------------------------------------------------------------------ heaps

  predicate Child(i: nat, c: nat) { c == 2 * i + 1 || c == 2 * i + 2 }

  /** Elements from a on are not below their children. */
  ghost predicate HeapFrom<T>(cmp: (T, T) -> int, s: seq<T>, a: nat, n: nat)
    requires n <= |s|
  {
    forall i: nat, c: nat | a <= i && c < n && Child(i, c) :: Ge(cmp, s[i], s[c])
  }

  /** The root of a heap is not below any element. */
  lemma {:induction false} RootGreatest<T(!new)>(cmp: (T, T) -> int, s: seq<T>, n: nat, i: nat)
    requires Preorder(cmp) && n <= |s| && i < n && HeapFrom(cmp, s, 0, n)
    ensures Ge(cmp, s[0], s[i])
    decreases i
  {
    if i == 0 {
      GeReflexive(cmp, s[0]);
    } else {
      var p := (i - 1) / 2;
      assert Child(p, i);
      RootGreatest(cmp, s, n, p);
      GeTrans(cmp, s[0], s[p], s[i]);
    }
  }

  lemma GeReflexive<T(!new)>(cmp: (T, T) -> int, x: T)
    requires Preorder(cmp)
    ensures Ge(cmp, x, x)
  {
    assert cmp(x, x) <= 0 <==> cmp(x, x) >= 0;
  }

  // ------------------------------------------------------------------- paths

  /** c is i's child, and not below its sibling. */
  ghost predicate BestChild<T>(cmp: (T, T) -> int, s: seq<T>, n: nat, i: nat, c: nat)
    requires n <= |s|
  {
    Child(i, c) && c < n && forall d: nat | d < n && Child(i, d) :: Ge(cmp, s[c], s[d])
  }

  /** From path[0], each next entry is a best child. */
  ghost predicate PathDown<T>(cmp: (T, T) -> int, s: seq<T>, n: nat, path: seq<nat>)
    requires n <= |s|
  {
    && |path| > 0 && path[0] < n
    && forall j | 0 <= j < |path| - 1 :: BestChild(cmp, s, n, path[j], path[j + 1])
  }

  lemma {:induction false} PathIncreasing<T>(cmp: (T, T) -> int, s: seq<T>, n: nat, path: seq<nat>, i: nat, j: nat)
    requires n <= |s| && PathDown(cmp, s, n, path) && i < j < |path|
    ensures path[i] < path[j] < n
    decreases j
  {
    assert BestChild(cmp, s, n, path[j - 1], path[j]);
    if i < j - 1 { PathIncreasing(cmp, s, n, path, i, j - 1); }
  }

  /** B is s with entries m to k of the path rotated: each takes the next one's element, the last takes the first's. */
  ghost predicate RotatedTo<T>(s: seq<T>, B: seq<T>, path: seq<nat>, m: nat, k: nat) {
    && |B| == |s| && m <= k < |path|
    && (forall j | 0 <= j < |path| :: path[j] < |s|)
    && (forall j | m <= j < k :: B[path[j]] == s[path[j + 1]])
    && B[path[k]] == s[path[m]]
    && (forall i | 0 <= i < |s| && i !in path[m..k + 1] :: B[i] == s[i])
  }

  function Swap<T>(s: seq<T>, i: nat, j: nat): (r: seq<T>)
    requires i < |s| && j < |s|
    ensures |r| == |s|
  {
    s[i := s[j]][j := s[i]]
  }

  lemma SwapPerm<T>(s: seq<T>, i: nat, j: nat)
    requires i < |s| && j < |s|
    ensures multiset(Swap(s, i, j)) == multiset(s)
  {}

  ghost predicate Distinct(path: seq<nat>) { forall i, j | 0 <= i < j < |path| :: path[i] < path[j] }

  lemma RotateMore<T>(s: seq<T>, B: seq<T>, path: seq<nat>, m: nat, k: nat)
    requires RotatedTo(s, B, path, m, k) && m > 0 && Distinct(path)
    ensures RotatedTo(s, Swap(B, path[m - 1], path[k]), path, m - 1, k)
  {
    var C := Swap(B, path[m - 1], path[k]);
    assert path[m - 1] !in path[m..k + 1];
    forall j | m - 1 <= j < k ensures C[path[j]] == s[path[j + 1]] {
      assert j > m - 1 ==> path[j] != path[m - 1] && path[j] != path[k];
    }
    forall i | 0 <= i < |s| && i !in path[m - 1..k + 1] ensures C[i] == s[i] {
      assert path[m - 1..k + 1] == [path[m - 1]] + path[m..k + 1];
      assert path[m..k + 1][k - m] == path[k];
    }
  }

  lemma RotateNone<T>(s: seq<T>, path: seq<nat>, k: nat)
    requires k < |path| && forall j | 0 <= j < |path| :: path[j] < |s|
    ensures RotatedTo(s, s, path, k, k)
  {}

  /** What the backtracking finds: the place on the path where the element of path[0] belongs. */
  ghost predicate Belongs<T>(cmp: (T, T) -> int, s: seq<T>, n: nat, path: seq<nat>, k: nat)
    requires n <= |s|
  {
    && PathDown(cmp, s, n, path) && k < |path|
    && (forall j | 0 <= j < |path| :: path[j] < n)
    && (k > 0 ==> !Ge(cmp, s[path[0]], s[path[k]]))
    && (k + 1 < |path| ==> Ge(cmp, s[path[0]], s[path[k + 1]]))
    && (k + 1 == |path| ==> 2 * path[k] + 1 >= n)
  }

  lemma RotatedAt<T>(s: seq<T>, B: seq<T>, path: seq<nat>, k: nat, i: nat)
    requires RotatedTo(s, B, path, 0, k) && i < |s| && i !in path[..k + 1]
    ensures B[i] == s[i]
  {}

  lemma RotatedHeapAt<T(!new)>(cmp: (T, T) -> int, s: seq<T>, B: seq<T>, n: nat, path: seq<nat>, k: nat, i: nat, c: nat)
    requires Preorder(cmp) && n <= |s| && Belongs(cmp, s, n, path, k) && Distinct(path) && RotatedTo(s, B, path, 0, k)
    requires HeapFrom(cmp, s, path[0] + 1, n) && path[0] <= i && c < n && Child(i, c)
    ensures Ge(cmp, B[i], B[c])
  {
    hide Preorder, RotatedTo;
    if i !in path[..k + 1] {
      OffPath(cmp, s, n, path, k, i, c);
      RotatedAt(s, B, path, k, i);
      RotatedAt(s, B, path, k, c);
      assert i != path[0] by { assert path[..k + 1][0] == path[0]; }
    } else {
      var j :| 0 <= j < k + 1 && path[j] == i;
      if j == k { LastOnPath(cmp, s, B, n, path, k, c); } else { InnerOnPath(cmp, s, B, n, path, k, j, c); }
    }
  }

  lemma OffPath<T>(cmp: (T, T) -> int, s: seq<T>, n: nat, path: seq<nat>, k: nat, i: nat, c: nat)
    requires n <= |s| && PathDown(cmp, s, n, path) && k < |path| && i !in path[..k + 1] && Child(i, c) && i >= path[0]
    ensures c !in path[..k + 1]
  {
    forall j | 0 <= j < k + 1 ensures path[j] != c {
      if j > 0 {
        assert BestChild(cmp, s, n, path[j - 1], path[j]);
        assert path[..k + 1][j - 1] == path[j - 1];
      }
    }
  }

  lemma ChildValue<T>(cmp: (T, T) -> int, s: seq<T>, B: seq<T>, n: nat, path: seq<nat>, k: nat, j: nat, c: nat)
    requires n <= |s| && Belongs(cmp, s, n, path, k) && Distinct(path) && RotatedTo(s, B, path, 0, k) && j <= k && c < n && Child(path[j], c)
    requires j == k || c != path[j + 1]
    ensures B[c] == s[c]
  {
    forall m | 0 <= m < k + 1 ensures path[m] != c {
      if m > 0 { assert BestChild(cmp, s, n, path[m - 1], path[m]); }
      assert m - 1 < j ==> m <= j;
    }
  }

  /** The place itself: its children are not above the element that arrives. */
  lemma LastOnPath<T(!new)>(cmp: (T, T) -> int, s: seq<T>, B: seq<T>, n: nat, path: seq<nat>, k: nat, c: nat)
    requires Preorder(cmp) && n <= |s| && Belongs(cmp, s, n, path, k) && Distinct(path) && RotatedTo(s, B, path, 0, k)
    requires c < n && Child(path[k], c)
    ensures Ge(cmp, B[path[k]], B[c])
  {
    hide Preorder;
    ChildValue(cmp, s, B, n, path, k, k, c);
    assert BestChild(cmp, s, n, path[k], path[k + 1]);
    GeTrans(cmp, s[path[0]], s[path[k + 1]], s[c]);
  }

  /** An entry above the place: it received the best child's element. */
  lemma InnerOnPath<T(!new)>(cmp: (T, T) -> int, s: seq<T>, B: seq<T>, n: nat, path: seq<nat>, k: nat, j: nat, c: nat)
    requires Preorder(cmp) && n <= |s| && Belongs(cmp, s, n, path, k) && Distinct(path) && RotatedTo(s, B, path, 0, k)
    requires HeapFrom(cmp, s, path[0] + 1, n) && j < k && c < n && Child(path[j], c)
    ensures Ge(cmp, B[path[j]], B[c])
  {
    hide Preorder;
    assert BestChild(cmp, s, n, path[j], path[j + 1]);
    if c != path[j + 1] {
      ChildValue(cmp, s, B, n, path, k, j, c);
    } else if j + 1 == k {
      GeTotal(cmp, s[path[0]], s[path[k]]);
    } else {
      assert BestChild(cmp, s, n, path[j + 1], path[j + 2]);
    }
  }

  // ---------------------------------------------------------------- offsets

  /** The byte offset of element k. */
  function Off(k: nat, size: nat): nat { k * size }

  lemma OffChildren(k: nat, size: nat)
    ensures 2 * Off(k, size) + size == Off(2 * k + 1, size) && Off(2 * k + 1, size) + size == Off(2 * k + 2, size)
  {}

  lemma OffRoom(k: nat, n: nat, size: nat)
    requires k < n
    ensures Off(k, size) + size <= Off(n, size)
  {
    MulLess(k + 1, n, size);
    Distribute(k, 1, size);
  }

  lemma OffOrder(j: nat, k: nat, size: nat)
    requires size > 0
    ensures Off(j, size) < Off(k, size) <==> j < k
    ensures Off(j, size) == Off(k, size) <==> j == k
  {
    if j < k { TimesStrict(j, k, size); }
    if k < j { TimesStrict(k, j, size); }
  }

  lemma TimesStrict(j: nat, k: nat, size: nat)
    requires size > 0 && j < k
    ensures j * size < k * size
  {
    MulLess(j + 1, k, size);
    Distribute(j, 1, size);
  }

  /** The element at a byte offset. */
  function Index(o: nat, size: nat): nat
    requires size > 0
  {
    o / size
  }

  lemma OffIndex(k: nat, size: nat)
    requires size > 0
    ensures Index(Off(k, size), size) == k
  {
    Distribute(k, 1, size);
    DivRange(k * size, size, k);
  }

  /** parent() at the offset o is defined, and is p. */
  predicate ParentAt(o: nat, size: nat, p: nat) {
    0 < size < Exp2(64) && size <= o && And(o - size, LsBit(size)) < Exp2(64) && Parent(o, LsBit(size), size) == p
  }

  lemma OffParent(k: nat, size: nat)
    requires 0 < size < Exp2(64) && (size % 0x1_0000_0000 != 0 || k % 2 == 1) && k >= 1
    ensures ParentAt(Off(k, size), size, Off((k - 1) / 2, size))
  {
    hide And, Exp2, LsBit, Parent;
    OneStep(k, size);
    ParentIff(k, size, k * size);
  }

  lemma OneStep(k: nat, size: nat)
    requires k >= 1
    ensures size <= k * size
  {}

  // ------------------------------------------------------------------- sifting

  /** A size for which lsbit is 0. */
  predicate Broken(size: nat) { size % 0x1_0000_0000 == 0 }

  /** The sort works: the size is not a multiple of 2^32, or there is no element 2. */
  predicate SizeOk(size: nat, n: nat) { 0 < size < Exp2(64) && (!Broken(size) || n <= 2) }

  /** parent() leads to an offset at which no element starts. */
  predicate Stray(k: nat, size: nat) { Broken(size) && k % 2 == 0 }

  lemma StrayIff(k: nat, size: nat)
    requires 0 < size < Exp2(64) && k >= 1
    ensures size <= Off(k, size) && And(Off(k, size) - size, LsBit(size)) < Exp2(64) && Parent(Off(k, size), LsBit(size), size) >= 0
    ensures Parent(Off(k, size), LsBit(size), size) % size != 0 <==> Stray(k, size)
    ensures !Stray(k, size) ==> Parent(Off(k, size), LsBit(size), size) == Off((k - 1) / 2, size)
  {
    hide And, Exp2, LsBit, Parent;
    OneStep(k, size);
    if Stray(k, size) {
      ParentBroken(k, size, k * size);
      HalfWay((k - 2) / 2, size);
      assert k - 1 == 2 * ((k - 2) / 2) + 1;
    } else {
      OffParent(k, size);
      Multiple((k - 1) / 2, size);
    }
  }

  lemma HalfWay(h: nat, size: nat)
    requires size > 0 && size % 2 == 0
    ensures ((2 * h + 1) * size) / 2 == h * size + size / 2 && (h * size + size / 2) % size == size / 2
  {
    TwiceTimes(h, size);
    DivRange(h * size + size / 2, size, h);
    Distribute(h, 1, size);
  }

  lemma Multiple(h: nat, size: nat)
    requires size > 0
    ensures (h * size) % size == 0
  {
    DivRange(h * size, size, h);
    Distribute(h, 1, size);
  }

  /** The climb from the end of the path meets such an offset. */
  ghost predicate Strays(path: seq<nat>, size: nat) { exists j | 0 < j < |path| :: Stray(path[j], size) }

  lemma ExtendPath<T(!new)>(cmp: (T, T) -> int, s: seq<T>, n: nat, path: seq<nat>, c: nat)
    requires n <= |s| && PathDown(cmp, s, n, path) && BestChild(cmp, s, n, path[|path| - 1], c)
    ensures PathDown(cmp, s, n, path + [c])
  {}

  lemma PickChild<T(!new)>(cmp: (T, T) -> int, s: seq<T>, n: nat, i: nat, c: nat)
    requires Preorder(cmp) && n <= |s| && 2 * i + 2 < n
    requires c == if cmp(s[2 * i + 1], s[2 * i + 2]) >= 0 then 2 * i + 1 else 2 * i + 2
    ensures BestChild(cmp, s, n, i, c)
  {
    GeReflexive(cmp, s[c]);
    if c == 2 * i + 2 { GeTotal(cmp, s[2 * i + 1], s[c]); }
  }

  lemma OnlyChild<T(!new)>(cmp: (T, T) -> int, s: seq<T>, n: nat, i: nat)
    requires Preorder(cmp) && n <= |s| && 2 * i + 2 == n
    ensures BestChild(cmp, s, n, i, 2 * i + 1)
  {
    GeReflexive(cmp, s[2 * i + 1]);
  }

  /** The way down to a leaf, one comparison a level. */
  method FindLeaf<T(!new)>(A: array<T>, a: nat, n: nat, size: nat, cmp: (T, T) -> int, ghost ai: nat, ghost ni: nat)
    returns (b: nat, ghost path: seq<nat>)
    requires Preorder(cmp) && size > 0 && a == Off(ai, size) && n == Off(ni, size) && ai < ni <= A.Length && 2 * n < Exp2(64)
    ensures PathDown(cmp, A[..], ni, path) && path[0] == ai && b == Off(path[|path| - 1], size) && 2 * path[|path| - 1] + 1 >= ni
  {
    hide Preorder, Off, Index, PathDown, BestChild, Exp2;
    ghost var s := A[..];
    b := a;
    path := [ai];
    PathStart(cmp, s, ni, ai);
    ghost var bi := ai;
    OffChildren(bi, size);
    var c := 2 * b + size;
    var d := c + size;
    OffOrder(2 * bi + 2, ni, size);
    OffRoom(bi, ni, size);
    while d < n
      invariant |path| > 0 && path[0] == ai && bi == path[|path| - 1] < ni && PathDown(cmp, s, ni, path)
      invariant b == Off(bi, size) && c == Off(2 * bi + 1, size) && d == Off(2 * bi + 2, size)
      invariant (d < n <==> 2 * bi + 2 < ni) && (d == n <==> 2 * bi + 2 == ni)
      invariant d < Exp2(64)  // no offset wraps
      decreases ni - bi
    {
      OffIndex(2 * bi + 1, size);
      OffIndex(2 * bi + 2, size);
      ghost var next := if cmp(A[Index(c, size)], A[Index(d, size)]) >= 0 then 2 * bi + 1 else 2 * bi + 2;
      b := if cmp(A[Index(c, size)], A[Index(d, size)]) >= 0 then c else d;
      PickChild(cmp, s, ni, bi, next);
      ExtendPath(cmp, s, ni, path, next);
      path := path + [next];
      bi := next;
      OffChildren(bi, size);
      c := 2 * b + size;
      d := c + size;
      OffOrder(2 * bi + 2, ni, size);
      OffRoom(bi, ni, size);
    }
    if d == n {
      OnlyChild(cmp, s, ni, bi);
      ExtendPath(cmp, s, ni, path, 2 * bi + 1);
      path := path + [2 * bi + 1];
      b := c;
    }
  }

  lemma PathStart<T>(cmp: (T, T) -> int, s: seq<T>, n: nat, a: nat)
    requires n <= |s| && a < n
    ensures PathDown(cmp, s, n, [a])
  {}

  lemma PathShape<T(!new)>(cmp: (T, T) -> int, s: seq<T>, n: nat, path: seq<nat>)
    requires n <= |s| && PathDown(cmp, s, n, path)
    ensures |path| > 0 && Distinct(path) && (forall j | 0 <= j < |path| :: path[0] <= path[j] < n)
    ensures forall j | 0 < j < |path| :: path[j] >= 1 && (path[j] - 1) / 2 == path[j - 1]
  {
    forall i, j | 0 <= i < j < |path| ensures path[i] < path[j] { PathIncreasing(cmp, s, n, path, i, j); }
    forall j | 0 <= j < |path| ensures path[0] <= path[j] < n { if j > 0 { PathIncreasing(cmp, s, n, path, 0, j); } }
    forall j | 0 < j < |path| ensures path[j] >= 1 && (path[j] - 1) / 2 == path[j - 1] {
      assert BestChild(cmp, s, n, path[j - 1], path[j]);
    }
  }

  /** Back up to where the element at a belongs, unless parent() leads astray. */
  method Backtrack<T(!new)>(A: array<T>, a: nat, leaf: nat, size: nat, lsbit: nat, cmp: (T, T) -> int, ghost ni: nat, ghost path: seq<nat>)
    returns (b: nat, ghost k: nat, stray: bool)
    requires 0 < size < Exp2(64) && lsbit == LsBit(size) && ni <= A.Length && PathDown(cmp, A[..], ni, path)
    requires a == Off(path[0], size) && leaf == Off(path[|path| - 1], size) && 2 * path[|path| - 1] + 1 >= ni
    ensures stray ==> Strays(path, size)
    ensures !stray ==> Belongs(cmp, A[..], ni, path, k) && b == Off(path[k], size)
    ensures !stray ==> forall j | k < j < |path| :: !Stray(path[j], size)
  {
    hide Off, Index, PathDown, LsBit, Parent, And, Exp2, Stray;
    ghost var s := A[..];
    PathShape(cmp, s, ni, path);
    b := leaf;
    k := |path| - 1;
    OffOrder(path[k], path[0], size);
    OffIndex(path[0], size);
    OffIndex(path[k], size);
    while b != a && cmp(A[Index(a, size)], A[Index(b, size)]) >= 0
      invariant k < |path| && b == Off(path[k], size) && (b == a <==> path[k] == path[0])
      invariant Index(a, size) == path[0] && Index(b, size) == path[k]
      invariant k + 1 < |path| ==> Ge(cmp, s[path[0]], s[path[k + 1]])
      invariant forall j | k < j < |path| :: !Stray(path[j], size)
      decreases k
    {
      assert k > 0 && path[k] >= 1;
      StrayIff(path[k], size);
      var up := Parent(b, lsbit, size);
      if up % size != 0 { return b, k, true; }
      b := up;
      k := k - 1;
      OffOrder(path[k], path[0], size);
      OffIndex(path[k], size);
    }
    stray := false;
  }

  method Exchange<T>(A: array<T>, i: nat, j: nat)
    requires i < A.Length && j < A.Length
    modifies A
    ensures A[..] == Swap(old(A[..]), i, j)
  {
    A[i], A[j] := A[j], A[i];
  }

  /** Shifts the element at a down the path into its place, unless parent() leads astray. */
  method ShiftIn<T(!new)>(A: array<T>, a: nat, place: nat, size: nat, lsbit: nat, cmp: (T, T) -> int, ghost ni: nat, ghost path: seq<nat>, ghost k: nat)
    returns (stray: bool)
    requires 0 < size < Exp2(64) && lsbit == LsBit(size) && ni <= A.Length && PathDown(cmp, A[..], ni, path) && k < |path|
    requires a == Off(path[0], size) && place == Off(path[k], size)
    modifies A
    ensures stray ==> Strays(path, size)
    ensures !stray ==> RotatedTo(old(A[..]), A[..], path, 0, k) && multiset(A[..]) == multiset(old(A[..]))
    ensures !stray ==> forall j | 0 < j <= k :: !Stray(path[j], size)
  {
    hide Off, Index, PathDown, LsBit, Parent, And, Exp2, RotatedTo, Stray;
    ghost var s := A[..];
    PathShape(cmp, s, ni, path);
    RotateNone(s, path, k);
    var b, c := place, place;
    ghost var m := k;
    OffOrder(path[m], path[0], size);
    OffIndex(path[k], size);
    while b != a
      invariant m <= k && b == Off(path[m], size) && (b == a <==> path[m] == path[0])
      invariant RotatedTo(s, A[..], path, m, k) && multiset(A[..]) == multiset(s)
      invariant forall j | m < j <= k :: !Stray(path[j], size)
      decreases m
    {
      assert m > 0 && path[m] >= 1;
      StrayIff(path[m], size);
      var up := Parent(b, lsbit, size);
      if up % size != 0 { return true; }
      b := up;
      OffOrder(path[m - 1], path[0], size);
      OffIndex(path[m - 1], size);
      ghost var B := A[..];
      RotateMore(s, B, path, m, k);
      SwapPerm(B, path[m - 1], path[k]);
      Exchange(A, Index(b, size), Index(c, size));
      m := m - 1;
    }
    assert m == 0;
    return false;
  }

  /** Every element of B in [a, n) was in [a, n) of s, and nothing outside moved. */
  ghost predicate Within<T>(s: seq<T>, B: seq<T>, a: nat, n: nat) {
    && |B| == |s| && n <= |s|
    && (forall i | 0 <= i < |s| && !(a <= i < n) :: B[i] == s[i])
    && (forall i | a <= i < n :: B[i] in s[a..n])
  }

  lemma RotatedWithin<T(!new)>(s: seq<T>, B: seq<T>, path: seq<nat>, k: nat, n: nat)
    requires RotatedTo(s, B, path, 0, k) && n <= |s| && (forall j | 0 <= j < |path| :: path[0] <= path[j] < n)
    ensures Within(s, B, path[0], n)
  {
    var a := path[0];
    forall i | 0 <= i < |s| && !(a <= i < n) ensures B[i] == s[i] { assert i !in path[0..k + 1]; }
    forall i | a <= i < n ensures B[i] in s[a..n] {
      if i in path[0..k + 1] {
        var j :| 0 <= j < k + 1 && path[j] == i;
        var src := if j < k then path[j + 1] else a;
        assert B[i] == s[src] == s[a..n][src - a];
      } else {
        assert B[i] == s[i] == s[a..n][i - a];
      }
    }
  }

  /**
   * The body of the outer loop: element a joins the heap [a + 1, n). It goes astray exactly if parent() does at some
   * element of its path: the climb and the shift ask for the parent of each of them once.
   */
  method Sift<T(!new)>(A: array<T>, a: nat, n: nat, size: nat, lsbit: nat, cmp: (T, T) -> int, ghost ai: nat, ghost ni: nat)
    returns (ghost path: seq<nat>, ghost k: nat, stray: bool)
    requires Preorder(cmp) && 0 < size < Exp2(64) && lsbit == LsBit(size) && a == Off(ai, size) && n == Off(ni, size) && ai < ni <= A.Length
    requires HeapFrom(cmp, A[..], ai + 1, ni) && 2 * n < Exp2(64)
    modifies A
    ensures PathDown(cmp, old(A[..]), ni, path) && path[0] == ai && 2 * path[|path| - 1] + 1 >= ni
    ensures stray <==> Strays(path, size)
    ensures !stray ==> Belongs(cmp, old(A[..]), ni, path, k) && RotatedTo(old(A[..]), A[..], path, 0, k)
    ensures !stray ==> HeapFrom(cmp, A[..], ai, ni) && Within(old(A[..]), A[..], ai, ni) && multiset(A[..]) == multiset(old(A[..]))
  {
    hide Preorder, Off, LsBit, HeapFrom, PathDown, RotatedTo, Belongs, Within, Exp2, Stray;
    ghost var s := A[..];
    var leaf, place;
    leaf, path := FindLeaf(A, a, n, size, cmp, ai, ni);
    place, k, stray := Backtrack(A, a, leaf, size, lsbit, cmp, ni, path);
    PathShape(cmp, s, ni, path);
    if stray { return; }
    BelongsIndex(cmp, s, ni, path, k);
    stray := ShiftIn(A, a, place, size, lsbit, cmp, ni, path, k);
    if stray { return; }
    RotatedWithin(s, A[..], path, k, ni);
    RotatedHeap(cmp, s, A[..], ni, path, k);
  }

  // ------------------------------------------- where the sort goes astray

  /** The first or, after one that moves nothing, the second sift goes down to an even element. */
  predicate Misordered<T>(cmp: (T, T) -> int, s: seq<T>) {
    var n := |s|;
    && n >= 3
    && if n % 2 == 1 then cmp(s[n - 2], s[n - 1]) < 0
       else cmp(s[n / 2 - 1], s[n - 1]) >= 0 && cmp(s[n - 3], s[n - 2]) < 0
  }

  /** From the parent of the last two of an odd number of elements the path goes to the greater, the even one. */
  lemma EvenLeaf<T(!new)>(cmp: (T, T) -> int, s: seq<T>, n: nat, a: nat, path: seq<nat>, size: nat)
    requires n <= |s| && PathDown(cmp, s, n, path) && path[0] == a && 2 * path[|path| - 1] + 1 >= n
    requires 2 * a + 2 < n && cmp(s[2 * a + 1], s[2 * a + 2]) < 0 && Broken(size)
    ensures Strays(path, size)
  {
    assert |path| > 1 && BestChild(cmp, s, n, path[0], path[1]);
    assert Child(a, 2 * a + 2);
    assert path[1] == 2 * a + 2;
    assert Stray(path[1], size);
  }

  /** From the parent of a single last child, not above it, the path is short and nothing moves. */
  lemma OddLeaf<T(!new)>(cmp: (T, T) -> int, s: seq<T>, B: seq<T>, n: nat, a: nat, path: seq<nat>, k: nat, size: nat)
    requires n <= |s| && PathDown(cmp, s, n, path) && path[0] == a && 2 * path[|path| - 1] + 1 >= n
    requires 2 * a + 2 == n && cmp(s[a], s[2 * a + 1]) >= 0
    ensures !Strays(path, size)
    ensures Belongs(cmp, s, n, path, k) && RotatedTo(s, B, path, 0, k) ==> B == s
  {
    assert |path| > 1 && BestChild(cmp, s, n, path[0], path[1]);
    assert path[1] == n - 1;
    assert |path| > 2 ==> BestChild(cmp, s, n, path[1], path[2]);
    if Belongs(cmp, s, n, path, k) && RotatedTo(s, B, path, 0, k) { assert k == 0; }
  }

  lemma BelongsIndex<T>(cmp: (T, T) -> int, s: seq<T>, n: nat, path: seq<nat>, k: nat)
    requires n <= |s| && Belongs(cmp, s, n, path, k)
    ensures k < |path|
  {}

  lemma RotatedHeap<T(!new)>(cmp: (T, T) -> int, s: seq<T>, B: seq<T>, n: nat, path: seq<nat>, k: nat)
    requires Preorder(cmp) && n <= |s| == |B| && Belongs(cmp, s, n, path, k) && Distinct(path) && RotatedTo(s, B, path, 0, k)
    requires |path| > 0 && HeapFrom(cmp, s, path[0] + 1, n)
    ensures HeapFrom(cmp, B, path[0], n)
  {
    hide Preorder, RotatedTo, Belongs, Ge, Distinct;
    forall i: nat, c: nat | path[0] <= i && c < n && Child(i, c) ensures Ge(cmp, B[i], B[c]) {
      RotatedHeapAt(cmp, s, B, n, path, k, i, c);
    }
  }

  // ------------------------------------------------------------------- sorting

  /** Elements from n on are in order, and none of those before n is above them. */
  ghost predicate SortedFrom<T>(cmp: (T, T) -> int, s: seq<T>, n: nat) {
    forall i: nat, j: nat | i < j < |s| && n <= j :: Ge(cmp, s[j], s[i])
  }

  ghost predicate Sorted<T>(cmp: (T, T) -> int, s: seq<T>) {
    forall i, j | 0 <= i < j < |s| :: cmp(s[i], s[j]) <= 0
  }

  lemma SortedKept<T(!new)>(cmp: (T, T) -> int, s: seq<T>, B: seq<T>, a: nat, n: nat)
    requires SortedFrom(cmp, s, n) && Within(s, B, a, n)
    ensures SortedFrom(cmp, B, n)
  {
    forall i: nat, j: nat | i < j < |B| && n <= j ensures Ge(cmp, B[j], B[i]) {
      if a <= i < n {
        var k :| 0 <= k < n - a && s[a..n][k] == B[i];
        assert s[a + k] == B[i];
      }
    }
  }

  /** Swapping the root to the end of the heap. */
  lemma ExtractRoot<T(!new)>(cmp: (T, T) -> int, s: seq<T>, n: nat)
    requires Preorder(cmp) && 0 < n < |s| && HeapFrom(cmp, s, 0, n + 1) && SortedFrom(cmp, s, n + 1)
    ensures SortedFrom(cmp, Swap(s, 0, n), n) && HeapFrom(cmp, Swap(s, 0, n), 1, n)
  {
    hide Preorder, Ge;
    var B := Swap(s, 0, n);
    forall i: nat, j: nat | i < j < |B| && n <= j ensures Ge(cmp, B[j], B[i]) {
      if j == n { RootGreatest(cmp, s, n + 1, if i == 0 then n else i); }
    }
  }

  lemma LeavesHeap<T(!new)>(cmp: (T, T) -> int, s: seq<T>, n: nat)
    requires n == |s|
    ensures HeapFrom(cmp, s, n / 2, n) && SortedFrom(cmp, s, n)
  {}

  lemma AllSorted<T(!new)>(cmp: (T, T) -> int, s: seq<T>)
    requires Preorder(cmp) && SortedFrom(cmp, s, 1)
    ensures Sorted(cmp, s)
  {
    forall i, j | 0 <= i < j < |s| ensures cmp(s[i], s[j]) <= 0 { assert Ge(cmp, s[j], s[i]); }
  }

  lemma OneSorted<T(!new)>(cmp: (T, T) -> int, s: seq<T>)
    requires |s| < 2
    ensures Sorted(cmp, s)
  {}

  lemma OffLess(k: nat, size: nat)
    requires k > 0 && size > 0
    ensures Off(k, size) >= size && Off(k, size) - size == Off(k - 1, size)
  {
    Distribute(k - 1, 1, size);
  }

  lemma OffNone(k: nat)
    ensures Off(k, 0) == 0
  {}

  lemma ExpDouble()
    ensures Exp2(64) == 2 * Exp2(63)
  {}

  lemma OffZero(k: nat, size: nat)
    requires size > 0
    ensures Off(k, size) == 0 <==> k == 0
  {
    OffOrder(k, 0, size);
  }

  lemma NoElementTwo(path: seq<nat>, size: nat, n: nat)
    requires SizeOk(size, n) && (forall j | 0 < j < |path| :: 1 <= path[j] < n)
    ensures !Strays(path, size)
  {}

  /**
   * sort_r on num elements of size bytes, addressed by offset; the array is an object, so smaller than 2^63 bytes.
   * stray: the sort came to an offset at which no element starts, and the model stops there.
   */
  method SortR<T(!new, ==)>(A: array<T>, size: nat, cmp: (T, T) -> int) returns (stray: bool)
    requires Preorder(cmp) && size < Exp2(64) && Off(A.Length, size) < Exp2(63)
    modifies A
    ensures !stray ==> multiset(A[..]) == multiset(old(A[..]))
    ensures !stray && size > 0 ==> Sorted(cmp, A[..])
    ensures size == 0 ==> !stray && A[..] == old(A[..])
    ensures SizeOk(size, A.Length) ==> !stray
    ensures size > 0 && Broken(size) && Misordered(cmp, old(A[..])) ==> stray
  {
    hide Preorder, Off, LsBit, HeapFrom, Within, SortedFrom, Sorted, Exp2, Index, Strays, PathDown, Belongs, RotatedTo, SizeOk;
    var num := A.Length;
    var n, a := Off(num, size), Off(num / 2, size);
    if size == 0 {
      OffNone(num / 2);
      assert a == 0;
      ZeroSize(num);
      return false;
    }
    var lsbit := LsBit(size);
    OffZero(num / 2, size);
    if a == 0 {
      OneSorted(cmp, A[..]);
      return false;
    }
    ExpDouble();
    ghost var ni: nat, ai: nat := num, num / 2;
    ghost var bad := Broken(size) && Misordered(cmp, A[..]);
    LeavesHeap(cmp, A[..], num);
    while true
      invariant ai < ni <= num && a == Off(ai, size) && n == Off(ni, size) && 2 * n < Exp2(64)
      invariant HeapFrom(cmp, A[..], ai, ni) && SortedFrom(cmp, A[..], ni) && multiset(A[..]) == multiset(old(A[..]))
      invariant bad ==> ni == num && A[..] == old(A[..]) && (ai == num / 2 || (num % 2 == 0 && ai == num / 2 - 1))
      decreases ni + ai
    {
      OffZero(ai, size);
      ghost var s := A[..];
      if a != 0 {
        OffLess(ai, size);
        a := a - size;
        ai := ai - 1;
      } else {
        OffLess(ni, size);
        OffZero(ni - 1, size);
        n := n - size;
        ni := ni - 1;
        if n == 0 { break; }
        OffIndex(ni, size);
        ExtractRoot(cmp, s, ni);
        SwapPerm(s, 0, ni);
        A[0], A[Index(n, size)] := A[Index(n, size)], A[0];
        assert A[..] == Swap(s, 0, ni);
      }
      ghost var before := A[..];
      ghost var path, k;
      path, k, stray := Sift(A, a, n, size, lsbit, cmp, ai, ni);
      PathShape(cmp, before, ni, path);
      Decided(cmp, before, A[..], num, ni, ai, path, k, size, bad);
      if stray { return; }
      SortedKept(cmp, before, A[..], ai, ni);
    }
    AllSorted(cmp, A[..]);
    return false;
  }

  lemma ZeroSize(n: nat)
    ensures !SizeOk(0, n)
  {}

  /** What the sifts do to an array out of order, and that none goes astray for a size that works. */
  lemma Decided<T(!new)>(cmp: (T, T) -> int, s: seq<T>, B: seq<T>, num: nat, n: nat, a: nat, path: seq<nat>, k: nat, size: nat, bad: bool)
    requires n <= num == |s| && PathDown(cmp, s, n, path) && path[0] == a && 2 * path[|path| - 1] + 1 >= n
    requires forall j | 0 < j < |path| :: 1 <= path[j] < n
    requires bad ==> n == num && Broken(size) && Misordered(cmp, s) && (a == num / 2 - 1 || (num % 2 == 0 && a == num / 2 - 2))
    ensures SizeOk(size, num) ==> !Strays(path, size)
    ensures bad && !(num % 2 == 0 && a == num / 2 - 1) ==> Strays(path, size)
    ensures bad && num % 2 == 0 && a == num / 2 - 1 && Belongs(cmp, s, n, path, k) && RotatedTo(s, B, path, 0, k) ==> B == s
  {
    hide PathDown, Belongs, RotatedTo, Strays, Stray;
    if SizeOk(size, num) { NoElementTwo(path, size, num); }
    if bad {
      if num % 2 == 0 && a == num / 2 - 1 { OddLeaf(cmp, s, B, n, a, path, k, size); } else { EvenLeaf(cmp, s, n, a, path, size); }
    }
  }

  /** An order of n numbers that is out of order in that sense. */
  function Awkward(n: nat): (s: seq<int>)
    ensures |s| == n
  {
    seq(n, i => if n % 2 == 0 && i == n - 1 then -1 else i)
  }

  lemma Subtracts(cmp: (int, int) -> int)
    requires forall x, y :: cmp(x, y) == x - y
    ensures Preorder(cmp)
  {}

  /** For every other size and every number of elements from three on some array sends the sort astray. */
  method SortsAstray(n: nat, size: nat, cmp: (int, int) -> int) returns (stray: bool)
    requires n >= 3 && 0 < size < Exp2(64) && Broken(size) && Off(n, size) < Exp2(63) && forall x, y :: cmp(x, y) == x - y
    ensures stray
  {
    hide Exp2, Off, Preorder;
    Subtracts(cmp);
    var s := Awkward(n);
    var A := new int[n](i requires 0 <= i < n => s[i]);
    assert A[..] == s;
    assert Misordered(cmp, s);
    stray := SortR(A, size, cmp);
  }
}
