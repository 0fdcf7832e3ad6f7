/** combination_first() and combination_next(): all r-subsets of n in lexicographic order. */
module Combo {
  import opened Generator

  /** c is an r-subset of [0, n), in increasing order. */
  predicate IsCombo(c: seq<nat>, n: nat) { Increasing(c) && Below(c, n) }

  /** a comes before b in lexicographic order: equal below k, smaller at k. */
  predicate LessAt(a: seq<nat>, b: seq<nat>, k: nat)
  {
    k < |a| == |b| && a[..k] == b[..k] && a[k] < b[k]
  }

  ghost predicate Less(a: seq<nat>, b: seq<nat>) {
    exists k: nat :: LessAt(a, b, k)
  }

  lemma {:induction false} Slack(c: seq<nat>, n: nat, k: nat)
    requires IsCombo(c, n) && k < |c|
    ensures k <= c[k] <= n - |c| + k
    decreases |c| - k
  {
    IncreasingAt(c, k);
    if k + 1 < |c| {
      Slack(c, n, k + 1);
      assert c[k] < c[k + 1];
    }
  }

  /** The first combination is the least. */
  lemma FirstLeast(c: seq<nat>, s: seq<nat>, n: nat)
    requires |c| == |s| && (forall k | 0 <= k < |c| :: c[k] == k) && IsCombo(s, n)
    ensures s == c || Less(c, s)
  {
    forall k | 0 <= k < |s| ensures c[k] <= s[k] { IncreasingAt(s, k); }
    PointwiseLess(c, s, 0);
  }

  lemma {:induction false} PointwiseLess(a: seq<nat>, b: seq<nat>, k: nat)
    requires |a| == |b| && k <= |a| && a[..k] == b[..k]
    requires forall x | k <= x < |a| && (forall y | 0 <= y < x :: a[y] == b[y]) :: a[x] <= b[x]
    ensures a == b || Less(a, b)
    decreases |a| - k
  {
    if k == |a| {
      assert a == a[..k] && b == b[..k];
    } else if a[k] == b[k] {
      assert a[..k + 1] == a[..k] + [a[k]] && b[..k + 1] == b[..k] + [b[k]];
      PointwiseLess(a, b, k + 1);
    } else {
      assert forall y | 0 <= y < k :: a[y] == a[..k][y] == b[..k][y] == b[y];
      assert LessAt(a, b, k);
    }
  }

  method CombinationFirst(r: nat, n: nat, c: array<nat>)
    requires 0 < r <= n && r <= c.Length
    modifies c
    ensures forall k | 0 <= k < r :: c[k] == k
    ensures c[r..] == old(c[r..])
  {
    for i := 0 to r
      invariant forall k | 0 <= k < i :: c[k] == k
      invariant c[r..] == old(c[r..])
    {
      c[i] := i;
    }
  }

  /** c' is c with position i bumped and the rest refilled, everything after i being at its maximum in c. */
  ghost predicate Step(c: seq<nat>, c': seq<nat>, n: nat, i: nat) {
    && i < |c| == |c'| && c'[..i] == c[..i] && c[i] + 1 <= n - |c| + i
    && (forall k | i < k < |c| :: c[k] == n - |c| + k)
    && (forall k | i <= k < |c| :: c'[k] == c[i] + 1 + (k - i))
  }

  lemma StepIsCombo(c: seq<nat>, c': seq<nat>, n: nat, i: nat)
    requires IsCombo(c, n) && Step(c, c', n, i)
    ensures IsCombo(c', n) && Less(c, c')
  {
    forall a, b | 0 <= a < b < |c'| ensures c'[a] < c'[b] {
      if a < i { assert c'[a] == c'[..i][a] == c[a]; assert c[a] < c[i]; }
      if b < i { assert c'[b] == c'[..i][b] == c[b]; }
    }
    forall a | 0 <= a < |c'| ensures c'[a] < n {
      if a < i { assert c'[a] == c'[..i][a] == c[a]; }
    }
    assert LessAt(c, c', i);
  }

  /** Nothing lies between a combination and the next. */
  lemma StepIsNext(c: seq<nat>, c': seq<nat>, n: nat, i: nat, s: seq<nat>)
    requires IsCombo(c, n) && Step(c, c', n, i) && IsCombo(s, n) && |s| == |c| && Less(c, s)
    ensures s == c' || Less(c', s)
  {
    var k: nat :| LessAt(c, s, k);
    Slack(s, n, k);
    assert k <= i;
    if k < i {
      assert c'[..k] == c'[..i][..k] == c[..i][..k] == c[..k];
      assert c'[k] == c'[..i][k] == c[k];
      assert LessAt(c', s, k);
    } else {
      forall x | i <= x < |c| ensures c'[x] <= s[x] { Spread(s, i, x); }
      PointwiseLess(c', s, i);
    }
  }

  lemma {:induction false} Spread(s: seq<nat>, i: nat, x: nat)
    requires Increasing(s) && i <= x < |s|
    ensures s[x] >= s[i] + (x - i)
    decreases x
  {
    if i < x {
      Spread(s, i, x - 1);
      assert s[x - 1] < s[x];
    }
  }

  /** After the last combination there is none. */
  lemma LastCombo(c: seq<nat>, n: nat, s: seq<nat>)
    requires IsCombo(c, n) && (forall k | 0 <= k < |c| :: c[k] == n - |c| + k) && IsCombo(s, n) && |s| == |c|
    ensures !Less(c, s)
  {
    if Less(c, s) {
      var k: nat :| LessAt(c, s, k);
      Slack(s, n, k);
    }
  }

  /** combination_next. */
  method CombinationNext(r: nat, n: nat, c: array<nat>) returns (more: bool)
    requires 0 < r <= c.Length && IsCombo(c[..r], n)
    modifies c
    ensures more ==> IsCombo(c[..r], n) && Less(old(c[..r]), c[..r])
    ensures more ==> forall s: seq<nat> | |s| == r && IsCombo(s, n) && Less(old(c[..r]), s) :: s == c[..r] || Less(c[..r], s)
    ensures !more ==> forall s: seq<nat> | |s| == r && IsCombo(s, n) :: !Less(old(c[..r]), s)
  {
    ghost var c0 := c[..r];
    forall k | 0 <= k < r ensures c0[k] <= n - r + k { Slack(c0, n, k); }
    hide IsCombo, Less;
    var i, h := r - 1, n;
    c[i] := c[i] + 1;
    while c[i] >= h
      invariant 0 <= i < r && h == n - (r - 1 - i)
      invariant c[i] == c0[i] + 1 && (forall k | 0 <= k < i :: c[k] == c0[k])
      invariant forall k | i < k < r :: c0[k] == n - r + k
      decreases i
    {
      if i == 0 {
        forall s: seq<nat> | |s| == r && IsCombo(s, n) ensures !Less(c0, s) { LastCombo(c0, n, s); }
        return false;
      }
      i := i - 1;
      h := h - 1;
      c[i] := c[i] + 1;
    }
    ghost var p := i;
    i := i + 1;
    while i < r
      invariant p < i <= r
      invariant forall k | 0 <= k < p :: c[k] == c0[k]
      invariant forall k | p <= k < i :: c[k] == c0[p] + 1 + (k - p)
    {
      c[i] := c[i - 1] + 1;
      i := i + 1;
    }
    ghost var c' := c[..r];
    assert Step(c0, c', n, p);
    StepIsCombo(c0, c', n, p);
    forall s: seq<nat> | |s| == r && IsCombo(s, n) && Less(c0, s) ensures s == c' || Less(c', s) {
      StepIsNext(c0, c', n, p, s);
    }
    return true;
  }

  // ------------------------------------------- how far the enumeration has to go

  function Weight(n: nat, k: nat): nat { if k == 0 then 1 else (n + 1) * Weight(n, k - 1) }

  /** A number that falls with every step of the enumeration. */
  function Rank(c: seq<nat>, n: nat): nat
    requires Below(c, n)
  {
    if |c| == 0 then 0 else (n - c[0]) * Weight(n, |c| - 1) + Rank(c[1..], n)
  }

  lemma {:induction false} RankBound(c: seq<nat>, n: nat)
    requires Below(c, n)
    ensures Rank(c, n) < Weight(n, |c|)
    decreases |c|
  {
    if |c| > 0 {
      RankBound(c[1..], n);
      var w := Weight(n, |c| - 1);
      assert (n - c[0]) * w <= n * w;
      assert (n + 1) * w == n * w + w;
    }
  }

  lemma TimesMonotone(x: nat, y: nat, w: nat)
    requires x <= y
    ensures x * w <= y * w
  {}

  lemma RankHead(x: nat, y: nat, w: nat, ra: nat, rb: nat)
    requires y < x && rb < w
    ensures y * w + rb < x * w + ra
  {
    TimesMonotone(y + 1, x, w);
    assert (y + 1) * w == y * w + w;
  }

  lemma {:induction false} RankFalls(a: seq<nat>, b: seq<nat>, n: nat, k: nat)
    requires Below(a, n) && Below(b, n) && LessAt(a, b, k)
    ensures Rank(b, n) < Rank(a, n)
    decreases k
  {
    hide Weight;
    if k == 0 {
      RankBound(b[1..], n);
      RankHead(n - a[0], n - b[0], Weight(n, |a| - 1), Rank(a[1..], n), Rank(b[1..], n));
    } else {
      assert a[0] == a[..k][0] == b[..k][0] == b[0];
      assert a[1..][..k - 1] == a[..k][1..] && b[1..][..k - 1] == b[..k][1..];
      RankFalls(a[1..], b[1..], n, k - 1);
    }
  }

  lemma RankLess(a: seq<nat>, b: seq<nat>, n: nat)
    requires IsCombo(a, n) && IsCombo(b, n) && Less(a, b)
    ensures Rank(b, n) < Rank(a, n)
  {
    var k: nat :| LessAt(a, b, k);
    RankFalls(a, b, n, k);
  }

  // ---------------------------------------------------- combinations as sets

  function Elements(s: seq<nat>): (r: set<nat>)
  {
    set x | x in s
  }

  lemma {:induction false} ElementsSize(s: seq<nat>)
    ensures |Elements(s)| <= |s|
    ensures Increasing(s) ==> |Elements(s)| == |s|
    decreases |s|
  {
    if |s| == 0 {
      assert Elements(s) == {};
    } else {
      var n := |s| - 1;
      ElementsSize(s[..n]);
      assert s == s[..n] + [s[n]];
      assert Elements(s) == Elements(s[..n]) + {s[n]};
      if Increasing(s) { assert s[n] !in s[..n]; }
    }
  }

  /** A set below n as an increasing sequence. */
  function Sorted(s: set<nat>, n: nat): (r: seq<nat>)
    ensures IsCombo(r, n) && |r| <= |s| && forall x | 0 <= x < n :: x in r <==> x in s
  {
    if n == 0 then []
    else if n - 1 in s then
      var r := Sorted(s - {n - 1}, n - 1);
      assert forall x | x in r :: x < n - 1;
      r + [n - 1]
    else Sorted(s, n - 1)
  }

  lemma LastOf(a: seq<nat>)
    requires Increasing(a) && |a| > 0
    ensures forall x | x in a :: x <= a[|a| - 1]
    ensures Elements(a[..|a| - 1]) == Elements(a) - {a[|a| - 1]} && Increasing(a[..|a| - 1])
  {
    var n := |a| - 1;
    assert a == a[..n] + [a[n]];
  }

  lemma {:induction false} SameElements(a: seq<nat>, b: seq<nat>)
    requires Increasing(a) && Increasing(b) && Elements(a) == Elements(b)
    ensures a == b
    decreases |a|
  {
    hide Increasing;
    ElementsSize(a);
    ElementsSize(b);
    if |a| > 0 {
      var n := |a| - 1;
      var x, y := a[n], b[n];
      LastOf(a);
      LastOf(b);
      assert x in Elements(a) && y in Elements(b);
      SameElements(a[..n], b[..n]);
      assert a == a[..n] + [x] && b == b[..n] + [y];
    }
  }

  /** A combination inside one no longer than it is that one. */
  lemma Contained(e: seq<nat>, s: seq<nat>)
    requires Increasing(e) && Increasing(s) && |s| <= |e| && forall x | x in e :: x in s
    ensures s == e
  {
    ElementsSize(e);
    ElementsSize(s);
    assert Elements(e) <= Elements(s);
    SubsetEqual(Elements(e), Elements(s));
    SameElements(s, e);
  }

  lemma SubsetEqual(a: set<nat>, b: set<nat>)
    requires a <= b && |b| <= |a|
    ensures a == b
  {
    assert |b - a| == |b| - |a|;
  }
}
