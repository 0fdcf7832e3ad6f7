/** Facts about multiplication and division that the solver needs spelled out. */
module Arith {
  lemma MulLess(a: nat, b: nat, m: nat)
    requires a <= b
    ensures a * m <= b * m
  {}

  lemma Distribute(a: nat, b: nat, m: nat)
    ensures (a + b) * m == a * m + b * m
  {}

  lemma DivRange(x: nat, m: nat, k: nat)
    requires m > 0
    ensures x / m == k <==> k * m <= x < (k + 1) * m
  {
    assert x == (x / m) * m + x % m;
    var q := x / m;
    if q < k { MulLess(q + 1, k, m); }
    if k < q { MulLess(k + 1, q, m); }
  }

  /** 2 to the n. */
  function Exp2(n: nat): (r: nat)
    ensures r > 0
  {
    if n == 0 then 1 else 2 * Exp2(n - 1)
  }

  // ------------------------------------------------------------- 64-ary trees

  function Pow64(n: nat): (r: nat)
    ensures r > 0
  {
    if n == 0 then 1 else 64 * Pow64(n - 1)
  }

  /** In a 64-ary tree, the position within its level of the node h levels above leaf id. */
  function Up(id: nat, h: nat): nat { if h == 0 then id else Up(id, h - 1) / 64 }

  lemma {:induction false} UpBound(id: nat, h: nat, D: nat)
    requires h <= D && id < Pow64(D)
    ensures Up(id, h) < Pow64(D - h)
    decreases h
  {
    if h != 0 { UpBound(id, h - 1, D); }
  }

  /** The leaves h levels below position p are p * 64^h and the 64^h - 1 after it. */
  lemma {:induction false} UpRange(id: nat, h: nat, p: nat)
    ensures Up(id, h) == p <==> p * Pow64(h) <= id < (p + 1) * Pow64(h)
    decreases h
  {
    if h > 0 {
      var q, m := Up(id, h - 1), Pow64(h - 1);
      UpRange(id, h - 1, q);
      assert q * m <= id < (q + 1) * m;
      Regroup(p, m);
      Regroup(p + 1, m);
      if q / 64 == p {
        MulLess(64 * p, q, m);
        MulLess(q + 1, 64 * (p + 1), m);
      }
      if q < 64 * p { MulLess(q + 1, 64 * p, m); }
      if q >= 64 * (p + 1) { MulLess(64 * (p + 1), q, m); }
    }
  }

  lemma Regroup(p: nat, m: nat)
    ensures p * (64 * m) == (64 * p) * m
  {}
}
