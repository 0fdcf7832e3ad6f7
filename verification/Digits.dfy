/** Xor of numbers written in hexadecimal, digit by digit: how the values of particular words are worked out. */
module Digits {
  import opened Gf

  function Low(p: nat, w: nat): nat { if p >= w then p - w else p }

  function Top(p: nat, w: nat): nat { if p >= w then 1 else 0 }

  function Differ(p: nat, q: nat, w: nat): nat { if (p >= w) != (q >= w) then w else 0 }

  /** Xor of two digits of two bits, and of four. */
  function Pair(p: nat, q: nat): nat { Differ(p, q, 2) + Differ(Low(p, 2), Low(q, 2), 1) }

  function High(p: nat): nat { 2 * Top(p, 8) + Top(Low(p, 8), 4) }

  function Digit(p: nat, q: nat): nat {
    var p4, q4 := Low(p, 8), Low(q, 8);
    var p2, q2 := Low(p4, 4), Low(q4, 4);
    Differ(p, q, 8) + Differ(p4, q4, 4) + Differ(p2, q2, 2) + Differ(Low(p2, 2), Low(q2, 2), 1)
  }

  lemma DigitPairs(p: nat, q: nat)
    requires p < 16 && q < 16
    ensures Digit(p, q) == 4 * Pair(High(p), High(q)) + Pair(Low(Low(p, 8), 4), Low(Low(q, 8), 4))
  {}

  lemma BitStep(u: nat, v: nat, p: nat, q: nat)
    requires p < 2 && q < 2
    ensures Xor(2 * u + p, 2 * v + q) == 2 * Xor(u, v) + Differ(p, q, 1)
  {
    hide Xor;
    XorStep(2 * u + p, 2 * v + q);
    assert (2 * u + p) / 2 == u && (2 * v + q) / 2 == v;
  }

  lemma PairStep(u: nat, v: nat, p: nat, q: nat)
    requires p < 4 && q < 4
    ensures Xor(4 * u + p, 4 * v + q) == 4 * Xor(u, v) + Pair(p, q)
  {
    hide Xor;
    BitStep(u, v, Top(p, 2), Top(q, 2));
    BitStep(2 * u + Top(p, 2), 2 * v + Top(q, 2), Low(p, 2), Low(q, 2));
  }

  lemma DigitStep(u: nat, v: nat, p: nat, q: nat)
    requires p < 16 && q < 16
    ensures Xor(16 * u + p, 16 * v + q) == 16 * Xor(u, v) + Digit(p, q)
  {
    hide Xor, Pair, Digit;
    DigitPairs(p, q);
    PairStep(u, v, High(p), High(q));
    PairStep(4 * u + High(p), 4 * v + High(q), Low(Low(p, 8), 4), Low(Low(q, 8), 4));
  }

  /** Four digits below u and v. */
  lemma Hex4(u: nat, v: nat, p3: nat, p2: nat, p1: nat, p0: nat, q3: nat, q2: nat, q1: nat, q0: nat)
    requires p3 < 16 && p2 < 16 && p1 < 16 && p0 < 16 && q3 < 16 && q2 < 16 && q1 < 16 && q0 < 16
    ensures Xor(0x1_0000 * u + 0x1000 * p3 + 0x100 * p2 + 0x10 * p1 + p0, 0x1_0000 * v + 0x1000 * q3 + 0x100 * q2 + 0x10 * q1 + q0)
      == 0x1_0000 * Xor(u, v) + 0x1000 * Digit(p3, q3) + 0x100 * Digit(p2, q2) + 0x10 * Digit(p1, q1) + Digit(p0, q0)
  {
    hide Xor, Digit;
    DigitStep(u, v, p3, q3);
    DigitStep(16 * u + p3, 16 * v + q3, p2, q2);
    DigitStep(0x100 * u + 0x10 * p3 + p2, 0x100 * v + 0x10 * q3 + q2, p1, q1);
    DigitStep(0x1000 * u + 0x100 * p3 + 0x10 * p2 + p1, 0x1000 * v + 0x100 * q3 + 0x10 * q2 + q1, p0, q0);
  }
}
