/** The branch-free parent() of linux/sort.c on byte offsets, with 64-bit masks and a 32-bit lsbit. */
module SortBits {
  import opened Arith

  function And(a: nat, b: nat): nat
    decreases a
  {
    if a == 0 || b == 0 then 0 else 2 * And(a / 2, b / 2) + (a % 2) * (b % 2)
  }

  /** Unsigned negation in n bits. */
  function Neg(x: nat, n: nat): nat
    requires x < Exp2(n)
  {
    if x == 0 then 0 else Exp2(n) - x
  }

  lemma AndStep(a: nat, b: nat, p: bool, q: bool)
    ensures And(2 * a + One(p), 2 * b + One(q)) == 2 * And(a, b) + One(p && q)
  {}

  function One(b: bool): nat { if b then 1 else 0 }

  /** A number and its complement share no bit. */
  lemma {:induction false} AndComplement(x: nat, n: nat)
    requires x < Exp2(n)
    ensures And(x, Exp2(n) - 1 - x) == 0
    decreases n
  {
    if n > 0 {
      AndComplement(x / 2, n - 1);
      var odd := x % 2 == 1;
      AndStep(x / 2, Exp2(n - 1) - 1 - x / 2, odd, !odd);
    }
  }

  /** All ones keep every bit. */
  lemma {:induction false} AndOnes(x: nat, n: nat)
    requires x < Exp2(n)
    ensures And(x, Exp2(n) - 1) == x
    decreases n
  {
    if n > 0 {
      AndOnes(x / 2, n - 1);
      AndStep(x / 2, Exp2(n - 1) - 1, x % 2 == 1, true);
    }
  }

  /** The lowest set bit, as a power of two. */
  function LowBit(size: nat): (e: nat)
    requires size > 0
  {
    if size % 2 == 1 then 0 else 1 + LowBit(size / 2)
  }

  /** size & -size is the lowest set bit. */
  lemma {:induction false} LowBitMask(size: nat, n: nat)
    requires 0 < size < Exp2(n)
    ensures And(size, Exp2(n) - size) == Exp2(LowBit(size))
    decreases n
  {
    var h, odd := size / 2, size % 2 == 1;
    if odd {
      AndComplement(h, n - 1);
      AndStep(h, Exp2(n - 1) - 1 - h, true, true);
    } else {
      LowBitMask(h, n - 1);
      AndStep(h, Exp2(n - 1) - h, false, false);
    }
  }

  /** Masking a multiple of 2^e with the mask above 2^e keeps it. */
  lemma {:induction false} AndAbove(size: nat, e: nat, n: nat)
    requires e <= n && 0 < size < Exp2(n) && e <= LowBit(size)
    ensures Exp2(e) <= Exp2(n) && And(size, Exp2(n) - Exp2(e)) == size
    decreases e
  {
    if e == 0 {
      AndOnes(size, n);
    } else {
      LowBitMask(size, n);
      AndAbove(size / 2, e - 1, n - 1);
      AndStep(size / 2, Exp2(n - 1) - Exp2(e - 1), false, false);
    }
  }

  /** Bit e of a multiple of size, when e is size's lowest bit, is the parity of the multiple. */
  lemma {:induction false} MultipleBit(j: nat, size: nat)
    requires size > 0
    ensures And(j * size, Exp2(LowBit(size))) == if j % 2 == 1 then Exp2(LowBit(size)) else 0
    decreases size
  {
    var h := size / 2;
    if size % 2 == 1 {
      OddTimes(j, size);
      var x := j * size;
      AndStep(x / 2, 0, x % 2 == 1, true);
    } else {
      MultipleBit(j, h);
      assert j * size == 2 * (j * h) by { Halve(j, size, h); }
      AndStep(j * h, Exp2(LowBit(h)), false, false);
    }
  }

  lemma Halve(j: nat, size: nat, h: nat)
    requires size == 2 * h
    ensures j * size == 2 * (j * h)
  {}

  lemma {:induction false} OddTimes(j: nat, size: nat)
    requires size % 2 == 1
    ensures (j * size) % 2 == j % 2
    decreases j
  {
    if j > 0 {
      OddTimes(j - 1, size);
      LessOne(j, size);
      OddStep((j - 1) * size, size, j - 1);
    }
  }

  lemma OddStep(x: nat, size: nat, j: nat)
    requires size % 2 == 1 && x % 2 == j % 2
    ensures (x + size) % 2 == (j + 1) % 2
  {}

  lemma {:induction false} LowBitBound(size: nat, n: nat)
    requires 0 < size < Exp2(n)
    ensures LowBit(size) < n && Exp2(LowBit(size)) <= size
    decreases n
  {
    if size % 2 == 0 { LowBitBound(size / 2, n - 1); }
  }

  // ------------------------------------------------------------------- parent()

  /** size & -size, truncated to unsigned int. */
  function LsBit(size: nat): nat
    requires size < Exp2(64)
  {
    And(size, Neg(size, 64)) % 0x1_0000_0000
  }

  /** i -= size; i -= size & -(i & lsbit); return i / 2. */
  function Parent(i: nat, lsbit: nat, size: nat): int
    requires size <= i && And(i - size, lsbit) < Exp2(64)
  {
    var i1 := i - size;
    (i1 - And(size, Neg(And(i1, lsbit), 64))) / 2
  }

  lemma {:induction false} ExpMonotone(a: nat, b: nat)
    requires a <= b
    ensures Exp2(a) <= Exp2(b)
    decreases b - a
  {
    if a < b { ExpMonotone(a, b - 1); }
  }

  lemma Exp31()
    ensures Exp2(31) == 0x8000_0000 && Exp2(32) == 0x1_0000_0000
  {
    assert Exp2(4) == 16;
    assert Exp2(8) == 256;
    assert Exp2(12) == 0x1000;
    assert Exp2(16) == 0x1_0000;
    assert Exp2(20) == 0x10_0000;
    assert Exp2(24) == 0x100_0000;
    assert Exp2(28) == 0x1000_0000;
  }

  lemma {:induction false} HighMod(e: nat)
    requires e >= 32
    ensures Exp2(e) % 0x1_0000_0000 == 0
    decreases e
  {
    if e == 32 { Exp31(); } else { HighMod(e - 1); }
  }

  /** The truncation loses the bit exactly when it lies above the low 32. */
  lemma LsBitIs(size: nat)
    requires 0 < size < Exp2(64)
    ensures LsBit(size) == if LowBit(size) < 32 then Exp2(LowBit(size)) else 0
  {
    hide And, Exp2;
    LowBitMask(size, 64);
    var e := LowBit(size);
    if e < 32 {
      ExpMonotone(e, 31);
      Exp31();
    } else {
      HighMod(e);
    }
  }

  lemma {:induction false} LowBitFactor(size: nat, e: nat) returns (k: nat)
    requires size > 0 && e <= LowBit(size)
    ensures size == Exp2(e) * k
    decreases e
  {
    if e == 0 {
      k := size;
    } else {
      k := LowBitFactor(size / 2, e - 1);
      Halve(k, Exp2(e), Exp2(e - 1));
    }
  }

  lemma {:induction false} LowBitTimes(k: nat, e: nat)
    requires k > 0
    ensures Exp2(e) * k > 0 && LowBit(Exp2(e) * k) >= e
    decreases e
  {
    if e > 0 {
      LowBitTimes(k, e - 1);
      TimesDouble(Exp2(e - 1), k);
      LowBitDouble(Exp2(e - 1) * k);
    }
  }

  lemma TimesDouble(a: nat, k: nat)
    ensures (2 * a) * k == 2 * (a * k)
  {}

  lemma LowBitDouble(x: nat)
    requires x > 0
    ensures LowBit(2 * x) == 1 + LowBit(x)
  {}

  /** In the caller's terms: size is a multiple of 2^32. */
  lemma LowBitHigh(size: nat)
    requires size > 0
    ensures LowBit(size) >= 32 <==> size % 0x1_0000_0000 == 0
  {
    Exp31();
    hide Exp2, LowBit;
    if LowBit(size) >= 32 {
      var k := LowBitFactor(size, 32);
    }
    if size % 0x1_0000_0000 == 0 {
      LowBitTimes(size / 0x1_0000_0000, 32);
    }
  }

  lemma LowBitAnd(size: nat, j: nat)
    requires 0 < size < Exp2(64)
    ensures And(j * size, LsBit(size)) < Exp2(64)
    ensures LowBit(size) < 32 ==>
      And(size, Neg(And(j * size, LsBit(size)), 64)) == if j % 2 == 1 then size else 0
    ensures LowBit(size) >= 32 ==> And(size, Neg(And(j * size, LsBit(size)), 64)) == 0
  {
    hide And, Exp2, LowBit, LsBit;
    LsBitIs(size);
    LowBitBound(size, 64);
    AndZero(j * size);
    AndZero(size);
    MultipleBit(j, size);
    AndAbove(size, LowBit(size), 64);
    ExpPositive();
  }

  lemma ExpPositive()
    ensures Exp2(64) > 0
  {}

  lemma AndZero(a: nat)
    ensures And(a, 0) == 0
  {}

  /** parent() of element j >= 1 is element (j - 1) / 2, whatever the size, unless the size is a multiple of 2^32. */
  lemma ParentIs(j: nat, size: nat, i: nat)
    requires 0 < size < Exp2(64) && j >= 1 && i == j * size && i >= size && size % 0x1_0000_0000 != 0
    ensures And(i - size, LsBit(size)) < Exp2(64)
    ensures Parent(i, LsBit(size), size) == ((j - 1) / 2) * size
  {
    hide And, Exp2, LsBit, LowBit, Neg;
    LowBitHigh(size);
    LowBitAnd(size, j - 1);
    LessOne(j, size);
    var h := (j - 1) / 2;
    if (j - 1) % 2 == 1 {
      assert j - 1 == 2 * h + 1;
      TwiceTimes(h, size);
    } else {
      assert j - 1 == 2 * h;
      TwiceTimes(h, size);
    }
  }

  lemma LessOne(j: nat, size: nat)
    requires j >= 1
    ensures j * size - size == (j - 1) * size
  {}

  lemma TwiceTimes(h: nat, size: nat)
    ensures (2 * h) * size == 2 * (h * size) && (2 * h + 1) * size == 2 * (h * size) + size
  {}

  /** For such a size lsbit is 0, and parent() halves the offset of the element before j. */
  lemma ParentBroken(j: nat, size: nat, i: nat)
    requires 0 < size < Exp2(64) && j >= 1 && i == j * size && i >= size && size % 0x1_0000_0000 == 0
    ensures And(i - size, LsBit(size)) < Exp2(64)
    ensures Parent(i, LsBit(size), size) == ((j - 1) * size) / 2
  {
    hide And, Exp2, LsBit, LowBit, Neg;
    LowBitHigh(size);
    LowBitAnd(size, j - 1);
    LessOne(j, size);
  }

  /** That is the offset of (j - 1) / 2 exactly for odd j. */
  lemma ParentIff(j: nat, size: nat, i: nat)
    requires 0 < size < Exp2(64) && j >= 1 && i == j * size && i >= size
    ensures And(i - size, LsBit(size)) < Exp2(64)
    ensures Parent(i, LsBit(size), size) == ((j - 1) / 2) * size <==> size % 0x1_0000_0000 != 0 || j % 2 == 1
  {
    hide And, Exp2, LsBit, LowBit, Neg, Parent;
    if size % 0x1_0000_0000 != 0 { ParentIs(j, size, i); } else {
      ParentBroken(j, size, i);
      var h := (j - 1) / 2;
      TwiceTimes(h, size);
      assert j - 1 == 2 * h || j - 1 == 2 * h + 1;
    }
  }
}
