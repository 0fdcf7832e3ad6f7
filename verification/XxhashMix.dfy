/** The mixing steps of XXH64 lose nothing: each is injective in what it mixes, and so is the hash in its seed and in a short input. */
module XxhashMix {
  import opened Arith
  import opened Xxhash
  import Gf

  // ------------------------------------------------------------------ word arithmetic

  lemma {:induction false} ShlIs(x: nat, r: nat)
    ensures Shl(x, r) == x * Exp2(r)
    decreases r
  {
    if r > 0 { ShlIs(x, r - 1); }
  }

  lemma {:induction false} ShrIs(x: nat, r: nat)
    ensures Shr(x, r) == x / Exp2(r)
    decreases r
  {
    if r > 0 {
      ShrIs(x, r - 1);
      HalfDiv(x, Exp2(r - 1));
    }
  }

  lemma HalfDiv(x: nat, m: nat)
    requires m > 0
    ensures x / m / 2 == x / (2 * m)
  {
    var q := x / m / 2;
    DivRange(x, m, x / m);
    MulLess(2 * q, x / m, m);
    MulLess(x / m + 1, 2 * q + 2, m);
    assert (2 * q) * m == q * (2 * m) && (2 * q + 2) * m == (q + 1) * (2 * m);
    DivRange(x, 2 * m, q);
  }

  lemma {:induction false} ExpSum(a: nat, b: nat)
    ensures Exp2(a + b) == Exp2(a) * Exp2(b)
    decreases a
  {
    if a > 0 { ExpSum(a - 1, b); }
  }

  /** A rotation by r moves the r top bits below the others. */
  lemma Rot(x: U64, r: nat, w: nat, v: nat, hi: nat, lo: nat)
    requires 0 < r < 64 && w == Exp2(r) && v == Exp2(64 - r) && w * v == 0x1_0000_0000_0000_0000
    requires x == hi * v + lo && lo < v && hi < w
    ensures Rotl(x, r) == lo * w + hi
  {
    hide Exp2, Shl, Shr, Wrap;
    ShlIs(x, r);
    ShrIs(x, 64 - r);
    Distribute(hi, 1, v);
    DivRange(x, v, hi);
    assert x * w == hi * (w * v) + lo * w by { Distribute(hi * v, lo, w); assert hi * v * w == hi * (w * v); }
    MulLess(lo + 1, v, w);
    Distribute(lo, 1, w);
    WrapAt(hi, lo * w + hi);
  }

  lemma WrapAt(k: nat, y: U64)
    ensures Wrap(k * 0x1_0000_0000_0000_0000 + y) == y
  {
    DivRange(k * 0x1_0000_0000_0000_0000 + y, 0x1_0000_0000_0000_0000, k);
  }

  lemma LeStep(s: seq<U8>)
    requires |s| > 0
    ensures Le(s) == s[0] + 256 * Le(s[1..])
  {}

  lemma LeNone()
    ensures Le([]) == 0
  {}

  lemma Exp64()
    ensures Exp2(64) == 0x1_0000_0000_0000_0000
  {
    hide Exp2;
    Exp8();
    ExpSum(8, 8);
    ExpSum(16, 16);
    ExpSum(32, 32);
  }

  lemma Exp8()
    ensures Exp2(8) == 256
  {
    assert Exp2(4) == 16;
  }

  // ----------------------------------------------------------------------- injectivity

  /** A rotation can be read back: the two parts of the word are the quotient and the remainder of the result. */
  lemma RotlInjective(x: U64, y: U64, r: nat)
    requires 0 < r < 64 && Rotl(x, r) == Rotl(y, r)
    ensures x == y
  {
    hide Rotl, Exp2;
    var w, v := Exp2(r), Exp2(64 - r);
    var xh, xl := Rotated(x, r, w, v);
    var yh, yl := Rotated(y, r, w, v);
    SameParts(xl, xh, yl, yh, w);
  }

  lemma Rotated(x: U64, r: nat, w: nat, v: nat) returns (hi: nat, lo: nat)
    requires 0 < r < 64 && w == Exp2(r) && v == Exp2(64 - r)
    ensures x == hi * v + lo && hi < w && Rotl(x, r) == lo * w + hi
  {
    hide Rotl, Exp2;
    ExpSum(r, 64 - r);
    Exp64();
    Parts(x, w, v);
    hi, lo := x / v, x % v;
    Rot(x, r, w, v, hi, lo);
  }

  lemma Parts(x: U64, w: nat, v: nat)
    requires w > 0 && v > 0 && w * v == 0x1_0000_0000_0000_0000
    ensures x == (x / v) * v + x % v && x / v < w
  {
    if x / v >= w { MulLess(w, x / v, v); }
  }

  lemma SameParts(a: nat, b: nat, c: nat, d: nat, w: nat)
    requires b < w && d < w && a * w + b == c * w + d
    ensures a == c && b == d
  {
    Distribute(a, 1, w);
    Distribute(c, 1, w);
    DivRange(a * w + b, w, a);
    DivRange(a * w + b, w, c);
  }

  lemma PlusInjective(a: U64, b: U64, c: U64)
    requires Plus(a, c) == Plus(b, c)
    ensures a == b
  {}

  /** Multiplying by an odd constant is undone by multiplying by its inverse. */
  lemma Undo(a: U64, p: U64, inverse: U64, k: nat)
    requires p * inverse == k * 0x1_0000_0000_0000_0000 + 1
    ensures Times(Times(a, p), inverse) == a
  {
    hide Wrap;
    var q, t := (a * p) / 0x1_0000_0000_0000_0000, Times(a, p);
    WrapSplit(a * p);
    assert t * inverse == a * p * inverse - q * 0x1_0000_0000_0000_0000 * inverse by { Minus(a * p, q * 0x1_0000_0000_0000_0000, inverse); }
    assert a * p * inverse == a * (p * inverse);
    assert a * (k * 0x1_0000_0000_0000_0000 + 1) == a * k * 0x1_0000_0000_0000_0000 + a;
    assert q * 0x1_0000_0000_0000_0000 * inverse == q * inverse * 0x1_0000_0000_0000_0000;
    WrapBelow(a * k - q * inverse, a);
  }

  lemma WrapSplit(x: nat)
    ensures x == (x / 0x1_0000_0000_0000_0000) * 0x1_0000_0000_0000_0000 + Wrap(x)
  {}

  lemma Minus(a: int, b: int, m: int)
    ensures (a - b) * m == a * m - b * m
  {}

  lemma WrapBelow(k: int, y: U64)
    ensures Wrap(k * 0x1_0000_0000_0000_0000 + y) == y
  {}

  lemma Prime1(a: U64)
    ensures Times(Times(a, PRIME64_1), 0x887_4934_32ba_db37) == a
  {
    hide Times;
    Undo(a, PRIME64_1, 0x887_4934_32ba_db37, 0x545_584c_cd1f_a67a);
  }

  lemma Prime2(a: U64)
    ensures Times(Times(a, PRIME64_2), 0xba7_9078_168d_4baf) == a
  {
    hide Times;
    Undo(a, PRIME64_2, 0xba7_9078_168d_4baf, 0x8dd_1dec_2186_0607);
  }

  lemma Prime3(a: U64)
    ensures Times(Times(a, PRIME64_3), 0xe9e9_f4c4_1d6d_f849) == a
  {
    hide Times;
    Undo(a, PRIME64_3, 0xe9e9_f4c4_1d6d_f849, 0x1469_0e60_8137_8f7f);
  }

  lemma Prime5(a: U64)
    ensures Times(Times(a, PRIME64_5), 0xc592_c09f_dfba_7f0d) == a
  {
    hide Times;
    Undo(a, PRIME64_5, 0xc592_c09f_dfba_7f0d, 0x1ebd_ae61_ed7c_1b77);
  }

  lemma ExorIs(a: U64, b: U64)
    ensures Exor(a, b) == Gf.Xor(a, b)
  {
    hide Gf.Xor, Exp2;
    Exp64();
    Gf.XorBound(a, b, 64);
    WrapSmall(Gf.Xor(a, b));
  }

  lemma ExorInjective(a: U64, b: U64, c: U64)
    ensures Exor(a, c) == Exor(b, c) ==> a == b
    ensures Exor(c, a) == Exor(c, b) ==> a == b
  {
    hide Gf.Xor, Exor;
    ExorIs(a, c);
    ExorIs(b, c);
    ExorIs(c, a);
    ExorIs(c, b);
    Gf.XorComm(a, c);
    Gf.XorComm(b, c);
    Gf.XorAssoc(a, c, c);
    Gf.XorAssoc(b, c, c);
    Gf.XorZero(a);
    Gf.XorZero(b);
    Gf.XorZero(c);
  }

  lemma {:induction false} ShrXor(a: nat, b: nat, r: nat)
    ensures Shr(Gf.Xor(a, b), r) == Gf.Xor(Shr(a, r), Shr(b, r))
    decreases r
  {
    hide Gf.Xor;
    if r > 0 {
      ShrXor(a, b, r - 1);
      Gf.XorStep(Shr(a, r - 1), Shr(b, r - 1));
    }
  }

  lemma {:induction false} ShrSmaller(c: nat, r: nat)
    ensures Shr(c, r) <= c && (r > 0 && c > 0 ==> Shr(c, r) < c)
    decreases r
  {
    if r > 0 { ShrSmaller(c, r - 1); }
  }

  /** A word that differs from another differs from it after both are mixed with their own high bits. */
  lemma ShiftInjective(a: nat, b: nat, r: nat)
    requires r > 0 && Gf.Xor(a, Shr(a, r)) == Gf.Xor(b, Shr(b, r))
    ensures a == b
  {
    hide Gf.Xor, Shr;
    var c := Gf.Xor(a, b);
    ShrXor(a, b, r);
    Swap(a, Shr(a, r), b, Shr(b, r));
    ShrSmaller(c, r);
    Gf.XorAssoc(a, b, b);
    Gf.XorZero(a);
    Gf.XorZero(b);
    Gf.XorComm(0, b);
  }

  lemma Swap(a: nat, u: nat, b: nat, v: nat)
    requires Gf.Xor(a, u) == Gf.Xor(b, v)
    ensures Gf.Xor(a, b) == Gf.Xor(u, v)
  {
    hide Gf.Xor;
    Gf.XorAssoc(a, u, u);
    Gf.XorZero(u);
    Gf.XorZero(a);
    assert a == Gf.Xor(Gf.Xor(b, v), u);
    Gf.XorComm(a, b);
    Gf.XorAssoc(b, Gf.Xor(b, v), u);
    Gf.XorAssoc(b, b, v);
    Gf.XorZero(b);
    Gf.XorZero(v);
    Gf.XorComm(0, v);
    Gf.XorComm(u, v);
  }

  lemma ShiftedInjective(a: U64, b: U64, r: nat)
    requires r > 0 && Exor(a, Wrap(Shr(a, r))) == Exor(b, Wrap(Shr(b, r)))
    ensures a == b
  {
    hide Gf.Xor, Shr, Exor, Wrap;
    ShrSmaller(a, r);
    ShrSmaller(b, r);
    WrapSmall(Shr(a, r));
    WrapSmall(Shr(b, r));
    ExorIs(a, Shr(a, r));
    ExorIs(b, Shr(b, r));
    ShiftInjective(a, b, r);
  }

  /** xxh64_avalanche is injective: different states never meet in the last step. */
  lemma AvalancheInjective(a: U64, b: U64)
    requires Avalanche(a) == Avalanche(b)
    ensures a == b
  {
    hide Exor, Shr, Times, Wrap;
    var a1, b1 := Times(Exor(a, Wrap(Shr(a, 33))), PRIME64_2), Times(Exor(b, Wrap(Shr(b, 33))), PRIME64_2);
    var a2, b2 := Times(Exor(a1, Wrap(Shr(a1, 29))), PRIME64_3), Times(Exor(b1, Wrap(Shr(b1, 29))), PRIME64_3);
    ShiftedInjective(a2, b2, 32);
    Prime3(Exor(a1, Wrap(Shr(a1, 29))));
    Prime3(Exor(b1, Wrap(Shr(b1, 29))));
    ShiftedInjective(a1, b1, 29);
    Prime2(Exor(a, Wrap(Shr(a, 33))));
    Prime2(Exor(b, Wrap(Shr(b, 33))));
    ShiftedInjective(a, b, 33);
  }

  /** xxh64_round is injective in the accumulator, and in the input. */
  lemma RoundInjective(a: U64, x: U64, b: U64, y: U64)
    requires Round(a, x) == Round(b, y)
    ensures x == y ==> a == b
    ensures a == b ==> x == y
  {
    hide Rotl, Times, Plus;
    var s, t := Plus(a, Times(x, PRIME64_2)), Plus(b, Times(y, PRIME64_2));
    Prime1(Rotl(s, 31));
    Prime1(Rotl(t, 31));
    RotlInjective(s, t, 31);
    if x == y {
      PlusInjective(a, b, Times(x, PRIME64_2));
    }
    if a == b {
      PlusComm(a, Times(x, PRIME64_2));
      PlusComm(a, Times(y, PRIME64_2));
      PlusInjective(Times(x, PRIME64_2), Times(y, PRIME64_2), a);
      Prime2(x);
      Prime2(y);
    }
  }

  lemma PlusComm(a: U64, b: U64)
    ensures Plus(a, b) == Plus(b, a)
  {}

  /** xxh64_merge_round is injective in the accumulator, and in the lane. */
  lemma MergeRoundInjective(a: U64, x: U64, b: U64, y: U64)
    requires MergeRound(a, x) == MergeRound(b, y)
    ensures x == y ==> a == b
    ensures a == b ==> x == y
  {
    hide Exor, Times, Plus, Round;
    var u, w := Exor(a, Round(0, x)), Exor(b, Round(0, y));
    PlusInjective(Times(u, PRIME64_1), Times(w, PRIME64_1), PRIME64_4);
    Prime1(u);
    Prime1(w);
    if x == y { ExorInjective(a, b, Round(0, x)); }
    if a == b {
      ExorInjective(Round(0, x), Round(0, y), a);
      RoundInjective(0, x, 0, y);
    }
  }

  lemma TailWordInjective(a: U64, x: U64, b: U64, y: U64)
    requires TailWord(a, x) == TailWord(b, y)
    ensures x == y ==> a == b
    ensures a == b ==> x == y
  {
    hide Exor, Times, Plus, Round, Rotl;
    var u, w := Exor(a, Round(0, x)), Exor(b, Round(0, y));
    PlusInjective(Times(Rotl(u, 27), PRIME64_1), Times(Rotl(w, 27), PRIME64_1), PRIME64_4);
    Prime1(Rotl(u, 27));
    Prime1(Rotl(w, 27));
    RotlInjective(u, w, 27);
    if x == y { ExorInjective(a, b, Round(0, x)); }
    if a == b {
      ExorInjective(Round(0, x), Round(0, y), a);
      RoundInjective(0, x, 0, y);
    }
  }

  lemma TailHalfInjective(a: U64, x: U64, b: U64, y: U64)
    requires TailHalf(a, x) == TailHalf(b, y)
    ensures x == y ==> a == b
    ensures a == b ==> x == y
  {
    hide Exor, Times, Plus, Rotl;
    var u, w := Exor(a, Times(x, PRIME64_1)), Exor(b, Times(y, PRIME64_1));
    PlusInjective(Times(Rotl(u, 23), PRIME64_2), Times(Rotl(w, 23), PRIME64_2), PRIME64_3);
    Prime2(Rotl(u, 23));
    Prime2(Rotl(w, 23));
    RotlInjective(u, w, 23);
    if x == y { ExorInjective(a, b, Times(x, PRIME64_1)); }
    if a == b {
      ExorInjective(Times(x, PRIME64_1), Times(y, PRIME64_1), a);
      Prime1(x);
      Prime1(y);
    }
  }

  lemma TailByteInjective(a: U64, x: U8, b: U64, y: U8)
    requires TailByte(a, x) == TailByte(b, y)
    ensures x == y ==> a == b
    ensures a == b ==> x == y
  {
    hide Exor, Times, Rotl;
    var u, w := Exor(a, Times(x, PRIME64_5)), Exor(b, Times(y, PRIME64_5));
    Prime1(Rotl(u, 11));
    Prime1(Rotl(w, 11));
    RotlInjective(u, w, 11);
    if x == y { ExorInjective(a, b, Times(x, PRIME64_5)); }
    if a == b {
      ExorInjective(Times(x, PRIME64_5), Times(y, PRIME64_5), a);
      Prime5(x);
      Prime5(y);
    }
  }

  // ---------------------------------------------------------- the seed and short inputs

  lemma {:induction false} TailBytesInjective(a: U64, b: U64, rest: seq<U8>)
    requires TailBytes(a, rest) == TailBytes(b, rest)
    ensures a == b
    decreases |rest|
  {
    hide TailByte;
    if |rest| > 0 {
      TailBytesInjective(TailByte(a, rest[0]), TailByte(b, rest[0]), rest[1..]);
      TailByteInjective(a, rest[0], b, rest[0]);
    }
  }

  /** The loops over what the stripes leave are injective in the state they start from. */
  lemma {:induction false} TailInjective(a: U64, b: U64, rest: seq<U8>)
    requires Tail(a, rest) == Tail(b, rest)
    ensures a == b
    decreases |rest|
  {
    hide TailWord, TailHalf, TailByte, TailBytes, Word;
    if |rest| >= 8 {
      var k := Word(rest, 0, 8);
      TailInjective(TailWord(a, k), TailWord(b, k), rest[8..]);
      TailWordInjective(a, k, b, k);
    } else if |rest| >= 4 {
      var k := Word(rest, 0, 4);
      TailBytesInjective(TailHalf(a, k), TailHalf(b, k), rest[4..]);
      TailHalfInjective(a, k, b, k);
    } else {
      TailBytesInjective(a, b, rest);
    }
  }

  /** Different seeds give different hashes of the same input below 32 bytes. */
  lemma SeedInjective(s: U64, t: U64, data: seq<U8>)
    requires |data| < 32 && Hash(s, data) == Hash(t, data)
    ensures s == t
  {
    hide Avalanche, Tail, Plus, Wrap, Stripes, Merge;
    var n, rest := Wrap(|data|), data[Whole(|data|)..];
    var a, b := Plus(s, PRIME64_5), Plus(t, PRIME64_5);
    AvalancheInjective(Tail(Plus(a, n), rest), Tail(Plus(b, n), rest));
    TailInjective(Plus(a, n), Plus(b, n), rest);
    PlusInjective(a, b, n);
    PlusInjective(s, t, PRIME64_5);
  }

  lemma {:induction false} LeInjective(a: seq<U8>, b: seq<U8>)
    requires |a| == |b| && Le(a) == Le(b)
    ensures a == b
    decreases |a|
  {
    if |a| > 0 {
      LeInjective(a[1..], b[1..]);
      assert a == [a[0]] + a[1..] && b == [b[0]] + b[1..];
    }
  }

  lemma {:induction false} LeBound(a: seq<U8>, n: nat)
    requires |a| <= n
    ensures Le(a) < Exp2(8 * n)
    decreases n
  {
    if |a| > 0 {
      hide Exp2;
      LeBound(a[1..], n - 1);
      Exp8();
      ExpSum(8, 8 * (n - 1));
    }
  }

  lemma WordInjective(a: seq<U8>, b: seq<U8>)
    requires |a| >= 8 && |b| >= 8 && Word(a, 0, 8) == Word(b, 0, 8)
    ensures a[..8] == b[..8]
  {
    hide Le, Exp2;
    Exp64();
    LeBound(a[0..8], 8);
    LeBound(b[0..8], 8);
    WrapSmall(Le(a[0..8]));
    WrapSmall(Le(b[0..8]));
    LeInjective(a[0..8], b[0..8]);
    assert a[0..8] == a[..8] && b[0..8] == b[..8];
  }

  /** Inputs of one length below 32 bytes that differ only in their first word have different hashes. */
  lemma WordsDiffer(seed: U64, a: seq<U8>, b: seq<U8>)
    requires 8 <= |a| == |b| < 32 && a[8..] == b[8..] && Hash(seed, a) == Hash(seed, b)
    ensures a == b
  {
    hide Avalanche, Tail, TailWord, Plus, Wrap, Stripes, Merge, Word;
    var h := Plus(Plus(seed, PRIME64_5), Wrap(|a|));
    assert a[Whole(|a|)..] == a[0..] == a && b[Whole(|a|)..] == b[0..] == b;
    AvalancheInjective(Tail(h, a), Tail(h, b));
    TailStep(h, a, 0);
    TailStep(h, b, 0);
    TailInjective(TailWord(h, Word(a, 0, 8)), TailWord(h, Word(b, 0, 8)), a[8..]);
    TailWordInjective(h, Word(a, 0, 8), h, Word(b, 0, 8));
    WordInjective(a, b);
    assert a == a[..8] + a[8..] && b == b[..8] + b[8..];
  }
}
