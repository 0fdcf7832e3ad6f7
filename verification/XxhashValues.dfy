/**
 * XXH64 of particular strings, worked out operation by operation: each lemma below is one operation of the algorithm at
 * the words it meets, an exclusive or four hexadecimal digits at a time.
 */
module XxhashValues {
  import opened Arith
  import opened Digits
  import opened Xxhash
  import opened XxhashMix
  import Gf

  /** The bytes 0, 1, .., n - 1. */
  function Counting(n: nat): (s: seq<U8>)
    requires n <= 256
    ensures |s| == n && forall i | 0 <= i < n :: s[i] == i
  {
    seq(n, i requires 0 <= i < n => i)
  }

  lemma Weights()
    ensures Exp2(1) == 2 && Exp2(7) == 0x80 && Exp2(11) == 0x800 && Exp2(12) == 0x1000 && Exp2(18) == 0x4_0000
    ensures Exp2(23) == 0x80_0000 && Exp2(27) == 0x800_0000 && Exp2(29) == 0x2000_0000 && Exp2(31) == 0x8000_0000
    ensures Exp2(32) == 0x1_0000_0000 && Exp2(33) == 0x2_0000_0000 && Exp2(37) == 0x20_0000_0000 && Exp2(41) == 0x200_0000_0000
    ensures Exp2(46) == 0x4000_0000_0000 && Exp2(52) == 0x10_0000_0000_0000 && Exp2(53) == 0x20_0000_0000_0000
    ensures Exp2(57) == 0x200_0000_0000_0000 && Exp2(63) == 0x8000_0000_0000_0000
  {
    hide Exp2;
    Weights12();
    ExpSum(7, 11);
    ExpSum(11, 12);
    ExpSum(4, 23);
    ExpSum(6, 23);
    ExpSum(8, 23);
    ExpSum(1, 31);
    ExpSum(1, 32);
    ExpSum(4, 33);
    ExpSum(8, 33);
    ExpSum(5, 41);
    ExpSum(11, 41);
    ExpSum(12, 41);
    ExpSum(4, 53);
    ExpSum(6, 57);
  }

  lemma Weights12()
    ensures Exp2(1) == 2 && Exp2(4) == 16 && Exp2(5) == 32 && Exp2(6) == 64 && Exp2(7) == 128 && Exp2(8) == 256
    ensures Exp2(11) == 2048 && Exp2(12) == 4096
  {
    assert Exp2(2) == 4;
    assert Exp2(10) == 1024;
  }

  lemma Primes()
    ensures PRIME64_1 == 0x9e37_79b1_85eb_ca87 && PRIME64_2 == 0xc2b2_ae3d_27d4_eb4f && PRIME64_3 == 0x1656_67b1_9e37_79f9
    ensures PRIME64_4 == 0x85eb_ca77_c2b2_ae63 && PRIME64_5 == 0x27d4_eb2f_1656_67c5
  {}

  lemma TimesAt(a: U64, b: U64, q: nat, r: U64)
    requires a * b == q * 0x1_0000_0000_0000_0000 + r
    ensures Times(a, b) == r
  {
    hide Wrap;
    WrapAt(q, r);
  }

  lemma PlusAt(a: U64, b: U64, r: U64)
    requires a + b == r || a + b == r + 0x1_0000_0000_0000_0000
    ensures Plus(a, b) == r
  {}

  lemma ShiftAt(x: U64, r: nat, w: nat, hi: nat, lo: nat)
    requires w == Exp2(r) && x == hi * w + lo && lo < w
    ensures Wrap(Shr(x, r)) == hi
  {
    hide Exp2, Shr, Wrap;
    ShrIs(x, r);
    Distribute(hi, 1, w);
    DivRange(x, w, hi);
    ShrSmaller(x, r);
    WrapSmall(hi);
  }

  // Each operation, from the values of its parts.

  lemma AvalancheAt(h: U64, a1: U64, h1: U64, a2: U64, h2: U64, c: U64)
    requires Exor(h, Wrap(Shr(h, 33))) == a1 && Times(a1, PRIME64_2) == h1
    requires Exor(h1, Wrap(Shr(h1, 29))) == a2 && Times(a2, PRIME64_3) == h2 && Exor(h2, Wrap(Shr(h2, 32))) == c
    ensures Avalanche(h) == c
  {
    hide Exor, Shr, Wrap, Times;
  }

  lemma RoundAt(acc: U64, input: U64, m: U64, s: U64, t: U64, o: U64)
    requires Times(input, PRIME64_2) == m && Plus(acc, m) == s && Rotl(s, 31) == t && Times(t, PRIME64_1) == o
    ensures Round(acc, input) == o
  {
    hide Times, Plus, Rotl;
  }

  lemma MergeAt(acc: U64, val: U64, r: U64, x: U64, t: U64, o: U64)
    requires Round(0, val) == r && Exor(acc, r) == x && Times(x, PRIME64_1) == t && Plus(t, PRIME64_4) == o
    ensures MergeRound(acc, val) == o
  {
    hide Round, Exor, Times, Plus;
  }

  lemma ByteAt(h: U64, b: U8, k: U64, x: U64, r: U64, o: U64)
    requires Times(b, PRIME64_5) == k && Exor(h, k) == x && Rotl(x, 11) == r && Times(r, PRIME64_1) == o
    ensures TailByte(h, b) == o
  {
    hide Times, Exor, Rotl;
  }

  lemma HalfAt(h: U64, k: U64, m: U64, x: U64, r: U64, t: U64, o: U64)
    requires Times(k, PRIME64_1) == m && Exor(h, m) == x && Rotl(x, 23) == r && Times(r, PRIME64_2) == t && Plus(t, PRIME64_3) == o
    ensures TailHalf(h, k) == o
  {
    hide Times, Exor, Rotl, Plus;
  }

  lemma WordAt(h: U64, k: U64, m: U64, x: U64, r: U64, t: U64, o: U64)
    requires Round(0, k) == m && Exor(h, m) == x && Rotl(x, 27) == r && Times(r, PRIME64_1) == t && Plus(t, PRIME64_4) == o
    ensures TailWord(h, k) == o
  {
    hide Round, Times, Exor, Rotl, Plus;
  }

  lemma Le4(b: nat)
    requires b + 4 <= 256
    ensures Le([b, b + 1, b + 2, b + 3]) == 0x101_0101 * b + 0x302_0100
  {
    hide Le;
    var s: seq<U8> := [b, b + 1, b + 2, b + 3];
    LeNone();
    LeStep(s);
    assert s[1..] == [b + 1, b + 2, b + 3];
    LeStep([b + 1, b + 2, b + 3]);
    assert [b + 1, b + 2, b + 3][1..] == [b + 2, b + 3];
    LeStep([b + 2, b + 3]);
    assert [b + 2, b + 3][1..] == [b + 3];
    LeStep([b + 3]);
    assert [b + 3][1..] == [];
  }

  lemma LeMore(s: seq<U8>, t: seq<U8>)
    requires |s| == 4
    ensures Le(s + t) == Le(s) + 0x1_0000_0000 * Le(t)
  {
    hide Le;
    LeNone();
    LeStep(s + t);
    LeStep(s);
    assert (s + t)[1..] == s[1..] + t;
    LeStep(s[1..] + t);
    LeStep(s[1..]);
    assert (s[1..] + t)[1..] == s[2..] + t && s[1..][1..] == s[2..];
    LeStep(s[2..] + t);
    LeStep(s[2..]);
    assert (s[2..] + t)[1..] == s[3..] + t && s[2..][1..] == s[3..];
    LeStep(s[3..] + t);
    LeStep(s[3..]);
    assert (s[3..] + t)[1..] == t && s[3..][1..] == [];
  }

  lemma Le8(b: nat)
    requires b + 8 <= 256
    ensures Le([b, b + 1, b + 2, b + 3, b + 4, b + 5, b + 6, b + 7]) == 0x101_0101_0101_0101 * b + 0x706_0504_0302_0100
  {
    hide Le;
    Le4(b);
    Le4(b + 4);
    LeMore([b, b + 1, b + 2, b + 3], [b + 4, b + 5, b + 6, b + 7]);
    assert [b, b + 1, b + 2, b + 3] + [b + 4, b + 5, b + 6, b + 7] == [b, b + 1, b + 2, b + 3, b + 4, b + 5, b + 6, b + 7];
  }

  lemma WordCounting(p: nat)
    requires p + 8 <= 45
    ensures Word(Counting(45), p, 8) == 0x101_0101_0101_0101 * p + 0x706_0504_0302_0100
  {
    hide Le;
    Le8(p);
    assert Counting(45)[p..p + 8] == [p, p + 1, p + 2, p + 3, p + 4, p + 5, p + 6, p + 7];
  }

  lemma TailCounting(x: U64, y: U64, z: U64)
    requires TailWord(x, 0x2726_2524_2322_2120) == y && TailHalf(y, 0x2b2a_2928) == z
    ensures Tail(x, Counting(45)[32..]) == TailByte(z, 44)
  {
    hide TailWord, TailHalf, TailByte, Le;
    var rest := Counting(45)[32..];
    Le8(32);
    Le4(40);
    assert rest[0..8] == [32, 33, 34, 35, 36, 37, 38, 39] && rest[8..][0..4] == [40, 41, 42, 43] && rest[8..][4..] == [44];
    assert [44][1..] == [];
  }

  // ------------------------------------------------------------------ the empty string

  lemma Xor1()
    ensures Exor(0x27d4eb2f165667c5, 0x13ea7597) == 0x27d4eb2f05bc1252
  {
    hide Gf.Xor;
    Gf.XorZero(0);
    Hex4(0, 0, 2, 7, 0xd, 4, 0, 0, 0, 0);
    Hex4(0x27d4, 0, 0xe, 0xb, 2, 0xf, 0, 0, 0, 0);
    Hex4(0x27d4eb2f, 0, 1, 6, 5, 6, 1, 3, 0xe, 0xa);
    Hex4(0x27d4eb2f1656, 0x13ea, 6, 7, 0xc, 5, 7, 5, 9, 7);
  }

  lemma Xor2()
    ensures Exor(0xbeb13dda13c2ed4e, 0x5f589eed0) == 0xbeb13ddfe64b039e
  {
    hide Gf.Xor;
    Gf.XorZero(0);
    Hex4(0, 0, 0xb, 0xe, 0xb, 1, 0, 0, 0, 0);
    Hex4(0xbeb1, 0, 3, 0xd, 0xd, 0xa, 0, 0, 0, 5);
    Hex4(0xbeb13dda, 5, 1, 3, 0xc, 2, 0xf, 5, 8, 9);
    Hex4(0xbeb13dda13c2, 0x5f589, 0xe, 0xd, 4, 0xe, 0xe, 0xe, 0xd, 0);
  }

  lemma Xor3()
    ensures Exor(0xef46db37be9e32ae, 0xef46db37) == 0xef46db3751d8e999
  {
    hide Gf.Xor;
    Gf.XorZero(0);
    Hex4(0, 0, 0xe, 0xf, 4, 6, 0, 0, 0, 0);
    Hex4(0xef46, 0, 0xd, 0xb, 3, 7, 0, 0, 0, 0);
    Hex4(0xef46db37, 0, 0xb, 0xe, 9, 0xe, 0xe, 0xf, 4, 6);
    Hex4(0xef46db37be9e, 0xef46, 3, 2, 0xa, 0xe, 0xd, 0xb, 3, 7);
  }

  lemma Avalanche1()
    ensures Avalanche(0x27d4eb2f165667c5) == 0xef46db3751d8e999
  {
    hide *;
    Primes();
    Weights();
    ShiftAt(0x27d4eb2f165667c5, 33, 0x200000000, 0x13ea7597, 0x1165667c5);
    Xor1();
    TimesAt(0x27d4eb2f05bc1252, PRIME64_2, 0x1e4b276164d31384, 0xbeb13dda13c2ed4e);
    ShiftAt(0xbeb13dda13c2ed4e, 29, 0x20000000, 0x5f589eed0, 0x13c2ed4e);
    Xor2();
    TimesAt(0xbeb13ddfe64b039e, PRIME64_3, 0x10a39819a54d6418, 0xef46db37be9e32ae);
    ShiftAt(0xef46db37be9e32ae, 32, 0x100000000, 0xef46db37, 0xbe9e32ae);
    Xor3();
    AvalancheAt(0x27d4eb2f165667c5, 0x27d4eb2f05bc1252, 0xbeb13dda13c2ed4e, 0xbeb13ddfe64b039e, 0xef46db37be9e32ae, 0xef46db3751d8e999);
  }

  lemma HashEmpty()
    ensures Hash(0, []) == 0xef46db3751d8e999
  {
    hide Avalanche;
    Avalanche1();
  }

  // ------------------------------------------------------------------------- one byte

  lemma Xor4()
    ensures Exor(0x27d4eb2f165667c6, 0x17ad1cd776bd51a5) == 0x3079f7f860eb3663
  {
    hide Gf.Xor;
    Gf.XorZero(0);
    Hex4(0, 0, 2, 7, 0xd, 4, 1, 7, 0xa, 0xd);
    Hex4(0x27d4, 0x17ad, 0xe, 0xb, 2, 0xf, 1, 0xc, 0xd, 7);
    Hex4(0x27d4eb2f, 0x17ad1cd7, 1, 6, 5, 6, 7, 6, 0xb, 0xd);
    Hex4(0x27d4eb2f1656, 0x17ad1cd776bd, 6, 7, 0xc, 6, 5, 1, 0xa, 5);
  }

  lemma Byte97()
    ensures TailByte(0x27d4eb2f165667c6, 0x61) == 0xb86597e419d4d215
  {
    hide *;
    Primes();
    Weights();
    TimesAt(0x61, PRIME64_5, 0xf, 0x17ad1cd776bd51a5);
    Xor4();
    Rot(0x3079f7f860eb3663, 11, 0x800, 0x20000000000000, 0x183, 0x19f7f860eb3663);
    TimesAt(0xcfbfc30759b31983, PRIME64_1, 0x80655f5323631a69, 0xb86597e419d4d215);
    ByteAt(0x27d4eb2f165667c6, 0x61, 0x17ad1cd776bd51a5, 0x3079f7f860eb3663, 0xcfbfc30759b31983, 0xb86597e419d4d215);
  }

  lemma Xor5()
    ensures Exor(0xb86597e419d4d215, 0x5c32cbf2) == 0xb86597e445e619e7
  {
    hide Gf.Xor;
    Gf.XorZero(0);
    Hex4(0, 0, 0xb, 8, 6, 5, 0, 0, 0, 0);
    Hex4(0xb865, 0, 9, 7, 0xe, 4, 0, 0, 0, 0);
    Hex4(0xb86597e4, 0, 1, 9, 0xd, 4, 5, 0xc, 3, 2);
    Hex4(0xb86597e419d4, 0x5c32, 0xd, 2, 1, 5, 0xc, 0xb, 0xf, 2);
  }

  lemma Xor6()
    ensures Exor(0xd7858a2670150b49, 0x6bc2c5133) == 0xd7858a20cc395a7a
  {
    hide Gf.Xor;
    Gf.XorZero(0);
    Hex4(0, 0, 0xd, 7, 8, 5, 0, 0, 0, 0);
    Hex4(0xd785, 0, 8, 0xa, 2, 6, 0, 0, 0, 6);
    Hex4(0xd7858a26, 6, 7, 0, 1, 5, 0xb, 0xc, 2, 0xc);
    Hex4(0xd7858a267015, 0x6bc2c, 0, 0xb, 4, 9, 5, 1, 3, 3);
  }

  lemma Xor7()
    ensures Exor(0xd24ec4f17bc2aaaa, 0xd24ec4f1) == 0xd24ec4f1a98c6e5b
  {
    hide Gf.Xor;
    Gf.XorZero(0);
    Hex4(0, 0, 0xd, 2, 4, 0xe, 0, 0, 0, 0);
    Hex4(0xd24e, 0, 0xc, 4, 0xf, 1, 0, 0, 0, 0);
    Hex4(0xd24ec4f1, 0, 7, 0xb, 0xc, 2, 0xd, 2, 4, 0xe);
    Hex4(0xd24ec4f17bc2, 0xd24e, 0xa, 0xa, 0xa, 0xa, 0xc, 4, 0xf, 1);
  }

  lemma Avalanche2()
    ensures Avalanche(0xb86597e419d4d215) == 0xd24ec4f1a98c6e5b
  {
    hide *;
    Primes();
    Weights();
    ShiftAt(0xb86597e419d4d215, 33, 0x200000000, 0x5c32cbf2, 0x19d4d215);
    Xor5();
    TimesAt(0xb86597e445e619e7, PRIME64_2, 0x8c3db13fb3d42a49, 0xd7858a2670150b49);
    ShiftAt(0xd7858a2670150b49, 29, 0x20000000, 0x6bc2c5133, 0x10150b49);
    Xor6();
    TimesAt(0xd7858a20cc395a7a, PRIME64_3, 0x12ce38077bac5b83, 0xd24ec4f17bc2aaaa);
    ShiftAt(0xd24ec4f17bc2aaaa, 32, 0x100000000, 0xd24ec4f1, 0x7bc2aaaa);
    Xor7();
    AvalancheAt(0xb86597e419d4d215, 0xb86597e445e619e7, 0xd7858a2670150b49, 0xd7858a20cc395a7a, 0xd24ec4f17bc2aaaa, 0xd24ec4f1a98c6e5b);
  }

  lemma HashA()
    ensures Hash(0, [0x61]) == 0xd24ec4f1a98c6e5b
  {
    hide Avalanche, TailByte;
    Byte97();
    Avalanche2();
    assert [0x61][1..] == [] && [0x61][0..] == [0x61];
  }

  // ---------------------------------------------------------------------- three bytes

  lemma Xor8()
    ensures Exor(0x27d4eb2f165667c8, 0x17ad1cd776bd51a5) == 0x3079f7f860eb366d
  {
    hide Gf.Xor;
    Gf.XorZero(0);
    Hex4(0, 0, 2, 7, 0xd, 4, 1, 7, 0xa, 0xd);
    Hex4(0x27d4, 0x17ad, 0xe, 0xb, 2, 0xf, 1, 0xc, 0xd, 7);
    Hex4(0x27d4eb2f, 0x17ad1cd7, 1, 6, 5, 6, 7, 6, 0xb, 0xd);
    Hex4(0x27d4eb2f1656, 0x17ad1cd776bd, 6, 7, 0xc, 8, 5, 1, 0xa, 5);
  }

  lemma Abc1()
    ensures TailByte(0x27d4eb2f165667c8, 0x61) == 0xe6d11bdc91f0215
  {
    hide *;
    Primes();
    Weights();
    TimesAt(0x61, PRIME64_5, 0xf, 0x17ad1cd776bd51a5);
    Xor8();
    Rot(0x3079f7f860eb366d, 11, 0x800, 0x20000000000000, 0x183, 0x19f7f860eb366d);
    TimesAt(0xcfbfc30759b36983, PRIME64_1, 0x80655f5323634bdb, 0xe6d11bdc91f0215);
    ByteAt(0x27d4eb2f165667c8, 0x61, 0x17ad1cd776bd51a5, 0x3079f7f860eb366d, 0xcfbfc30759b36983, 0xe6d11bdc91f0215);
  }

  lemma Xor9()
    ensures Exor(0xe6d11bdc91f0215, 0x3f8208068d13b96a) == 0x31ef19bb440cbb7f
  {
    hide Gf.Xor;
    Gf.XorZero(0);
    Hex4(0, 0, 0, 0xe, 6, 0xd, 3, 0xf, 8, 2);
    Hex4(0xe6d, 0x3f82, 1, 1, 0xb, 0xd, 0, 8, 0, 6);
    Hex4(0xe6d11bd, 0x3f820806, 0xc, 9, 1, 0xf, 8, 0xd, 1, 3);
    Hex4(0xe6d11bdc91f, 0x3f8208068d13, 0, 2, 1, 5, 0xb, 9, 6, 0xa);
  }

  lemma Abc2()
    ensures TailByte(0xe6d11bdc91f0215, 0x62) == 0x791983e9ab307069
  {
    hide *;
    Primes();
    Weights();
    TimesAt(0x62, PRIME64_5, 0xf, 0x3f8208068d13b96a);
    Xor9();
    Rot(0x31ef19bb440cbb7f, 11, 0x800, 0x20000000000000, 0x18f, 0xf19bb440cbb7f);
    TimesAt(0x78cdda2065dbf98f, PRIME64_1, 0x4aa93a46ed72fdb0, 0x791983e9ab307069);
    ByteAt(0xe6d11bdc91f0215, 0x62, 0x3f8208068d13b96a, 0x31ef19bb440cbb7f, 0x78cdda2065dbf98f, 0x791983e9ab307069);
  }

  lemma Xor10()
    ensures Exor(0x791983e9ab307069, 0x6756f335a36a212f) == 0x1e4f70dc085a5146
  {
    hide Gf.Xor;
    Gf.XorZero(0);
    Hex4(0, 0, 7, 9, 1, 9, 6, 7, 5, 6);
    Hex4(0x7919, 0x6756, 8, 3, 0xe, 9, 0xf, 3, 3, 5);
    Hex4(0x791983e9, 0x6756f335, 0xa, 0xb, 3, 0, 0xa, 3, 6, 0xa);
    Hex4(0x791983e9ab30, 0x6756f335a36a, 7, 0, 6, 9, 2, 1, 2, 0xf);
  }

  lemma Abc3()
    ensures TailByte(0x791983e9ab307069, 0x63) == 0xe87a46f8b9a4c39e
  {
    hide *;
    Primes();
    Weights();
    TimesAt(0x63, PRIME64_5, 0xf, 0x6756f335a36a212f);
    Xor10();
    Rot(0x1e4f70dc085a5146, 11, 0x800, 0x20000000000000, 0xf2, 0xf70dc085a5146);
    TimesAt(0x7b86e042d28a30f2, PRIME64_1, 0x4c58031bd52c02a8, 0xe87a46f8b9a4c39e);
    ByteAt(0x791983e9ab307069, 0x63, 0x6756f335a36a212f, 0x1e4f70dc085a5146, 0x7b86e042d28a30f2, 0xe87a46f8b9a4c39e);
  }

  lemma Xor11()
    ensures Exor(0xe87a46f8b9a4c39e, 0x743d237c) == 0xe87a46f8cd99e0e2
  {
    hide Gf.Xor;
    Gf.XorZero(0);
    Hex4(0, 0, 0xe, 8, 7, 0xa, 0, 0, 0, 0);
    Hex4(0xe87a, 0, 4, 6, 0xf, 8, 0, 0, 0, 0);
    Hex4(0xe87a46f8, 0, 0xb, 9, 0xa, 4, 7, 4, 3, 0xd);
    Hex4(0xe87a46f8b9a4, 0x743d, 0xc, 3, 9, 0xe, 2, 3, 7, 0xc);
  }

  lemma Xor12()
    ensures Exor(0xdfe7320e5d13dbbe, 0x6ff399072) == 0xdfe73208a22a4bcc
  {
    hide Gf.Xor;
    Gf.XorZero(0);
    Hex4(0, 0, 0xd, 0xf, 0xe, 7, 0, 0, 0, 0);
    Hex4(0xdfe7, 0, 3, 2, 0, 0xe, 0, 0, 0, 6);
    Hex4(0xdfe7320e, 6, 5, 0xd, 1, 3, 0xf, 0xf, 3, 9);
    Hex4(0xdfe7320e5d13, 0x6ff39, 0xd, 0xb, 0xb, 0xe, 9, 0, 7, 2);
  }

  lemma Xor13()
    ensures Exor(0x44bc2cf5e9cb256c, 0x44bc2cf5) == 0x44bc2cf5ad770999
  {
    hide Gf.Xor;
    Gf.XorZero(0);
    Hex4(0, 0, 4, 4, 0xb, 0xc, 0, 0, 0, 0);
    Hex4(0x44bc, 0, 2, 0xc, 0xf, 5, 0, 0, 0, 0);
    Hex4(0x44bc2cf5, 0, 0xe, 9, 0xc, 0xb, 4, 4, 0xb, 0xc);
    Hex4(0x44bc2cf5e9cb, 0x44bc, 2, 5, 6, 0xc, 2, 0xc, 0xf, 5);
  }

  lemma Avalanche3()
    ensures Avalanche(0xe87a46f8b9a4c39e) == 0x44bc2cf5ad770999
  {
    hide *;
    Primes();
    Weights();
    ShiftAt(0xe87a46f8b9a4c39e, 33, 0x200000000, 0x743d237c, 0xb9a4c39e);
    Xor11();
    TimesAt(0xe87a46f8cd99e0e2, PRIME64_2, 0xb0ceed088a599233, 0xdfe7320e5d13dbbe);
    ShiftAt(0xdfe7320e5d13dbbe, 29, 0x20000000, 0x6ff399072, 0x1d13dbbe);
    Xor12();
    TimesAt(0xdfe73208a22a4bcc, PRIME64_3, 0x138970a8eb32642b, 0x44bc2cf5e9cb256c);
    ShiftAt(0x44bc2cf5e9cb256c, 32, 0x100000000, 0x44bc2cf5, 0xe9cb256c);
    Xor13();
    AvalancheAt(0xe87a46f8b9a4c39e, 0xe87a46f8cd99e0e2, 0xdfe7320e5d13dbbe, 0xdfe73208a22a4bcc, 0x44bc2cf5e9cb256c, 0x44bc2cf5ad770999);
  }

  lemma HashAbc()
    ensures Hash(0, [0x61, 0x62, 0x63]) == 0x44bc2cf5ad770999
  {
    hide Avalanche, TailByte;
    var s: seq<U8> := [0x61, 0x62, 0x63];
    Abc1();
    Abc2();
    Abc3();
    Avalanche3();
    assert s[0..] == s && s[1..] == [0x62, 0x63] && s[1..][1..] == [0x63] && [0x63][1..] == [];
  }

  // --------------------------------------------- 45 bytes: a stripe, the merge and the tail

  lemma Round1()
    ensures Round(0x60ea27eeadc0b5d6, 0x706050403020100) == 0xf4b53b57406b5e99
  {
    hide *;
    Primes();
    Weights();
    TimesAt(0x706050403020100, PRIME64_2, 0x55776c44c014a5b, 0x3b6643cf98894f00);
    PlusAt(0x60ea27eeadc0b5d6, 0x3b6643cf98894f00, 0x9c506bbe464a04d6);
    Rot(0x9c506bbe464a04d6, 31, 0x80000000, 0x200000000, 0x4e2835df, 0x464a04d6);
    TimesAt(0x2325026b4e2835df, PRIME64_1, 0x15b875269c68990d, 0xf4b53b57406b5e99);
    RoundAt(0x60ea27eeadc0b5d6, 0x706050403020100, 0x3b6643cf98894f00, 0x9c506bbe464a04d6, 0x2325026b4e2835df, 0xf4b53b57406b5e99);
  }

  lemma Round2()
    ensures Round(0xc2b2ae3d27d4eb4f, 0xf0e0d0c0b0a0908) == 0xc3d34b511fc32561
  {
    hide *;
    Primes();
    Weights();
    TimesAt(0xf0e0d0c0b0a0908, PRIME64_2, 0xb7327e7584c3ca7, 0xfa0f577151032178);
    PlusAt(0xc2b2ae3d27d4eb4f, 0xfa0f577151032178, 0xbcc205ae78d80cc7);
    Rot(0xbcc205ae78d80cc7, 31, 0x80000000, 0x200000000, 0x5e6102d7, 0x78d80cc7);
    TimesAt(0x3c6c0663de6102d7, PRIME64_1, 0x2557c3dff8060c09, 0xc3d34b511fc32561);
    RoundAt(0xc2b2ae3d27d4eb4f, 0xf0e0d0c0b0a0908, 0xfa0f577151032178, 0xbcc205ae78d80cc7, 0x3c6c0663de6102d7, 0xc3d34b511fc32561);
  }

  lemma Round3()
    ensures Round(0, 0x1716151413121110) == 0xcb26c007c8a1553f
  {
    hide *;
    Primes();
    Weights();
    TimesAt(0x1716151413121110, PRIME64_2, 0x118ed90a64972ef4, 0xb8b86b13097cf3f0);
    PlusAt(0, 0xb8b86b13097cf3f0, 0xb8b86b13097cf3f0);
    Rot(0xb8b86b13097cf3f0, 31, 0x80000000, 0x200000000, 0x5c5c3589, 0x1097cf3f0);
    TimesAt(0x84be79f85c5c3589, PRIME64_1, 0x520a534d9226b275, 0xcb26c007c8a1553f);
    RoundAt(0, 0x1716151413121110, 0xb8b86b13097cf3f0, 0xb8b86b13097cf3f0, 0x84be79f85c5c3589, 0xcb26c007c8a1553f);
  }

  lemma Round4()
    ensures Round(0x61c8864e7a143579, 0x1f1e1d1c1b1a1918) == 0x9a44d001a7f91c07
  {
    hide *;
    Primes();
    Weights();
    TimesAt(0x1f1e1d1c1b1a1918, PRIME64_2, 0x17aa8a2d70e22141, 0x77617eb4c1f6c668);
    PlusAt(0x61c8864e7a143579, 0x77617eb4c1f6c668, 0xd92a05033c0afbe1);
    Rot(0xd92a05033c0afbe1, 31, 0x80000000, 0x200000000, 0x6c950281, 0x13c0afbe1);
    TimesAt(0x9e057df0ec950281, PRIME64_1, 0x61a9a206edc42571, 0x9a44d001a7f91c07);
    RoundAt(0x61c8864e7a143579, 0x1f1e1d1c1b1a1918, 0x77617eb4c1f6c668, 0xd92a05033c0afbe1, 0x9e057df0ec950281, 0x9a44d001a7f91c07);
  }

  lemma Stripe45()
    ensures Stripes(Start(0), Counting(45)) == Lanes(0xf4b53b57406b5e99, 0xc3d34b511fc32561, 0xcb26c007c8a1553f, 0x9a44d001a7f91c07)
  {
    hide Round, Word;
    WordCounting(0);
    WordCounting(8);
    WordCounting(16);
    WordCounting(24);
    Round1();
    Round2();
    Round3();
    Round4();
  }

  lemma Round5()
    ensures Round(0, 0xf4b53b57406b5e99) == 0x9cd67b4d40a72ef4
  {
    hide *;
    Primes();
    Weights();
    TimesAt(0xf4b53b57406b5e99, PRIME64_2, 0xba1c23890513bcf8, 0x5cbba4d816aca437);
    PlusAt(0, 0x5cbba4d816aca437, 0x5cbba4d816aca437);
    Rot(0x5cbba4d816aca437, 31, 0x80000000, 0x200000000, 0x2e5dd26c, 0x16aca437);
    TimesAt(0xb56521bae5dd26c, PRIME64_1, 0x701bb9c62fc8272, 0x9cd67b4d40a72ef4);
    RoundAt(0, 0xf4b53b57406b5e99, 0x5cbba4d816aca437, 0x5cbba4d816aca437, 0xb56521bae5dd26c, 0x9cd67b4d40a72ef4);
  }

  lemma Xor14()
    ensures Exor(0x7f173bace7dbd3d9, 0x9cd67b4d40a72ef4) == 0xe3c140e1a77cfd2d
  {
    hide Gf.Xor;
    Gf.XorZero(0);
    Hex4(0, 0, 7, 0xf, 1, 7, 9, 0xc, 0xd, 6);
    Hex4(0x7f17, 0x9cd6, 3, 0xb, 0xa, 0xc, 7, 0xb, 4, 0xd);
    Hex4(0x7f173bac, 0x9cd67b4d, 0xe, 7, 0xd, 0xb, 4, 0, 0xa, 7);
    Hex4(0x7f173bace7db, 0x9cd67b4d40a7, 0xd, 3, 0xd, 9, 2, 0xe, 0xf, 4);
  }

  lemma Merge1()
    ensures MergeRound(0x7f173bace7dbd3d9, 0xf4b53b57406b5e99) == 0xf4f010017eb0b31e
  {
    hide *;
    Primes();
    Round5();
    Xor14();
    TimesAt(0xe3c140e1a77cfd2d, PRIME64_1, 0x8cc2a0d47d47d195, 0x6f044589bbfe04bb);
    PlusAt(0x6f044589bbfe04bb, PRIME64_4, 0xf4f010017eb0b31e);
    MergeAt(0x7f173bace7dbd3d9, 0xf4b53b57406b5e99, 0x9cd67b4d40a72ef4, 0xe3c140e1a77cfd2d, 0x6f044589bbfe04bb, 0xf4f010017eb0b31e);
  }

  lemma Round6()
    ensures Round(0, 0xc3d34b511fc32561) == 0xdd60fe6790f3f09b
  {
    hide *;
    Primes();
    Weights();
    TimesAt(0xc3d34b511fc32561, PRIME64_2, 0x94eecd463d7c1d61, 0xd3b6949aabdc93ef);
    PlusAt(0, 0xd3b6949aabdc93ef, 0xd3b6949aabdc93ef);
    Rot(0xd3b6949aabdc93ef, 31, 0x80000000, 0x200000000, 0x69db4a4d, 0xabdc93ef);
    TimesAt(0x55ee49f7e9db4a4d, PRIME64_1, 0x351bb0b21e43da10, 0xdd60fe6790f3f09b);
    RoundAt(0, 0xc3d34b511fc32561, 0xd3b6949aabdc93ef, 0xd3b6949aabdc93ef, 0x55ee49f7e9db4a4d, 0xdd60fe6790f3f09b);
  }

  lemma Xor15()
    ensures Exor(0xf4f010017eb0b31e, 0xdd60fe6790f3f09b) == 0x2990ee66ee434385
  {
    hide Gf.Xor;
    Gf.XorZero(0);
    Hex4(0, 0, 0xf, 4, 0xf, 0, 0xd, 0xd, 6, 0);
    Hex4(0xf4f0, 0xdd60, 1, 0, 0, 1, 0xf, 0xe, 6, 7);
    Hex4(0xf4f01001, 0xdd60fe67, 7, 0xe, 0xb, 0, 9, 0, 0xf, 3);
    Hex4(0xf4f010017eb0, 0xdd60fe6790f3, 0xb, 3, 1, 0xe, 0xf, 0, 9, 0xb);
  }

  lemma Merge2()
    ensures MergeRound(0xf4f010017eb0b31e, 0xc3d34b511fc32561) == 0x3ebaf0888f893b86
  {
    hide *;
    Primes();
    Round6();
    Xor15();
    TimesAt(0x2990ee66ee434385, PRIME64_1, 0x19b0750912ccc4b0, 0xb8cf2610ccd68d23);
    PlusAt(0xb8cf2610ccd68d23, PRIME64_4, 0x3ebaf0888f893b86);
    MergeAt(0xf4f010017eb0b31e, 0xc3d34b511fc32561, 0xdd60fe6790f3f09b, 0x2990ee66ee434385, 0xb8cf2610ccd68d23, 0x3ebaf0888f893b86);
  }

  lemma Round7()
    ensures Round(0, 0xcb26c007c8a1553f) == 0xbd5c8ed0d808921a
  {
    hide *;
    Primes();
    Weights();
    TimesAt(0xcb26c007c8a1553f, PRIME64_2, 0x9a8128bc49d0ad12, 0xf36f432d34362371);
    PlusAt(0, 0xf36f432d34362371, 0xf36f432d34362371);
    Rot(0xf36f432d34362371, 31, 0x80000000, 0x200000000, 0x79b7a196, 0x134362371);
    TimesAt(0x9a1b11b8f9b7a196, PRIME64_1, 0x5f3e1a02a192ac13, 0xbd5c8ed0d808921a);
    RoundAt(0, 0xcb26c007c8a1553f, 0xf36f432d34362371, 0xf36f432d34362371, 0x9a1b11b8f9b7a196, 0xbd5c8ed0d808921a);
  }

  lemma Xor16()
    ensures Exor(0x3ebaf0888f893b86, 0xbd5c8ed0d808921a) == 0x83e67e585781a99c
  {
    hide Gf.Xor;
    Gf.XorZero(0);
    Hex4(0, 0, 3, 0xe, 0xb, 0xa, 0xb, 0xd, 5, 0xc);
    Hex4(0x3eba, 0xbd5c, 0xf, 0, 8, 8, 8, 0xe, 0xd, 0);
    Hex4(0x3ebaf088, 0xbd5c8ed0, 8, 0xf, 8, 9, 0xd, 8, 0, 8);
    Hex4(0x3ebaf0888f89, 0xbd5c8ed0d808, 3, 0xb, 8, 6, 9, 2, 1, 0xa);
  }

  lemma Merge3()
    ensures MergeRound(0x3ebaf0888f893b86, 0xcb26c007c8a1553f) == 0x570dd21af61c37a7
  {
    hide *;
    Primes();
    Round7();
    Xor16();
    TimesAt(0x83e67e585781a99c, PRIME64_1, 0x5184d73314122c8d, 0xd12207a333698944);
    PlusAt(0xd12207a333698944, PRIME64_4, 0x570dd21af61c37a7);
    MergeAt(0x3ebaf0888f893b86, 0xcb26c007c8a1553f, 0xbd5c8ed0d808921a, 0x83e67e585781a99c, 0xd12207a333698944, 0x570dd21af61c37a7);
  }

  lemma Round8()
    ensures Round(0, 0x9a44d001a7f91c07) == 0x3af12ca7a85553c1
  {
    hide *;
    Primes();
    Weights();
    TimesAt(0x9a44d001a7f91c07, PRIME64_2, 0x7553d27982390d7c, 0x6a6a32efc9661329);
    PlusAt(0, 0x6a6a32efc9661329, 0x6a6a32efc9661329);
    Rot(0x6a6a32efc9661329, 31, 0x80000000, 0x200000000, 0x35351977, 0x1c9661329);
    TimesAt(0xe4b30994b5351977, PRIME64_1, 0x8d580f180dbe46d9, 0x3af12ca7a85553c1);
    RoundAt(0, 0x9a44d001a7f91c07, 0x6a6a32efc9661329, 0x6a6a32efc9661329, 0xe4b30994b5351977, 0x3af12ca7a85553c1);
  }

  lemma Xor17()
    ensures Exor(0x570dd21af61c37a7, 0x3af12ca7a85553c1) == 0x6dfcfebd5e496466
  {
    hide Gf.Xor;
    Gf.XorZero(0);
    Hex4(0, 0, 5, 7, 0, 0xd, 3, 0xa, 0xf, 1);
    Hex4(0x570d, 0x3af1, 0xd, 2, 1, 0xa, 2, 0xc, 0xa, 7);
    Hex4(0x570dd21a, 0x3af12ca7, 0xf, 6, 1, 0xc, 0xa, 8, 5, 5);
    Hex4(0x570dd21af61c, 0x3af12ca7a855, 3, 7, 0xa, 7, 5, 3, 0xc, 1);
  }

  lemma Merge4()
    ensures MergeRound(0x570dd21af61c37a7, 0x9a44d001a7f91c07) == 0xc845dbc88c411c2d
  {
    hide *;
    Primes();
    Round8();
    Xor17();
    TimesAt(0x6dfcfebd5e496466, PRIME64_1, 0x43f9fadc74bdeed4, 0x425a1150c98e6dca);
    PlusAt(0x425a1150c98e6dca, PRIME64_4, 0xc845dbc88c411c2d);
    MergeAt(0x570dd21af61c37a7, 0x9a44d001a7f91c07, 0x3af12ca7a85553c1, 0x6dfcfebd5e496466, 0x425a1150c98e6dca, 0xc845dbc88c411c2d);
  }

  lemma Rotated45()
    ensures Plus(Plus(Plus(Rotl(0xf4b53b57406b5e99, 1), Rotl(0xc3d34b511fc32561, 7)), Rotl(0xcb26c007c8a1553f, 12)), Rotl(0x9a44d001a7f91c07, 18)) == 0x7f173bace7dbd3d9
  {
    hide *;
    Primes();
    Weights();
    Rot(0xf4b53b57406b5e99, 1, 2, 0x8000000000000000, 1, 0x74b53b57406b5e99);
    Rot(0xc3d34b511fc32561, 7, 0x80, 0x200000000000000, 0x61, 0x1d34b511fc32561);
    Rot(0xcb26c007c8a1553f, 12, 0x1000, 0x10000000000000, 0xcb2, 0x6c007c8a1553f);
    Rot(0x9a44d001a7f91c07, 18, 0x40000, 0x400000000000, 0x26913, 0x1001a7f91c07);
    PlusAt(0xe96a76ae80d6bd33, 0xe9a5a88fe192b0e1, 0xd3101f3e62696e14);
    PlusAt(0xd3101f3e62696e14, 0x6c007c8a1553fcb2, 0x3f109bc877bd6ac6);
    PlusAt(0x3f109bc877bd6ac6, 0x40069fe4701e6913, 0x7f173bace7dbd3d9);
  }

  lemma Merged45()
    ensures Merge(Lanes(0xf4b53b57406b5e99, 0xc3d34b511fc32561, 0xcb26c007c8a1553f, 0x9a44d001a7f91c07)) == 0xc845dbc88c411c2d
  {
    hide Rotl, MergeRound, Plus;
    Rotated45();
    Merge1();
    Merge2();
    Merge3();
    Merge4();
  }

  lemma Round9()
    ensures Round(0, 0x2726252423222120) == 0x8e6d3b08ecfe83ad
  {
    hide *;
    Primes();
    Weights();
    TimesAt(0x2726252423222120, PRIME64_2, 0x1dc63b507d2d138e, 0x360a92567a7098e0);
    PlusAt(0, 0x360a92567a7098e0, 0x360a92567a7098e0);
    Rot(0x360a92567a7098e0, 31, 0x80000000, 0x200000000, 0x1b05492b, 0x7a7098e0);
    TimesAt(0x3d384c701b05492b, PRIME64_1, 0x25d6035facd78a66, 0x8e6d3b08ecfe83ad);
    RoundAt(0, 0x2726252423222120, 0x360a92567a7098e0, 0x360a92567a7098e0, 0x3d384c701b05492b, 0x8e6d3b08ecfe83ad);
  }

  lemma Xor18()
    ensures Exor(0xc845dbc88c411c5a, 0x8e6d3b08ecfe83ad) == 0x4628e0c060bf9ff7
  {
    hide Gf.Xor;
    Gf.XorZero(0);
    Hex4(0, 0, 0xc, 8, 4, 5, 8, 0xe, 6, 0xd);
    Hex4(0xc845, 0x8e6d, 0xd, 0xb, 0xc, 8, 3, 0xb, 0, 8);
    Hex4(0xc845dbc8, 0x8e6d3b08, 8, 0xc, 4, 1, 0xe, 0xc, 0xf, 0xe);
    Hex4(0xc845dbc88c41, 0x8e6d3b08ecfe, 1, 0xc, 5, 0xa, 8, 3, 0xa, 0xd);
  }

  lemma Word45()
    ensures TailWord(0xc845dbc88c411c5a, 0x2726252423222120) == 0xef1f7486253bde8d
  {
    hide *;
    Primes();
    Weights();
    Round9();
    Xor18();
    Rot(0x4628e0c060bf9ff7, 27, 0x8000000, 0x2000000000, 0x2314706, 0x60bf9ff7);
    TimesAt(0x305fcffba314706, PRIME64_1, 0x1de59df1d291b91, 0x6933aa0e6289302a);
    PlusAt(0x6933aa0e6289302a, PRIME64_4, 0xef1f7486253bde8d);
    WordAt(0xc845dbc88c411c5a, 0x2726252423222120, 0x8e6d3b08ecfe83ad, 0x4628e0c060bf9ff7, 0x305fcffba314706, 0x6933aa0e6289302a, 0xef1f7486253bde8d);
  }

  lemma Xor19()
    ensures Exor(0xef1f7486253bde8d, 0x63c705e3976d4418) == 0x8cd87165b2569a95
  {
    hide Gf.Xor;
    Gf.XorZero(0);
    Hex4(0, 0, 0xe, 0xf, 1, 0xf, 6, 3, 0xc, 7);
    Hex4(0xef1f, 0x63c7, 7, 4, 8, 6, 0, 5, 0xe, 3);
    Hex4(0xef1f7486, 0x63c705e3, 2, 5, 3, 0xb, 9, 7, 6, 0xd);
    Hex4(0xef1f7486253b, 0x63c705e3976d, 0xd, 0xe, 8, 0xd, 4, 4, 1, 8);
  }

  lemma Half45()
    ensures TailHalf(0xef1f7486253bde8d, 0x2b2a2928) == 0xa246b855fd2a4741
  {
    hide *;
    Primes();
    Weights();
    TimesAt(0x2b2a2928, PRIME64_1, 0x1aad5ffa, 0x63c705e3976d4418);
    Xor19();
    Rot(0x8cd87165b2569a95, 23, 0x800000, 0x20000000000, 0x466c38, 0x165b2569a95);
    TimesAt(0xb2d92b4d4ac66c38, PRIME64_2, 0x8805678b036a0c0c, 0x8bf050a45ef2cd48);
    PlusAt(0x8bf050a45ef2cd48, PRIME64_3, 0xa246b855fd2a4741);
    HalfAt(0xef1f7486253bde8d, 0x2b2a2928, 0x63c705e3976d4418, 0x8cd87165b2569a95, 0xb2d92b4d4ac66c38, 0x8bf050a45ef2cd48, 0xa246b855fd2a4741);
  }

  lemma Xor20()
    ensures Exor(0xa246b855fd2a4741, 0xd8986c17d6d9d5dc) == 0x7aded4422bf3929d
  {
    hide Gf.Xor;
    Gf.XorZero(0);
    Hex4(0, 0, 0xa, 2, 4, 6, 0xd, 8, 9, 8);
    Hex4(0xa246, 0xd898, 0xb, 8, 5, 5, 6, 0xc, 1, 7);
    Hex4(0xa246b855, 0xd8986c17, 0xf, 0xd, 2, 0xa, 0xd, 6, 0xd, 9);
    Hex4(0xa246b855fd2a, 0xd8986c17d6d9, 4, 7, 4, 1, 0xd, 5, 0xd, 0xc);
  }

  lemma Byte44()
    ensures TailByte(0xa246b855fd2a4741, 0x2c) == 0xf5b3eb29c01139da
  {
    hide *;
    Primes();
    Weights();
    TimesAt(0x2c, PRIME64_5, 6, 0xd8986c17d6d9d5dc);
    Xor20();
    Rot(0x7aded4422bf3929d, 11, 0x800, 0x20000000000000, 0x3d6, 0x1ed4422bf3929d);
    TimesAt(0xf6a2115f9c94ebd6, PRIME64_1, 0x986d78c85f781e94, 0xf5b3eb29c01139da);
    ByteAt(0xa246b855fd2a4741, 0x2c, 0xd8986c17d6d9d5dc, 0x7aded4422bf3929d, 0xf6a2115f9c94ebd6, 0xf5b3eb29c01139da);
  }

  lemma Xor21()
    ensures Exor(0xf5b3eb29c01139da, 0x7ad9f594) == 0xf5b3eb29bac8cc4e
  {
    hide Gf.Xor;
    Gf.XorZero(0);
    Hex4(0, 0, 0xf, 5, 0xb, 3, 0, 0, 0, 0);
    Hex4(0xf5b3, 0, 0xe, 0xb, 2, 9, 0, 0, 0, 0);
    Hex4(0xf5b3eb29, 0, 0xc, 0, 1, 1, 7, 0xa, 0xd, 9);
    Hex4(0xf5b3eb29c011, 0x7ad9, 3, 9, 0xd, 0xa, 0xf, 5, 9, 4);
  }

  lemma Xor22()
    ensures Exor(0x3c59d8560a1aa612, 0x1e2cec2b0) == 0x3c59d857e8d464a2
  {
    hide Gf.Xor;
    Gf.XorZero(0);
    Hex4(0, 0, 3, 0xc, 5, 9, 0, 0, 0, 0);
    Hex4(0x3c59, 0, 0xd, 8, 5, 6, 0, 0, 0, 1);
    Hex4(0x3c59d856, 1, 0, 0xa, 1, 0xa, 0xe, 2, 0xc, 0xe);
    Hex4(0x3c59d8560a1a, 0x1e2ce, 0xa, 6, 1, 2, 0xc, 2, 0xb, 0);
  }

  lemma Xor23()
    ensures Exor(0x10fdd84d74f47392, 0x10fdd84d) == 0x10fdd84d6409abdf
  {
    hide Gf.Xor;
    Gf.XorZero(0);
    Hex4(0, 0, 1, 0, 0xf, 0xd, 0, 0, 0, 0);
    Hex4(0x10fd, 0, 0xd, 8, 4, 0xd, 0, 0, 0, 0);
    Hex4(0x10fdd84d, 0, 7, 4, 0xf, 4, 1, 0, 0xf, 0xd);
    Hex4(0x10fdd84d74f4, 0x10fd, 7, 3, 9, 2, 0xd, 8, 4, 0xd);
  }

  lemma Avalanche4()
    ensures Avalanche(0xf5b3eb29c01139da) == 0x10fdd84d6409abdf
  {
    hide *;
    Primes();
    Weights();
    ShiftAt(0xf5b3eb29c01139da, 33, 0x200000000, 0x7ad9f594, 0x1c01139da);
    Xor21();
    TimesAt(0xf5b3eb29bac8cc4e, PRIME64_2, 0xbaddd68a1e803401, 0x3c59d8560a1aa612);
    ShiftAt(0x3c59d8560a1aa612, 29, 0x20000000, 0x1e2cec2b0, 0xa1aa612);
    Xor22();
    TimesAt(0x3c59d857e8d464a2, PRIME64_3, 0x54417384100f30a, 0x10fdd84d74f47392);
    ShiftAt(0x10fdd84d74f47392, 32, 0x100000000, 0x10fdd84d, 0x74f47392);
    Xor23();
    AvalancheAt(0xf5b3eb29c01139da, 0xf5b3eb29bac8cc4e, 0x3c59d8560a1aa612, 0x3c59d857e8d464a2, 0x10fdd84d74f47392, 0x10fdd84d6409abdf);
  }

  lemma Tail45()
    ensures Tail(0xc845dbc88c411c5a, Counting(45)[32..]) == 0xf5b3eb29c01139da
  {
    hide TailWord, TailHalf, TailByte;
    Word45();
    Half45();
    TailCounting(0xc845dbc88c411c5a, 0xef1f7486253bde8d, 0xa246b855fd2a4741);
    Byte44();
  }

  lemma HashCounting()
    ensures Hash(0, Counting(45)) == 0x10fdd84d6409abdf
  {
    hide Stripes, Merge, Tail, Avalanche;
    Stripe45();
    Merged45();
    Tail45();
    Avalanche4();
  }
}
