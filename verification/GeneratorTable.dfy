/** What the rows of the generator are, told apart: the law each obeys, and the numbers printed in raid/raid.c. */
module GeneratorTable {
  import opened Gf
  import opened LinAlg
  import opened Generator
  import opened Stripe
  import opened Digits

  /** Row p of the Cauchy generator is (1 + 2^(p-1)) / (2^-d + 2^(p-1)). */
  lemma CauchyLaw(p: nat, d: nat)
    requires 2 <= p < 6 && d < 251
    ensures Mul(A(Cauchy, p, d), Add(Inv(Pow2(d)), Pow2(p - 1))) == Add(1, Pow2(p - 1))
    ensures Add(Inv(Pow2(d)), Pow2(p - 1)) != 0
  {
    hide Mul, Add, Inv, Pow;
    var x := Add(ColPoint(d), RowPoint(p));
    PointsApart(d, p);
    AddNonzero(ColPoint(d), RowPoint(p));
    MulInv(x);
    MulAssoc(Add(ONE, RowPoint(p)), Inv(x), x);
    MulOneRight(Add(ONE, RowPoint(p)));
  }

  /** The first row is all ones and the second the powers of two; the third of the other generator undoes the second. */
  lemma PowerLaw(mode: Mode, d: nat)
    ensures A(mode, 0, d) == 1 && A(mode, 1, 0) == 1 && A(mode, 1, d + 1) == X2(A(mode, 1, d))
    ensures Mul(A(Vandermonde, 2, d), A(Vandermonde, 1, d)) == 1
  {
    hide Mul, X2, Inv, Pow;
    PowZero(TWO);
    Pow2Next(d);
    PowNonzero(TWO, d);
    MulInv(Pow2(d));
  }

  /** A byte in block d alone is weighed with its disk's coefficient. */
  lemma ParityOf(mode: Mode, p: nat, n: nat, d: nat, x: GF)
    requires d < n
    ensures Parity(mode, p, Zeros(n)[d := x]) == Mul(A(mode, p, d), x)
  {
    hide Mul, Add, A, Dot;
    var row, col := GenRow(mode, p, n), Zeros(n)[d := x];
    DotClear(row, col, d);
    assert col[d := ZERO] == Zeros(n);
    DotComm(row, Zeros(n));
    DotZeros(Zeros(n), row);
    AddComm(ZERO, Mul(row[d], x));
    AddZero(Mul(row[d], x));
  }

  /** The parity of a sum of columns is the sum of their parities. */
  lemma ParityAdds(mode: Mode, p: nat, a: Vec, b: Vec)
    requires |a| == |b|
    ensures Parity(mode, p, VAdd(a, b)) == Add(Parity(mode, p, a), Parity(mode, p, b))
  {
    hide Mul, Add, A, Dot;
    var row := GenRow(mode, p, |a|);
    DotComm(row, VAdd(a, b));
    DotComm(row, a);
    DotComm(row, b);
    DotAddLeft(a, b, row);
  }

  // ------------------------------------------------------------------ numbers

  lemma NoDigit()
    ensures Digit(0, 0) == 0
  {}

  lemma XorByte(p2: nat, p1: nat, p0: nat, q2: nat, q1: nat, q0: nat)
    requires p2 < 16 && p1 < 16 && p0 < 16 && q2 < 16 && q1 < 16 && q0 < 16
    ensures Xor(0x100 * p2 + 0x10 * p1 + p0, 0x100 * q2 + 0x10 * q1 + q0) == 0x100 * Digit(p2, q2) + 0x10 * Digit(p1, q1) + Digit(p0, q0)
  {
    hide Xor, Digit;
    XorZero(0);
    NoDigit();
    Hex4(0, 0, 0, p2, p1, p0, 0, q2, q1, q0);
  }

  /** v is the coefficient of disk 1 in row p if v / 2 and v * 2^(p-1) add up to 1 + 2^(p-1). */
  lemma DiskOne(p: nat, v: GF, half: GF, t: GF)
    requires 2 <= p < 6 && X2(half) == v && t == Mul(v, Pow2(p - 1)) && Add(half, t) == Add(1, Pow2(p - 1))
    ensures A(Cauchy, p, 1) == v
  {
    hide Mul, Add, Inv, Pow, X2, A;
    var y, g := Pow2(p - 1), Add(Inv(Pow2(1)), Pow2(p - 1));
    PowOne(TWO);
    MulTwo(half);
    MulInv(TWO);
    MulComm(TWO, half);
    MulAssoc(half, TWO, Inv(TWO));
    MulOneRight(half);
    MulAddRight(v, Inv(TWO), y);
    CauchyLaw(p, 1);
    MulComm(v, g);
    MulComm(A(Cauchy, p, 1), g);
    Cancel(g, v, A(Cauchy, p, 1));
  }

  lemma Doubled(v: GF, n: nat, t: GF)
    requires t == Mul(v, Pow2(n))
    ensures Mul(v, Pow2(n + 1)) == X2(t)
  {
    hide Mul, X2, Pow;
    Pow2Next(n);
    MulX2Right(v, Pow2(n));
  }

  lemma Once(v: GF)
    ensures Mul(v, Pow2(1)) == X2(v)
  {
    hide Mul, X2, Pow;
    PowZero(TWO);
    MulOneRight(v);
    Doubled(v, 0, v);
  }

  lemma Powers()
    ensures Pow2(1) == 2 && Pow2(2) == 4 && Pow2(3) == 8 && Pow2(4) == 16 && Pow2(7) == 0x80 && Pow2(8) == 0x1d
  {
    hide Pow, Mul, Xor;
    PowZero(TWO);
    Pow2Next(0);
    Pow2Next(1);
    Pow2Next(2);
    Pow2Next(3);
    Pow2Next(4);
    Pow2Next(5);
    Pow2Next(6);
    Pow2Next(7);
    XorByte(1, 0, 0, 1, 1, 0xd);
  }

  lemma Row2()
    ensures A(Cauchy, 2, 1) == 0xf5
  {
    hide Pow, Mul, Xor, A, Inv;
    Powers();
    XorByte(1, 0xe, 8, 1, 1, 0xd);
    XorByte(1, 0xe, 0xa, 1, 1, 0xd);
    Once(0xf5);
    XorByte(0, 0xf, 4, 0, 0xf, 7);
    XorByte(0, 0, 1, 0, 0, 2);
    DiskOne(2, 0xf5, 0xf4, 0xf7);
  }

  lemma Row3()
    ensures A(Cauchy, 3, 1) == 0xbb
  {
    hide Pow, Mul, Xor, A, Inv;
    Powers();
    XorByte(1, 0xa, 6, 1, 1, 0xd);
    XorByte(1, 7, 6, 1, 1, 0xd);
    Once(0xbb);
    Doubled(0xbb, 1, 0x6b);
    XorByte(0, 0xd, 3, 0, 0xd, 6);
    XorByte(0, 0, 1, 0, 0, 4);
    DiskOne(3, 0xbb, 0xd3, 0xd6);
  }

  lemma Row4()
    ensures A(Cauchy, 4, 1) == 0x97
  {
    hide Pow, Mul, Xor, A, Inv;
    Powers();
    XorByte(1, 8, 0xa, 1, 1, 0xd);
    XorByte(1, 2, 0xe, 1, 1, 0xd);
    Once(0x97);
    Doubled(0x97, 1, 0x33);
    Doubled(0x97, 2, 0x66);
    XorByte(0, 0xc, 5, 0, 0xc, 0xc);
    XorByte(0, 0, 1, 0, 0, 8);
    DiskOne(4, 0x97, 0xc5, 0xcc);
  }

  lemma Row5()
    ensures A(Cauchy, 5, 1) == 0x2b
  {
    hide Pow, Mul, Xor, A, Inv;
    Powers();
    XorByte(1, 3, 6, 1, 1, 0xd);
    Once(0x2b);
    Doubled(0x2b, 1, 0x56);
    XorByte(1, 5, 8, 1, 1, 0xd);
    Doubled(0x2b, 2, 0xac);
    Doubled(0x2b, 3, 0x45);
    XorByte(0, 9, 0xb, 0, 8, 0xa);
    XorByte(0, 0, 1, 0, 1, 0);
    DiskOne(5, 0x2b, 0x9b, 0x8a);
  }

  /** The second column of the matrix as printed, and where its second row first reduces. */
  lemma Printed(mode: Mode)
    ensures A(Cauchy, 2, 1) == 0xf5 && A(Cauchy, 3, 1) == 0xbb && A(Cauchy, 4, 1) == 0x97 && A(Cauchy, 5, 1) == 0x2b
    ensures A(mode, 1, 1) == 2 && A(mode, 1, 7) == 0x80 && A(mode, 1, 8) == 0x1d
  {
    hide Pow, Mul, Inv;
    Row2();
    Row3();
    Row4();
    Row5();
    Powers();
  }
}
