/** GF(2^8) with the polynomial 285 of raid/gf.h: bytes under xor and shift-and-xor multiplication. */
module Gf {
  import opened Arith

  type GF = x: nat | x < 256

  const ZERO: GF := 0
  const ONE: GF := 1
  const TWO: GF := 2

  // ------------------------------------------------------------ exclusive or

  function Xor(a: nat, b: nat): nat
    decreases a + b
  {
    if a == 0 && b == 0 then 0 else 2 * Xor(a / 2, b / 2) + (a + b) % 2
  }

  lemma XorStep(a: nat, b: nat)
    ensures Xor(a, b) == 2 * Xor(a / 2, b / 2) + (a + b) % 2
    ensures Xor(a, b) / 2 == Xor(a / 2, b / 2) && Xor(a, b) % 2 == (a + b) % 2
  {}

  lemma {:induction false} XorComm(a: nat, b: nat)
    ensures Xor(a, b) == Xor(b, a)
    decreases a + b
  {
    if a != 0 || b != 0 { XorComm(a / 2, b / 2); }
  }

  lemma {:induction false} XorZero(a: nat)
    ensures Xor(a, 0) == a && Xor(a, a) == 0
  {
    if a != 0 { XorZero(a / 2); }
  }

  lemma {:induction false} XorAssoc(a: nat, b: nat, c: nat)
    ensures Xor(Xor(a, b), c) == Xor(a, Xor(b, c))
    decreases a + b + c
  {
    if a != 0 || b != 0 || c != 0 {
      XorAssoc(a / 2, b / 2, c / 2);
      AssocStep(a, b, c);
    }
  }

  lemma AssocStep(a: nat, b: nat, c: nat)
    requires Xor(Xor(a / 2, b / 2), c / 2) == Xor(a / 2, Xor(b / 2, c / 2))
    ensures Xor(Xor(a, b), c) == Xor(a, Xor(b, c))
  {
    hide Xor;
    XorStep(a, b);
    XorStep(b, c);
    XorStep(Xor(a, b), c);
    XorStep(a, Xor(b, c));
    ParityAssoc(a, b, c, Xor(a, b), Xor(b, c));
  }

  lemma ParityAssoc(a: nat, b: nat, c: nat, ab: nat, bc: nat)
    requires ab % 2 == (a + b) % 2 && bc % 2 == (b + c) % 2
    ensures (ab + c) % 2 == (a + bc) % 2
  {
    ParitySum(a, b);
    ParitySum(b, c);
    ParitySum(ab, c);
    ParitySum(a, bc);
  }

  lemma XorBound(a: nat, b: nat, n: nat)
    requires a < Exp2(n) && b < Exp2(n)
    ensures Xor(a, b) < Exp2(n)
  {
    if n != 0 {
      XorBound(a / 2, b / 2, n - 1);
      XorStep(a, b);
    }
  }

  lemma Exp2At8()
    ensures Exp2(7) == 128 && Exp2(8) == 256 && Exp2(9) == 512
  {
    assert Exp2(2) == 4;
    assert Exp2(4) == 16;
    assert Exp2(6) == 64;
  }

  lemma ByteXor(a: nat, b: nat)
    requires a < 256 && b < 256
    ensures Xor(a, b) < 256
  {
    hide Xor;
    Exp2At8();
    XorBound(a, b, 8);
  }

  /** The bit above n others. */
  lemma {:induction false} TopBit(a: nat, b: nat, n: nat)
    requires a < Exp2(n + 1) && b < Exp2(n + 1)
    ensures Xor(a, b) >= Exp2(n) <==> (a >= Exp2(n)) != (b >= Exp2(n))
    decreases n
  {
    XorStep(a, b);
    if n == 0 {
      XorZero(0);
    } else {
      hide Xor;
      TopBit(a / 2, b / 2, n - 1);
    }
  }

  // ---------------------------------------------------------- field operations

  function Add(a: GF, b: GF): GF {
    ByteXor(a, b);
    Xor(a, b)
  }

  lemma ReducedByte(a: nat)
    requires 128 <= a < 256
    ensures Xor(2 * a, 285) < 256
  {
    hide Xor, Exp2;
    Exp2At8();
    assert Exp2(8 + 1) == 512;
    TopBit(2 * a, 285, 8);
  }

  /** Multiplication by x: shift, then reduce by x^8 + x^4 + x^3 + x^2 + 1. */
  function X2(a: GF): GF {
    if a < 128 then 2 * a
    else
      ReducedByte(a);
      Xor(2 * a, 285)
  }

  function Half(a: GF): GF { a / 2 }

  function Bit(b: GF, x: GF): GF { if b % 2 == 1 then x else ZERO }

  /** Shift-and-xor over the bits of b. */
  function Mul(a: GF, b: GF): GF
    decreases b
  {
    if b == ZERO then ZERO else Add(Bit(b, a), Mul(X2(a), Half(b)))
  }

  lemma AddComm(a: GF, b: GF)
    ensures Add(a, b) == Add(b, a)
  {
    hide Xor;
    XorComm(a, b);
  }

  lemma AddAssoc(a: GF, b: GF, c: GF)
    ensures Add(Add(a, b), c) == Add(a, Add(b, c))
  {
    hide Xor;
    XorAssoc(a, b, c);
  }

  lemma AddZero(a: GF)
    ensures Add(a, ZERO) == a && Add(ZERO, a) == a && Add(a, a) == ZERO
  {
    hide Xor;
    XorZero(a);
    XorComm(a, 0);
  }

  lemma Add4(a: GF, b: GF, c: GF, d: GF)
    ensures Add(Add(a, b), Add(c, d)) == Add(Add(a, c), Add(b, d))
  {
    hide Add;
    AddAssoc(a, b, Add(c, d));
    AddAssoc(b, c, d);
    AddComm(b, c);
    AddAssoc(c, b, d);
    AddAssoc(a, c, Add(b, d));
  }

  lemma AddCancel(a: GF, b: GF)
    ensures Add(Add(a, b), b) == a && Add(a, Add(a, b)) == b
  {
    hide Add;
    AddAssoc(a, b, b);
    AddAssoc(a, a, b);
    AddZero(a);
    AddZero(b);
  }

  lemma AddEqZero(a: GF, b: GF)
    requires Add(a, b) == ZERO
    ensures a == b
  {
    hide Add;
    AddCancel(a, b);
    AddZero(b);
  }

  lemma XorDouble(a: nat, b: nat)
    ensures Xor(2 * a, 2 * b) == 2 * Xor(a, b)
  {
    hide Xor;
    XorStep(2 * a, 2 * b);
    EvenHalf(a, 0);
    EvenHalf(b, 0);
    EvenHalf(a + b, 0);
  }

  lemma EvenHalf(a: nat, r: nat)
    requires r < 2
    ensures (2 * a + r) / 2 == a && (2 * a + r) % 2 == r
  {}

  /** What the reduction adds. */
  function Carry(a: GF): nat { if a < 128 then 0 else 285 }

  lemma X2Carry(a: GF)
    ensures X2(a) == Xor(2 * a, Carry(a))
  {
    hide Xor;
    XorZero(2 * a);
  }

  lemma CarryXor(a: GF, b: GF)
    ensures Carry(Add(a, b)) == Xor(Carry(a), Carry(b))
  {
    hide Xor, Exp2;
    Exp2At8();
    assert Exp2(7 + 1) == 256;
    TopBit(a, b, 7);
    XorZero(0);
    XorZero(285);
    XorComm(0, 285);
  }

  lemma Xor4(a: nat, b: nat, c: nat, d: nat)
    ensures Xor(Xor(a, b), Xor(c, d)) == Xor(Xor(a, c), Xor(b, d))
  {
    hide Xor;
    XorAssoc(a, b, Xor(c, d));
    XorAssoc(b, c, d);
    XorComm(b, c);
    XorAssoc(c, b, d);
    XorAssoc(a, c, Xor(b, d));
  }

  lemma X2Add(a: GF, b: GF)
    ensures X2(Add(a, b)) == Add(X2(a), X2(b))
  {
    hide Xor, X2, Carry;
    X2Carry(a);
    X2Carry(b);
    X2Carry(Add(a, b));
    CarryXor(a, b);
    XorDouble(a, b);
    Xor4(2 * a, 2 * b, Carry(a), Carry(b));
  }

  lemma HalfAdd(a: GF, b: GF)
    ensures Half(Add(a, b)) == Add(Half(a), Half(b))
  {
    hide Xor;
    XorStep(a, b);
  }

  lemma BitAddLeft(b: GF, x: GF, y: GF)
    ensures Bit(b, Add(x, y)) == Add(Bit(b, x), Bit(b, y))
  {
    hide Add;
    AddZero(ZERO);
  }

  lemma AddParity(b: GF, c: GF)
    ensures Add(b, c) % 2 == (b + c) % 2
  {
    hide Xor;
    XorStep(b, c);
  }

  lemma BitAddRight(b: GF, c: GF, x: GF)
    ensures Bit(Add(b, c), x) == Add(Bit(b, x), Bit(c, x))
  {
    hide Add;
    AddParity(b, c);
    AddZero(x);
    AddZero(ZERO);
  }

  lemma BitX2(b: GF, x: GF)
    ensures X2(Bit(b, x)) == Bit(b, X2(x))
  {
    hide Xor;
  }

  lemma MulStep(a: GF, b: GF)
    ensures Mul(a, b) == Add(Bit(b, a), Mul(X2(a), Half(b)))
  {
    hide X2, Add;
    if b == ZERO { AddZero(ZERO); }
  }

  lemma {:induction false} MulAddLeft(a: GF, b: GF, c: GF)
    ensures Mul(Add(a, b), c) == Add(Mul(a, c), Mul(b, c))
    decreases c
  {
    hide X2, Bit, Add;
    if c == ZERO {
      AddZero(ZERO);
    } else {
      X2Add(a, b);
      BitAddLeft(c, a, b);
      MulAddLeft(X2(a), X2(b), Half(c));
      Add4(Bit(c, a), Bit(c, b), Mul(X2(a), Half(c)), Mul(X2(b), Half(c)));
    }
  }

  lemma {:induction false} MulAddRight(a: GF, b: GF, c: GF)
    ensures Mul(a, Add(b, c)) == Add(Mul(a, b), Mul(a, c))
    decreases b + c
  {
    hide X2, Bit, Add;
    if b == ZERO && c == ZERO {
      AddZero(ZERO);
    } else {
      MulAddRight(X2(a), Half(b), Half(c));
      AddRightStep(a, b, c);
    }
  }

  lemma AddRightStep(a: GF, b: GF, c: GF)
    requires Mul(X2(a), Add(Half(b), Half(c))) == Add(Mul(X2(a), Half(b)), Mul(X2(a), Half(c)))
    ensures Mul(a, Add(b, c)) == Add(Mul(a, b), Mul(a, c))
  {
    hide X2, Bit, Add, Half, Mul;
    MulStep(a, b);
    MulStep(a, c);
    MulStep(a, Add(b, c));
    HalfAdd(b, c);
    BitAddRight(b, c, a);
    Add4(Bit(b, a), Bit(c, a), Mul(X2(a), Half(b)), Mul(X2(a), Half(c)));
  }

  lemma {:induction false} MulX2Left(a: GF, b: GF)
    ensures Mul(X2(a), b) == X2(Mul(a, b))
    decreases b
  {
    if b != ZERO {
      hide X2, Bit, Add;
      MulX2Left(X2(a), Half(b));
      BitX2(b, a);
      X2Add(Bit(b, a), Mul(X2(a), Half(b)));
    }
  }

  lemma HalfSplit(b: GF)
    ensures b == Add(Bit(b, ONE), X2(Half(b)))
  {
    hide Xor;
    var q := b / 2;
    XorStep(b % 2, 2 * q);
    XorZero(q);
    XorComm(0, q);
  }

  /** The same step with the doubling outside. */
  lemma MulStepRight(a: GF, b: GF)
    ensures Mul(a, b) == Add(Bit(b, a), X2(Mul(a, Half(b))))
  {
    hide X2, Bit, Add, Half, Mul;
    MulStep(a, b);
    MulX2Left(a, Half(b));
  }

  lemma MulZeroRight(a: GF)
    ensures Mul(a, ZERO) == ZERO
  {}

  lemma {:induction false} MulZeroLeft(b: GF)
    ensures Mul(ZERO, b) == ZERO
    decreases b
  {
    hide Add;
    if b != ZERO {
      AddZero(ZERO);
      MulZeroLeft(Half(b));
    }
  }

  lemma {:induction false} MulOneLeft(b: GF)
    ensures Mul(ONE, b) == b
    decreases b
  {
    if b == ZERO {
      MulZeroRight(ONE);
    } else {
      MulOneLeft(Half(b));
      MulStepRight(ONE, b);
      HalfSplit(b);
    }
  }

  lemma MulBitLeft(b: GF, a: GF)
    ensures Mul(Bit(b, ONE), a) == Bit(b, a)
  {
    MulOneLeft(a);
    MulZeroLeft(a);
  }

  /** And on the left factor. */
  lemma MulStepLeft(b: GF, a: GF)
    ensures Mul(b, a) == Add(Bit(b, a), X2(Mul(Half(b), a)))
  {
    HalfSplit(b);
    MulAddLeft(Bit(b, ONE), X2(Half(b)), a);
    MulBitLeft(b, a);
    MulX2Left(Half(b), a);
  }

  lemma {:induction false} MulComm(a: GF, b: GF)
    ensures Mul(a, b) == Mul(b, a)
    decreases b
  {
    if b == ZERO {
      MulZeroRight(a);
      MulZeroLeft(a);
    } else {
      hide Mul, Add, X2, Half, Bit;
      MulComm(a, Half(b));
      MulStepRight(a, b);
      MulStepLeft(b, a);
    }
  }

  lemma MulBitRight(c: GF, a: GF, b: GF)
    ensures Mul(a, Bit(c, b)) == Bit(c, Mul(a, b))
  {
    MulZeroRight(a);
  }

  lemma MulX2Right(a: GF, b: GF)
    ensures Mul(a, X2(b)) == X2(Mul(a, b))
  {
    hide Mul, X2;
    MulComm(a, X2(b));
    MulX2Left(b, a);
    MulComm(a, b);
  }

  lemma {:induction false} MulAssoc(a: GF, b: GF, c: GF)
    ensures Mul(Mul(a, b), c) == Mul(a, Mul(b, c))
    decreases c
  {
    if c == ZERO {
      MulZeroRight(Mul(a, b));
      MulZeroRight(b);
      MulZeroRight(a);
    } else {
      hide Mul, Add, X2, Half, Bit;
      MulAssoc(a, b, Half(c));
      MulStepRight(Mul(a, b), c);
      MulStepRight(b, c);
      MulAddRight(a, Bit(c, b), X2(Mul(b, Half(c))));
      MulBitRight(c, a, b);
      MulX2Right(a, Mul(b, Half(c)));
    }
  }

  // ---------------------------------------------------------------- inverse

  function Sq(a: GF): GF { Mul(a, a) }

  /** a^(2^n). */
  function Frob(a: GF, n: nat): GF { if n == 0 then a else Sq(Frob(a, n - 1)) }

  lemma SqAdd(a: GF, b: GF)
    ensures Sq(Add(a, b)) == Add(Sq(a), Sq(b))
  {
    hide Mul, Add;
    MulAddLeft(a, b, Add(a, b));
    MulAddRight(a, a, b);
    MulAddRight(b, a, b);
    MulComm(a, b);
    Add4(Mul(a, a), Mul(a, b), Mul(a, b), Mul(b, b));
    AddComm(Mul(a, b), Mul(b, b));
    Add4(Mul(a, a), Mul(a, b), Mul(b, b), Mul(a, b));
    AddZero(Mul(a, b));
    AddZero(Add(Mul(a, a), Mul(b, b)));
  }

  lemma MulTwo(b: GF)
    ensures Mul(TWO, b) == X2(b)
  {
    hide Mul, Xor;
    MulX2Left(ONE, b);
    MulOneLeft(b);
  }

  lemma MulOneRight(a: GF)
    ensures Mul(a, ONE) == a
  {
    MulComm(a, ONE);
    MulOneLeft(a);
  }

  lemma Mul4(a: GF, b: GF, c: GF, d: GF)
    ensures Mul(Mul(a, b), Mul(c, d)) == Mul(Mul(a, c), Mul(b, d))
  {
    hide Mul;
    MulAssoc(a, b, Mul(c, d));
    MulAssoc(b, c, d);
    MulComm(b, c);
    MulAssoc(c, b, d);
    MulAssoc(a, c, Mul(b, d));
  }

  // ----------------------------------------------------------------- bits

  /** A byte as its bits. */
  datatype Octet = Octet(b7: bool, b6: bool, b5: bool, b4: bool, b3: bool, b2: bool, b1: bool, b0: bool)

  /** A bit below the bits of u. */
  function Push(b: bool, u: nat): nat { 2 * u + if b then 1 else 0 }

  function Num(x: Octet): GF {
    Push(x.b0, Push(x.b1, Push(x.b2, Push(x.b3, Push(x.b4, Push(x.b5, Push(x.b6, Push(x.b7, 0))))))))
  }

  lemma PushHalf(a: nat)
    ensures Push(a % 2 == 1, a / 2) == a
  {}

  function Bits(a: GF): Octet {
    var a1 := a / 2; var a2 := a1 / 2; var a3 := a2 / 2; var a4 := a3 / 2; var a5 := a4 / 2; var a6 := a5 / 2; var a7 := a6 / 2;
    Octet(a7 % 2 == 1, a6 % 2 == 1, a5 % 2 == 1, a4 % 2 == 1, a3 % 2 == 1, a2 % 2 == 1, a1 % 2 == 1, a % 2 == 1)
  }

  lemma NumBits(a: GF)
    ensures Num(Bits(a)) == a
  {
    hide Push;
    var a1 := a / 2; var a2 := a1 / 2; var a3 := a2 / 2; var a4 := a3 / 2; var a5 := a4 / 2; var a6 := a5 / 2; var a7 := a6 / 2;
    PushHalf(a7);
    PushHalf(a6);
    PushHalf(a5);
    PushHalf(a4);
    PushHalf(a3);
    PushHalf(a2);
    PushHalf(a1);
    PushHalf(a);
    assert a7 / 2 == 0;
  }

  lemma PushSplit(p: bool, u: nat, q: bool, v: nat)
    requires Push(p, u) == Push(q, v)
    ensures p == q && u == v
  {}

  lemma NumInjective(x: Octet, y: Octet)
    requires Num(x) == Num(y)
    ensures x == y
  {
    hide Push;
    var u7, v7 := Push(x.b7, 0), Push(y.b7, 0);
    var u6, v6 := Push(x.b6, u7), Push(y.b6, v7);
    var u5, v5 := Push(x.b5, u6), Push(y.b5, v6);
    var u4, v4 := Push(x.b4, u5), Push(y.b4, v5);
    var u3, v3 := Push(x.b3, u4), Push(y.b3, v4);
    var u2, v2 := Push(x.b2, u3), Push(y.b2, v3);
    var u1, v1 := Push(x.b1, u2), Push(y.b1, v2);
    PushSplit(x.b0, u1, y.b0, v1);
    PushSplit(x.b1, u2, y.b1, v2);
    PushSplit(x.b2, u3, y.b2, v3);
    PushSplit(x.b3, u4, y.b3, v4);
    PushSplit(x.b4, u5, y.b4, v5);
    PushSplit(x.b5, u6, y.b5, v6);
    PushSplit(x.b6, u7, y.b6, v7);
    PushSplit(x.b7, 0, y.b7, 0);
  }

  function XorOctet(x: Octet, y: Octet): Octet {
    Octet(x.b7 != y.b7, x.b6 != y.b6, x.b5 != y.b5, x.b4 != y.b4, x.b3 != y.b3, x.b2 != y.b2, x.b1 != y.b1, x.b0 != y.b0)
  }

  lemma XorPush(p: bool, u: nat, q: bool, v: nat)
    ensures Xor(Push(p, u), Push(q, v)) == Push(p != q, Xor(u, v))
  {
    hide Xor, Push;
    var a, b := Push(p, u), Push(q, v);
    PushParts(p, u);
    PushParts(q, v);
    XorStep(a, b);
    ParitySum(a, b);
    PushIs(p != q, Xor(u, v));
  }

  lemma PushIs(b: bool, u: nat)
    ensures Push(b, u) == 2 * u + if b then 1 else 0
  {}

  lemma ParitySum(a: nat, b: nat)
    ensures (a + b) % 2 == if (a % 2 == 1) != (b % 2 == 1) then 1 else 0
  {}

  lemma XorNum(x: Octet, y: Octet)
    ensures Add(Num(x), Num(y)) == Num(XorOctet(x, y))
  {
    hide Xor, Push;
    var u7, v7 := Push(x.b7, 0), Push(y.b7, 0);
    var u6, v6 := Push(x.b6, u7), Push(y.b6, v7);
    var u5, v5 := Push(x.b5, u6), Push(y.b5, v6);
    var u4, v4 := Push(x.b4, u5), Push(y.b4, v5);
    var u3, v3 := Push(x.b3, u4), Push(y.b3, v4);
    var u2, v2 := Push(x.b2, u3), Push(y.b2, v3);
    var u1, v1 := Push(x.b1, u2), Push(y.b1, v2);
    XorZero(0);
    XorPush(x.b7, 0, y.b7, 0);
    XorPush(x.b6, u7, y.b6, v7);
    XorPush(x.b5, u6, y.b5, v6);
    XorPush(x.b4, u5, y.b4, v5);
    XorPush(x.b3, u4, y.b3, v4);
    XorPush(x.b2, u3, y.b2, v3);
    XorPush(x.b1, u2, y.b1, v2);
    XorPush(x.b0, u1, y.b0, v1);
  }

  function X2Octet(x: Octet): Octet {
    Octet(x.b6, x.b5, x.b4, x.b3 != x.b7, x.b2 != x.b7, x.b1 != x.b7, x.b0, x.b7)
  }

  function ShiftOctet(x: Octet): Octet { Octet(x.b6, x.b5, x.b4, x.b3, x.b2, x.b1, x.b0, false) }

  /** 29, what 285 leaves in a byte. */
  const POLY := Octet(false, false, false, true, true, true, false, true)

  lemma XorTop(u: nat)
    requires u < 256
    ensures Xor(256 + u, 285) == Xor(u, 29)
  {
    XorSplit(256, u);
    hide Xor;
    XorSplit(256, 29);
    XorComm(256, u);
    Xor4(256, u, 256, 29);
    XorZero(256);
    XorComm(0, Xor(u, 29));
    XorZero(Xor(u, 29));
  }

  lemma XorSplit(h: nat, u: nat)
    requires h == 256 && u < 256
    ensures Xor(h, u) == h + u
  {
    hide Xor;
    DisjointXor(u, 8);
    Exp2At8();
  }

  lemma {:induction false} DisjointXor(u: nat, n: nat)
    requires u < Exp2(n)
    ensures Xor(Exp2(n), u) == Exp2(n) + u
    decreases n
  {
    if n == 0 {
      XorZero(1);
    } else {
      hide Xor;
      var e := Exp2(n - 1);
      DisjointXor(u / 2, n - 1);
      XorStep(2 * e, u);
      EvenHalf(e, 0);
      EvenHalf(e + u / 2, u % 2);
    }
  }

  lemma ShiftNum(x: Octet)
    ensures 2 * Num(x) == Num(ShiftOctet(x)) + if x.b7 then 256 else 0
  {}

  lemma PolyNum()
    ensures Num(POLY) == 29
  {}

  lemma TopDigit(x: Octet)
    ensures Num(x) < 128 <==> !x.b7
  {}

  lemma X2Num(x: Octet)
    ensures X2(Num(x)) == Num(X2Octet(x))
  {
    hide Xor, Num;
    ShiftNum(x);
    TopDigit(x);
    if x.b7 {
      PolyNum();
      XorTop(Num(ShiftOctet(x)));
      XorNum(ShiftOctet(x), POLY);
    } else {
      assert X2Octet(x) == ShiftOctet(x);
    }
  }

  /** Squaring is linear in the bits. */
  function SqOctet(a: Octet): Octet {
    Octet(a.b6,
          (a.b3 != a.b5) != a.b6,
          a.b5,
          (a.b2 != a.b4) != (a.b5 != a.b7),
          a.b4 != a.b6,
          (a.b1 != a.b4) != (a.b5 != a.b6),
          a.b7,
          (a.b0 != a.b4) != (a.b6 != a.b7))
  }

  function HalfOctet(x: Octet): Octet { Octet(false, x.b7, x.b6, x.b5, x.b4, x.b3, x.b2, x.b1) }

  function BitOctet(b: bool): Octet { Octet(false, false, false, false, false, false, false, b) }

  lemma SqX2(h: GF)
    ensures Sq(X2(h)) == X2(X2(Sq(h)))
  {
    hide Mul, X2;
    MulX2Left(h, X2(h));
    MulX2Right(h, h);
  }

  lemma SqBit(a: GF)
    ensures Sq(Bit(a, ONE)) == Bit(a, ONE)
  {
    hide Mul;
    MulOneLeft(ONE);
    MulZeroRight(ZERO);
  }

  lemma SqOctetStep(x: Octet)
    ensures SqOctet(x) == XorOctet(BitOctet(x.b0), X2Octet(X2Octet(SqOctet(HalfOctet(x)))))
  {}

  lemma SqNumStep(x: Octet, h: GF)
    requires h == Num(SqOctet(HalfOctet(x)))
    ensures Num(SqOctet(x)) == Add(Num(BitOctet(x.b0)), X2(X2(h)))
  {
    hide Add, X2, Num, SqOctet, XorOctet, X2Octet;
    var y := SqOctet(HalfOctet(x));
    SqOctetStep(x);
    X2Num(y);
    X2Num(X2Octet(y));
    XorNum(BitOctet(x.b0), X2Octet(X2Octet(y)));
  }

  lemma PushParts(b: bool, u: nat)
    ensures Push(b, u) / 2 == u && (Push(b, u) % 2 == 1 <==> b) && (u != 0 ==> u < Push(b, u))
    ensures Push(false, 0) == 0 && Push(b, 0) == if b then 1 else 0
  {}

  lemma HalfNum(x: Octet)
    ensures Half(Num(x)) == Num(HalfOctet(x)) && Bit(Num(x), ONE) == Num(BitOctet(x.b0))
    ensures Num(x) != ZERO ==> Num(HalfOctet(x)) < Num(x)
  {
    hide Push;
    PushParts(x.b0, Num(HalfOctet(x)));
    PushParts(false, 0);
    PushParts(x.b0, 0);
  }

  lemma {:induction false} SqIsOctet(x: Octet)
    ensures Sq(Num(x)) == Num(SqOctet(x))
    decreases Num(x)
  {
    hide Mul, Add, X2, Bit, Half, Sq, SqOctet, HalfOctet, BitOctet, Num;
    var a := Num(x);
    if a == ZERO {
      SqOfZero(x);
    } else {
      HalfNum(x);
      HalfSplit(a);
      SqAdd(Bit(a, ONE), X2(Half(a)));
      SqBit(a);
      SqX2(Half(a));
      SqIsOctet(HalfOctet(x));
      SqNumStep(x, Sq(Half(a)));
    }
  }

  lemma SqOfZero(x: Octet)
    requires Num(x) == ZERO
    ensures Sq(Num(x)) == Num(SqOctet(x))
  {
    hide Mul;
    MulZeroRight(ZERO);
  }

  lemma FixedOctet(x: Octet)
    requires SqOctet(x) == x
    ensures Num(x) == ZERO || Num(x) == ONE
  {}

  lemma Idempotent(e: GF)
    requires Sq(e) == e
    ensures e == ZERO || e == ONE
  {
    hide Sq, SqOctet, Num, Bits;
    var x := Bits(e);
    NumBits(e);
    SqIsOctet(x);
    NumInjective(x, SqOctet(x));
    FixedOctet(x);
  }

  function Pow(a: GF, n: nat): GF { if n == 0 then ONE else Mul(a, Pow(a, n - 1)) }

  lemma PowOne(a: GF)
    ensures Pow(a, 1) == a
  {
    MulOneRight(a);
    assert Pow(a, 0) == ONE;
    hide Mul;
  }

  lemma {:induction false} PowAdd(a: GF, m: nat, n: nat)
    ensures Pow(a, m + n) == Mul(Pow(a, m), Pow(a, n))
  {
    hide Mul;
    if m == 0 {
      MulOneLeft(Pow(a, n));
    } else {
      PowAdd(a, m - 1, n);
      MulAssoc(a, Pow(a, m - 1), Pow(a, n));
    }
  }

  lemma {:induction false} FrobAdd(a: GF, b: GF, n: nat)
    ensures Frob(Add(a, b), n) == Add(Frob(a, n), Frob(b, n))
  {
    hide Mul, Add, Sq;
    if n != 0 {
      FrobAdd(a, b, n - 1);
      SqAdd(Frob(a, n - 1), Frob(b, n - 1));
    }
  }

  lemma {:induction false} FrobMul(a: GF, b: GF, n: nat)
    ensures Frob(Mul(a, b), n) == Mul(Frob(a, n), Frob(b, n))
  {
    hide Mul;
    if n != 0 {
      FrobMul(a, b, n - 1);
      Mul4(Frob(a, n - 1), Frob(b, n - 1), Frob(a, n - 1), Frob(b, n - 1));
    }
  }

  lemma FrobTwo()
    ensures Frob(TWO, 8) == TWO
  {
    hide Sq, Num;
    var x0 := Octet(false, false, false, false, false, false, true, false);
    NumTwo();
    assert Frob(TWO, 0) == TWO;
    var x1 := Octet(false, false, false, false, false, true, false, false);
    FrobNext(0, x0, x1);
    var x2 := Octet(false, false, false, true, false, false, false, false);
    FrobNext(1, x1, x2);
    var x3 := Octet(false, false, false, true, true, true, false, true);
    FrobNext(2, x2, x3);
    var x4 := Octet(false, true, false, false, true, true, false, false);
    FrobNext(3, x3, x4);
    var x5 := Octet(true, false, false, true, true, true, false, true);
    FrobNext(4, x4, x5);
    var x6 := Octet(false, true, false, true, true, true, true, true);
    FrobNext(5, x5, x6);
    var x7 := Octet(true, false, false, false, false, true, false, true);
    FrobNext(6, x6, x7);
    var x8 := Octet(false, false, false, false, false, false, true, false);
    FrobNext(7, x7, x8);
  }

  lemma FrobNext(n: nat, x: Octet, y: Octet)
    requires Frob(TWO, n) == Num(x) && y == SqOctet(x)
    ensures Frob(TWO, n + 1) == Num(y)
  {
    hide Sq, Num;
    SqIsOctet(x);
  }

  lemma {:induction false} FrobBit(a: GF, n: nat)
    ensures Frob(Bit(a, ONE), n) == Bit(a, ONE)
  {
    hide Sq, Bit;
    if n != 0 {
      FrobBit(a, n - 1);
      SqBit(a);
    }
  }

  /** a^256 == a. */
  lemma {:induction false} FrobId(a: GF)
    ensures Frob(a, 8) == a
    decreases a
  {
    if a == ZERO {
      assert Bit(ZERO, ONE) == ZERO;
      hide Bit, Sq;
      FrobBit(ZERO, 8);
    } else {
      HalfSplit(a);
      hide Mul, Add, X2, Bit, Half, Sq, Frob;
      FrobId(Half(a));
      FrobAdd(Bit(a, ONE), X2(Half(a)), 8);
      FrobBit(a, 8);
      MulTwo(Half(a));
      FrobMul(TWO, Half(a), 8);
      FrobTwo();
    }
  }

  lemma {:induction false} FrobPow(a: GF, n: nat)
    ensures Frob(a, n) == Pow(a, Exp2(n))
  {
    hide Mul;
    if n == 0 {
      PowOne(a);
    } else {
      FrobPow(a, n - 1);
      PowAdd(a, Exp2(n - 1), Exp2(n - 1));
    }
  }

  lemma Pow256(a: GF)
    ensures Pow(a, 256) == a
  {
    hide Mul, Pow, Frob, Sq;
    FrobPow(a, 8);
    FrobId(a);
    assert Exp2(4) == 16 && Exp2(8) == 256;
  }

  function Inv(a: GF): GF
  {
    Pow(a, 254)
  }

  lemma Pow255(a: GF)
    requires a != ZERO
    ensures Pow(a, 255) == ONE
  {
    var e := Pow(a, 255);
    PowAdd(a, 256, 254);
    PowAdd(a, 255, 255);
    PowAdd(a, 1, 254);
    PowOne(a);
    Pow256(a);
    PowAdd(a, 1, 255);
    MulZeroRight(a);
    hide Mul, Pow;
    Idempotent(e);
  }

  /** Every nonzero element has the inverse a^254. */
  lemma MulInv(a: GF)
    requires a != ZERO
    ensures Mul(a, Inv(a)) == ONE && Mul(Inv(a), a) == ONE
  {
    Pow255(a);
    PowAdd(a, 1, 254);
    PowOne(a);
    MulComm(a, Inv(a));
    hide Mul, Pow;
  }

  lemma NoZeroDivisors(a: GF, b: GF)
    requires Mul(a, b) == ZERO && a != ZERO
    ensures b == ZERO
  {
    hide Mul, Inv;
    MulInv(a);
    MulAssoc(Inv(a), a, b);
    MulOneLeft(b);
    MulZeroRight(Inv(a));
  }

  lemma InvNonzero(a: GF)
    requires a != ZERO
    ensures Inv(a) != ZERO
  {
    hide Mul, Inv;
    MulInv(a);
    MulZeroRight(a);
  }

  // --------------------------------------------------- the powers of two

  lemma Pow2Next(n: nat)
    ensures Pow(TWO, n + 1) == X2(Pow(TWO, n))
  {
    hide Mul, X2;
    MulTwo(Pow(TWO, n));
  }

  lemma Pow2Shift(n: nat, x: Octet, y: Octet)
    requires Pow(TWO, n) == Num(x) && y == X2Octet(x)
    ensures Pow(TWO, n + 1) == Num(y)
  {
    hide Pow, X2, Num;
    Pow2Next(n);
    X2Num(x);
  }

  lemma Pow2Double(n: nat, x: Octet, y: Octet)
    requires Pow(TWO, n) == Num(x) && y == SqOctet(x)
    ensures Pow(TWO, 2 * n) == Num(y)
  {
    hide Mul, Num, Pow;
    PowAdd(TWO, n, n);
    SqIsOctet(x);
  }

  lemma NumTwo()
    ensures Num(Octet(false, false, false, false, false, false, true, false)) == TWO
  {}

  lemma NotOne(x: Octet)
    requires x != Octet(false, false, false, false, false, false, false, true)
    ensures Num(x) != ONE
  {}

  lemma Pow2At15()
    ensures Pow(TWO, 15) != ONE
  {
    hide Pow, Num, Mul;
    var x1 := Octet(false, false, false, false, false, false, true, false);
    PowOne(TWO);
    NumTwo();
    var x2 := Octet(false, false, false, false, false, true, false, false);
    Pow2Double(1, x1, x2);
    var x3 := Octet(false, false, false, false, true, false, false, false);
    Pow2Shift(2, x2, x3);
    var x6 := Octet(false, true, false, false, false, false, false, false);
    Pow2Double(3, x3, x6);
    var x7 := Octet(true, false, false, false, false, false, false, false);
    Pow2Shift(6, x6, x7);
    var x14 := Octet(false, false, false, true, false, false, true, true);
    Pow2Double(7, x7, x14);
    var x15 := Octet(false, false, true, false, false, true, true, false);
    Pow2Shift(14, x14, x15);
    NotOne(x15);
  }

  lemma Pow2At51()
    ensures Pow(TWO, 51) != ONE
  {
    hide Pow, Num, Mul;
    var x1 := Octet(false, false, false, false, false, false, true, false);
    PowOne(TWO);
    NumTwo();
    var x2 := Octet(false, false, false, false, false, true, false, false);
    Pow2Double(1, x1, x2);
    var x3 := Octet(false, false, false, false, true, false, false, false);
    Pow2Shift(2, x2, x3);
    var x6 := Octet(false, true, false, false, false, false, false, false);
    Pow2Double(3, x3, x6);
    var x12 := Octet(true, true, false, false, true, true, false, true);
    Pow2Double(6, x6, x12);
    var x24 := Octet(true, false, false, false, true, true, true, true);
    Pow2Double(12, x12, x24);
    var x25 := Octet(false, false, false, false, false, false, true, true);
    Pow2Shift(24, x24, x25);
    var x50 := Octet(false, false, false, false, false, true, false, true);
    Pow2Double(25, x25, x50);
    var x51 := Octet(false, false, false, false, true, false, true, false);
    Pow2Shift(50, x50, x51);
    NotOne(x51);
  }

  lemma Pow2At85()
    ensures Pow(TWO, 85) != ONE
  {
    hide Pow, Num, Mul;
    var x1 := Octet(false, false, false, false, false, false, true, false);
    PowOne(TWO);
    NumTwo();
    var x2 := Octet(false, false, false, false, false, true, false, false);
    Pow2Double(1, x1, x2);
    var x4 := Octet(false, false, false, true, false, false, false, false);
    Pow2Double(2, x2, x4);
    var x5 := Octet(false, false, true, false, false, false, false, false);
    Pow2Shift(4, x4, x5);
    var x10 := Octet(false, true, true, true, false, true, false, false);
    Pow2Double(5, x5, x10);
    var x20 := Octet(true, false, true, true, false, true, false, false);
    Pow2Double(10, x10, x20);
    var x21 := Octet(false, true, true, true, false, true, false, true);
    Pow2Shift(20, x20, x21);
    var x42 := Octet(true, false, true, true, false, true, false, true);
    Pow2Double(21, x21, x42);
    var x84 := Octet(false, true, true, false, true, false, true, true);
    Pow2Double(42, x42, x84);
    var x85 := Octet(true, true, false, true, false, true, true, false);
    Pow2Shift(84, x84, x85);
    NotOne(x85);
  }

  function Times(k: nat, q: nat): nat { if q == 0 then 0 else k + Times(k, q - 1) }

  lemma {:induction false} TimesIs(k: nat, q: nat)
    ensures Times(k, q) == k * q
  {
    if q != 0 { TimesIs(k, q - 1); }
  }

  lemma {:induction false} PowOfOne(a: GF, k: nat, q: nat)
    requires Pow(a, k) == ONE
    ensures Pow(a, Times(k, q)) == ONE
    decreases q
  {
    hide Mul, Pow;
    if q == 0 {
      assert Pow(a, 0) == ONE by { PowZero(a); }
    } else {
      PowOfOne(a, k, q - 1);
      PowAdd(a, k, Times(k, q - 1));
      MulOneLeft(ONE);
    }
  }

  lemma PowMultiple(a: GF, k: nat, q: nat)
    requires Pow(a, k) == ONE
    ensures Pow(a, k * q) == ONE
  {
    hide Pow, Times;
    TimesIs(k, q);
    PowOfOne(a, k, q);
  }

  lemma PowZero(a: GF)
    ensures Pow(a, 0) == ONE
  {}

  lemma BigProduct(k: nat, q: nat)
    requires 16 <= k && 16 <= q
    ensures k * q >= 256
  {
    assert k * q >= 16 * q;
  }

  /** A proper divisor of 255 divides 85, 51 or 15. */
  lemma ProperDivisor(k: nat, q: nat)
    requires k * q == 255 && k < 255
    ensures k * (q / 3) == 85 || k * (q / 5) == 51 || k * (q / 17) == 15
  {
    if 16 <= k && 16 <= q { BigProduct(k, q); assert false; }
    if k < 16 {
      assert k == 1 || k == 3 || k == 5 || k == 15;
    } else {
      assert q == 3 || q == 5 || q == 15;
    }
  }

  /** 2 has order 255, so its first 255 powers are distinct. */
  lemma {:induction false} Pow2Order(k: nat)
    requires 0 < k < 255
    ensures Pow(TWO, k) != ONE
    decreases k
  {
    hide Mul, Pow;
    if Pow(TWO, k) == ONE {
      var q, r := 255 / k, 255 % k;
      assert k * q + r == 255;
      PowMultiple(TWO, k, q);
      PowAdd(TWO, k * q, r);
      MulOneLeft(Pow(TWO, r));
      Pow255(TWO);
      if r != 0 {
        Pow2Order(r);
      } else {
        ProperDivisor(k, q);
        PowMultiple(TWO, k, q / 3);
        PowMultiple(TWO, k, q / 5);
        PowMultiple(TWO, k, q / 17);
        Pow2At15();
        Pow2At51();
        Pow2At85();
      }
    }
  }

  lemma PowNonzero(a: GF, n: nat)
    requires a != ZERO
    ensures Pow(a, n) != ZERO
  {
    if n == 0 {
    } else {
      PowNonzero(a, n - 1);
      hide Mul;
      if Mul(a, Pow(a, n - 1)) == ZERO { NoZeroDivisors(a, Pow(a, n - 1)); }
    }
  }

  lemma Pow2Distinct(i: nat, j: nat)
    requires i < j < 255
    ensures Pow(TWO, i) != Pow(TWO, j)
  {
    hide Mul, Pow;
    if Pow(TWO, i) == Pow(TWO, j) {
      var x := Pow(TWO, i);
      PowAdd(TWO, i, j - i);
      PowNonzero(TWO, i);
      MulInv(x);
      MulAssoc(Inv(x), x, Pow(TWO, j - i));
      MulOneLeft(Pow(TWO, j - i));
      Pow2Order(j - i);
    }
  }
}
