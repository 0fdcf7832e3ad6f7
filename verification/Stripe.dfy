/** The code as a specification: parities, deltas and codewords of byte columns. */
module Stripe {
  import opened Gf
  import opened LinAlg
  import opened Generator

  function GenRow(mode: Mode, p: nat, n: nat): (r: Vec)
    ensures |r| == n
  {
    seq(n, d requires 0 <= d < n => A(mode, p, d))
  }

  /** Parity p of one byte of every data block. */
  function Parity(mode: Mode, p: nat, col: Vec): GF { Dot(GenRow(mode, p, |col|), col) }

  type Blocks = seq<seq<GF>>

  predicate Sized(data: Blocks, size: nat) {
    forall d | 0 <= d < |data| :: |data[d]| == size
  }

  /** Byte i of every block. */
  function Column(data: Blocks, size: nat, i: nat): (c: Vec)
    requires Sized(data, size) && i < size
    ensures |c| == |data|
  {
    seq(|data|, d requires 0 <= d < |data| => data[d][i])
  }

  function Zeroed(col: Vec, id: seq<nat>): (r: Vec)
    ensures |r| == |col|
  {
    seq(|col|, d requires 0 <= d < |col| => if d in id then ZERO else col[d])
  }

  function Select(col: Vec, id: seq<nat>): (r: Vec)
    requires Below(id, |col|)
    ensures |r| == |id|
  {
    seq(|id|, k requires 0 <= k < |id| => col[id[k]])
  }

  lemma DotClear(row: Vec, c: Vec, x: nat)
    requires |row| == |c| && x < |c|
    ensures Dot(row, c) == Add(Dot(row, c[x := ZERO]), Mul(row[x], c[x]))
  {
    hide Add, Mul, Dot;
    var n := |c|;
    var e := Scale(c[x], Unit(x, n));
    forall i | 0 <= i < n ensures Add(c[x := ZERO][i], e[i]) == c[i] {
      MulZeroRight(c[x]);
      MulOneRight(c[x]);
      AddZero(c[i]);
    }
    assert VAdd(c[x := ZERO], e) == c;
    DotComm(row, c);
    DotAddLeft(c[x := ZERO], e, row);
    DotComm(row, c[x := ZERO]);
    DotScaleLeft(c[x], Unit(x, n), row);
    DotUnit(x, n, row);
    MulComm(row[x], c[x]);
  }

  /** What blanking the blocks id takes away from a parity. */
  lemma {:induction false} DeltaParity(mode: Mode, p: nat, col: Vec, id: seq<nat>)
    requires Increasing(id) && Below(id, |col|)
    ensures Add(Parity(mode, p, col), Parity(mode, p, Zeroed(col, id))) == Dot(Sub(mode, [p], id)[0], Select(col, id))
    decreases |id|
  {
    hide Add, Mul, Dot, A;
    var row := GenRow(mode, p, |col|);
    if |id| == 0 {
      assert Zeroed(col, id) == col;
      AddZero(Dot(row, col));
      assert Dot([], []) == ZERO by { DotZeros([], []); }
      assert Sub(mode, [p], id)[0] == [] && Select(col, id) == [];
    } else {
      var n := |id| - 1;
      var id', x := id[..n], id[n];
      var z := Zeroed(col, id');
      DeltaParity(mode, p, col, id');
      assert x !in id';
      assert z[x := ZERO] == Zeroed(col, id);
      DotClear(row, z, x);
      var e := Mul(row[x], col[x]);
      var a, b, c := Dot(row, col), Dot(row, z), Dot(row, z[x := ZERO]);
      AddCancel(c, e);
      AddAssoc(a, b, e);
      assert Sub(mode, [p], id)[0] == Sub(mode, [p], id')[0] + [row[x]];
      assert Select(col, id) == Select(col, id') + [col[x]];
      DotAppend(Sub(mode, [p], id')[0], [row[x]], Select(col, id'), [col[x]]);
      Dot1([row[x]], [col[x]]);
    }
  }

  /** Horner's rule for the powers of two, from the last disk down. */
  function Horner(col: Vec): GF {
    if |col| == 0 then ZERO else Add(X2(Horner(col[1..])), col[0])
  }

  function PowRow(s: nat, n: nat): (r: Vec)
    ensures |r| == n
  {
    seq<GF>(n, d requires 0 <= d < n => Pow2(s + d))
  }

  lemma {:induction false} HornerPow(s: nat, col: Vec)
    ensures Dot(PowRow(s, |col|), col) == Mul(Pow2(s), Horner(col))
    decreases |col|
  {
    hide Add, Mul, Pow, X2;
    if |col| == 0 {
      MulZeroRight(Pow2(s));
    } else {
      assert PowRow(s, |col|)[1..] == PowRow(s + 1, |col| - 1);
      HornerPow(s + 1, col[1..]);
      var h := Horner(col[1..]);
      Pow2Next(s);
      MulX2Left(Pow2(s), h);
      MulX2Right(Pow2(s), h);
      MulAddRight(Pow2(s), X2(h), col[0]);
      AddComm(Mul(Pow2(s), col[0]), Mul(Pow2(s), X2(h)));
    }
  }

  lemma HornerIsParity(mode: Mode, col: Vec)
    ensures Parity(mode, 1, col) == Horner(col)
  {
    hide Add, Mul, Pow, X2, Dot, Horner;
    assert GenRow(mode, 1, |col|) == PowRow(0, |col|);
    HornerPow(0, col);
    PowZero(TWO);
    MulOneLeft(Horner(col));
  }

  /** Halving, the inverse of doubling: 142 is half of 285 without its low bit. */
  function D2(a: GF): GF { if a % 2 == 0 then a / 2 else Add(a / 2, 142) }

  function D2Octet(x: Octet): Octet {
    Octet(x.b0, x.b7, x.b6, x.b5, x.b4 != x.b0, x.b3 != x.b0, x.b2 != x.b0, x.b1)
  }

  lemma Num142()
    ensures Num(Octet(true, false, false, false, true, true, true, false)) == 142
  {}

  lemma D2Num(x: Octet)
    ensures D2(Num(x)) == Num(D2Octet(x))
  {
    hide Num, Add;
    HalfNum(x);
    NumParity(x);
    if x.b0 {
      Num142();
      XorNum(HalfOctet(x), Octet(true, false, false, false, true, true, true, false));
    } else {
      assert D2Octet(x) == HalfOctet(x);
    }
  }

  lemma NumParity(x: Octet)
    ensures Num(x) % 2 == 1 <==> x.b0
  {}

  lemma D2X2(a: GF)
    ensures X2(D2(a)) == a && D2(X2(a)) == a
  {
    hide Num, X2, D2, Bits;
    var x := Bits(a);
    NumBits(a);
    D2Num(x);
    X2Num(x);
    X2Num(D2Octet(x));
    D2Num(X2Octet(x));
  }

  function HalfHorner(col: Vec): GF {
    if |col| == 0 then ZERO else Add(D2(HalfHorner(col[1..])), col[0])
  }

  function HalfRow(s: nat, n: nat): (r: Vec)
    ensures |r| == n
  {
    seq<GF>(n, d requires 0 <= d < n => ColPoint(s + d))
  }

  /** 2^-(s+1) is half of 2^-s. */
  lemma ColPointNext(s: nat)
    ensures ColPoint(s) == X2(ColPoint(s + 1))
  {
    hide Mul, Pow, Inv, X2;
    var g, h := Pow2(s), ColPoint(s + 1);
    InverseOfPower(s + 1);
    InverseOfPower(s);
    PowNonzero(TWO, s);
    Pow2Next(s);
    MulX2Left(g, h);
    MulX2Right(g, h);
    Cancel(g, X2(h), ColPoint(s));
  }

  lemma {:induction false} HalfHornerPow(s: nat, col: Vec)
    ensures Dot(HalfRow(s, |col|), col) == Mul(ColPoint(s), HalfHorner(col))
    decreases |col|
  {
    hide Add, Mul, Pow, X2, D2, ColPoint;
    if |col| == 0 {
      MulZeroRight(ColPoint(s));
    } else {
      assert HalfRow(s, |col|)[1..] == HalfRow(s + 1, |col| - 1);
      HalfHornerPow(s + 1, col[1..]);
      var h := HalfHorner(col[1..]);
      ColPointNext(s);
      D2X2(h);
      MulX2Left(ColPoint(s + 1), D2(h));
      MulX2Right(ColPoint(s + 1), D2(h));
      MulAddRight(ColPoint(s), D2(h), col[0]);
      AddComm(Mul(ColPoint(s), col[0]), Mul(ColPoint(s), D2(h)));
    }
  }

  lemma HalfHornerIsParity(col: Vec)
    ensures Parity(Vandermonde, 2, col) == HalfHorner(col)
  {
    hide Add, Mul, Pow, X2, Dot, HalfHorner, Inv;
    assert GenRow(Vandermonde, 2, |col|) == HalfRow(0, |col|);
    HalfHornerPow(0, col);
    InverseOfPower(0);
    PowZero(TWO);
    MulOneLeft(ColPoint(0));
    MulOneLeft(HalfHorner(col));
  }

  /** Plain xor of a column. */
  function XorAll(col: Vec): GF {
    if |col| == 0 then ZERO else Add(XorAll(col[1..]), col[0])
  }

  lemma {:induction false} XorIsParity(mode: Mode, col: Vec)
    ensures Parity(mode, 0, col) == XorAll(col)
    decreases |col|
  {
    hide Add, Mul;
    if |col| != 0 {
      assert GenRow(mode, 0, |col|)[1..] == GenRow(mode, 0, |col| - 1);
      XorIsParity(mode, col[1..]);
      MulOneLeft(col[0]);
      AddComm(col[0], XorAll(col[1..]));
    }
  }
}
