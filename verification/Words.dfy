/** The packed-word arithmetic of gf.h: eight field elements in a 64-bit word. */
module Words {
  import opened Gf
  import opened Stripe

  function X2_64(v: bv64): bv64 {
    var mask := v & 0x8080808080808080;
    var spread := (mask << 1) - (mask >> 7);
    ((v << 1) & 0xfefefefefefefefe) ^ (spread & 0x1d1d1d1d1d1d1d1d)
  }

  function D2_64(v: bv64): bv64 {
    var mask := v & 0x0101010101010101;
    var spread := (mask << 8) - mask;
    ((v >> 1) & 0x7f7f7f7f7f7f7f7f) ^ (spread & 0x8e8e8e8e8e8e8e8e)
  }

  /** The low byte of a word. */
  function LowBits(w: bv64): Octet {
    Octet(w & 0x80 != 0, w & 0x40 != 0, w & 0x20 != 0, w & 0x10 != 0,
          w & 0x08 != 0, w & 0x04 != 0, w & 0x02 != 0, w & 0x01 != 0)
  }

  function Low(w: bv64): GF { Num(LowBits(w)) }

  /** Byte k of a word, counted from the low end. */
  function Lane(w: bv64, k: nat): GF
    decreases k
  {
    if k == 0 then Low(w) else Lane(w >> 8, k - 1)
  }

  lemma LowBitsXor(w: bv64, x: bv64)
    ensures LowBits(w ^ x) == XorOctet(LowBits(w), LowBits(x))
  {
    assert (w ^ x) & 0x80 == (w & 0x80) ^ (x & 0x80);
    assert (w ^ x) & 0x40 == (w & 0x40) ^ (x & 0x40);
    assert (w ^ x) & 0x20 == (w & 0x20) ^ (x & 0x20);
    assert (w ^ x) & 0x10 == (w & 0x10) ^ (x & 0x10);
    assert (w ^ x) & 0x08 == (w & 0x08) ^ (x & 0x08);
    assert (w ^ x) & 0x04 == (w & 0x04) ^ (x & 0x04);
    assert (w ^ x) & 0x02 == (w & 0x02) ^ (x & 0x02);
    assert (w ^ x) & 0x01 == (w & 0x01) ^ (x & 0x01);
  }

  lemma LowXor(w: bv64, x: bv64)
    ensures Low(w ^ x) == Add(Low(w), Low(x))
  {
    hide LowBits, Num, Add, XorOctet;
    LowBitsXor(w, x);
    XorNum(LowBits(w), LowBits(x));
  }

  lemma {:induction false} LaneXor(w: bv64, x: bv64, k: nat)
    ensures Lane(w ^ x, k) == Add(Lane(w, k), Lane(x, k))
    decreases k
  {
    hide Add, Low;
    if k == 0 {
      LowXor(w, x);
    } else {
      ShiftXor(w, x);
      LaneXor(w >> 8, x >> 8, k - 1);
    }
  }

  lemma ShiftXor(w: bv64, x: bv64)
    ensures (w ^ x) >> 8 == (w >> 8) ^ (x >> 8)
  {}

  lemma SpreadShift(v: bv64)
    ensures (((v & 0x8080808080808080) << 1) - ((v & 0x8080808080808080) >> 7)) >> 8
         == (((v >> 8) & 0x8080808080808080) << 1) - (((v >> 8) & 0x8080808080808080) >> 7)
  {}

  lemma MaskShift(v: bv64, s: bv64)
    ensures (((v << 1) & 0xfefefefefefefefe) ^ (s & 0x1d1d1d1d1d1d1d1d)) >> 8
         == (((v >> 8) << 1) & 0xfefefefefefefefe) ^ ((s >> 8) & 0x1d1d1d1d1d1d1d1d)
  {}

  lemma X2Shift(v: bv64)
    ensures X2_64(v) >> 8 == X2_64(v >> 8)
  {
    SpreadShift(v);
    MaskShift(v, ((v & 0x8080808080808080) << 1) - ((v & 0x8080808080808080) >> 7));
  }

  lemma D2Shift(v: bv64)
    ensures D2_64(v) >> 8 == D2_64(v >> 8)
  {}

  lemma X2LowBits(v: bv64)
    ensures LowBits(X2_64(v)) == X2Octet(LowBits(v))
  {}

  lemma X2Low(v: bv64)
    ensures Low(X2_64(v)) == X2(Low(v))
  {
    hide LowBits, Num, X2, X2_64, X2Octet;
    X2LowBits(v);
    X2Num(LowBits(v));
  }

  lemma D2LowBits(v: bv64)
    ensures LowBits(D2_64(v)) == D2Octet(LowBits(v))
  {}

  lemma D2Low(v: bv64)
    ensures Low(D2_64(v)) == D2(Low(v))
  {
    hide LowBits, Num, D2, D2_64, D2Octet;
    D2LowBits(v);
    D2Num(LowBits(v));
  }

  /** x2_64 doubles every byte on its own. */
  lemma {:induction false} LaneX2(v: bv64, k: nat)
    ensures Lane(X2_64(v), k) == X2(Lane(v, k))
    decreases k
  {
    hide X2_64, X2, Low;
    if k == 0 {
      X2Low(v);
    } else {
      X2Shift(v);
      LaneX2(v >> 8, k - 1);
    }
  }

  /** d2_64 halves every byte on its own. */
  lemma {:induction false} LaneD2(v: bv64, k: nat)
    ensures Lane(D2_64(v), k) == D2(Lane(v, k))
    decreases k
  {
    hide D2_64, D2, Low;
    if k == 0 {
      D2Low(v);
    } else {
      D2Shift(v);
      LaneD2(v >> 8, k - 1);
    }
  }

  function OctetByte(g: Octet): bv64 {
    (if g.b7 then 0x80 else 0) | (if g.b6 then 0x40 else 0) | (if g.b5 then 0x20 else 0) | (if g.b4 then 0x10 else 0)
    | (if g.b3 then 0x08 else 0) | (if g.b2 then 0x04 else 0) | (if g.b1 then 0x02 else 0) | (if g.b0 then 0x01 else 0)
  }

  function ToByte(g: GF): bv64 { OctetByte(Bits(g)) }

  /** A little-endian load. */
  function Pack(s: seq<GF>): bv64
    requires |s| <= 8
  {
    if |s| == 0 then 0 else (Pack(s[1..]) << 8) | ToByte(s[0])
  }

  predicate Fits(w: bv64, n: nat) {
    if n == 0 then w == 0 else Fits(w >> 8, n - 1)
  }

  lemma OctetFits(g: Octet)
    ensures OctetByte(g) >> 8 == 0
  {}

  lemma ByteFits(g: GF)
    ensures ToByte(g) >> 8 == 0
  {
    hide OctetByte, Bits;
    OctetFits(Bits(g));
  }

  lemma LowOctet(r: bv64, g: Octet)
    ensures LowBits((r << 8) | OctetByte(g)) == g
  {}

  lemma LowByte(r: bv64, g: GF)
    ensures Low((r << 8) | ToByte(g)) == g
  {
    hide LowBits, OctetByte, Bits, Num;
    LowOctet(r, Bits(g));
    NumBits(g);
  }

  lemma {:induction false} FitsMore(w: bv64, n: nat)
    requires Fits(w, n)
    ensures Fits(w, n + 1)
    decreases n
  {
    if n != 0 { FitsMore(w >> 8, n - 1); }
  }

  lemma {:induction false} FitsUpTo7(w: bv64, n: nat)
    requires n <= 7 && Fits(w, n)
    ensures Fits(w, 7)
    decreases 7 - n
  {
    if n < 7 {
      FitsMore(w, n);
      FitsUpTo7(w, n + 1);
    }
  }

  lemma Fits7(w: bv64)
    requires Fits(w, 7)
    ensures w >> 56 == 0
  {
    assert Fits(w >> 8, 6);
    assert Fits(w >> 8 >> 8, 5);
    assert Fits(w >> 8 >> 8 >> 8, 4);
    assert Fits(w >> 8 >> 8 >> 8 >> 8, 3);
    assert Fits(w >> 8 >> 8 >> 8 >> 8 >> 8, 2);
    assert Fits(w >> 8 >> 8 >> 8 >> 8 >> 8 >> 8, 1);
    assert Fits(w >> 8 >> 8 >> 8 >> 8 >> 8 >> 8 >> 8, 0);
    ShiftSeven(w);
  }

  lemma ShiftSeven(w: bv64)
    ensures w >> 8 >> 8 >> 8 >> 8 >> 8 >> 8 >> 8 == w >> 56
  {}

  lemma ShiftBack(r: bv64, b: bv64)
    requires r >> 56 == 0 && b >> 8 == 0
    ensures ((r << 8) | b) >> 8 == r
  {}

  lemma {:induction false} PackFits(s: seq<GF>)
    requires |s| <= 8
    ensures Fits(Pack(s), |s|)
    decreases |s|
  {
    hide ToByte;
    if |s| != 0 {
      PackFits(s[1..]);
      PackShift(s);
    }
  }

  lemma PackShift(s: seq<GF>)
    requires 0 < |s| <= 8 && Fits(Pack(s[1..]), |s| - 1)
    ensures Pack(s) >> 8 == Pack(s[1..])
  {
    hide ToByte, Fits;
    FitsUpTo7(Pack(s[1..]), |s| - 1);
    Fits7(Pack(s[1..]));
    ByteFits(s[0]);
    ShiftBack(Pack(s[1..]), ToByte(s[0]));
  }

  lemma PackLow(s: seq<GF>)
    requires 0 < |s| <= 8
    ensures Low(Pack(s)) == s[0]
  {
    hide ToByte, Low;
    LowByte(Pack(s[1..]), s[0]);
  }

  lemma LaneZero(w: bv64)
    ensures Lane(w, 0) == Low(w)
  {}

  lemma LaneStep(w: bv64, k: nat)
    requires k > 0
    ensures Lane(w, k) == Lane(w >> 8, k - 1)
  {}

  /** A loaded word has the loaded bytes as its lanes. */
  lemma {:induction false} LanePack(s: seq<GF>, k: nat)
    requires k < |s| <= 8
    ensures Lane(Pack(s), k) == s[k]
    decreases k
  {
    hide Low, Fits, Pack, Lane;
    if k == 0 {
      PackLow(s);
      LaneZero(Pack(s));
    } else {
      PackFits(s[1..]);
      PackShift(s);
      LaneStep(Pack(s), k);
      LanePack(s[1..], k - 1);
    }
  }
}
