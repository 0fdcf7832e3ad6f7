/** Parity generation: the C loops of int.c and intz.c over a vector of block buffers. */
module Gen {
  import opened Gf
  import opened LinAlg
  import opened Generator
  import opened Stripe
  import opened Words

  type Block = array<GF>

  /** nd data blocks holding data and np parity buffers after them; outputs may alias each other but no input. */
  ghost predicate GenReady(vs: seq<Block>, nd: nat, np: nat, size: nat, data: Blocks)
    reads vs
  {
    && nd + np <= |vs| && |data| == nd && Sized(data, size)
    && (forall d | 0 <= d < nd + np :: vs[d].Length == size)
    && (forall d, x | 0 <= d < nd <= x < nd + np :: vs[d] != vs[x])
    && Holds(vs, nd, data)
  }

  ghost predicate Holds(vs: seq<Block>, nd: nat, data: Blocks)
    requires nd <= |vs| && nd <= |data|
    reads vs
  {
    && (forall d | 0 <= d < nd :: vs[d].Length == |data[d]|)
    && (forall d, i | 0 <= d < nd && 0 <= i < |data[d]| :: vs[d][i] == data[d][i])
  }

  /** No parity after block x is written to the same buffer. */
  ghost predicate Last(vs: seq<Block>, nd: nat, np: nat, x: nat)
    requires nd <= x < nd + np <= |vs|
  {
    forall y | x < y < nd + np :: vs[y] != vs[x]
  }

  /** The bytes below n of every parity buffer are those of the last parity written to it. */
  ghost predicate Written(mode: Mode, vs: seq<Block>, nd: nat, np: nat, size: nat, data: Blocks, n: nat)
    requires nd + np <= |vs| && n <= size && Sized(data, size)
    requires forall x | nd <= x < nd + np :: vs[x].Length == size
    reads vs
  {
    forall x, i | nd <= x < nd + np && 0 <= i < n && Last(vs, nd, np, x) ::
      vs[x][i] == Parity(mode, x - nd, Column(data, size, i))
  }

  // ------------------------------------------------------------- words

  method Load(b: Block, i: nat) returns (w: bv64)
    requires i + 8 <= b.Length
    ensures forall k | 0 <= k < 8 :: Lane(w, k) == b[i + k]
  {
    hide Lane, Pack;
    var s := b[i..i + 8];
    w := Pack(s);
    forall k | 0 <= k < 8 ensures Lane(w, k) == b[i + k] { LanePack(s, k); }
  }

  method Store(b: Block, i: nat, w: bv64)
    requires i + 8 <= b.Length
    modifies b
    ensures forall k | 0 <= k < 8 :: b[i + k] == Lane(w, k)
    ensures forall x | 0 <= x < b.Length && !(i <= x < i + 8) :: b[x] == old(b[x])
  {
    hide Lane;
    for k := 0 to 8
      invariant forall x | i <= x < i + k :: b[x] == Lane(w, x - i)
      invariant forall x | 0 <= x < b.Length && !(i <= x < i + k) :: b[x] == old(b[x])
    {
      b[i + k] := Lane(w, k);
    }
  }

  // ------------------------------------------------ running sums of a column

  function XorFrom(data: Blocks, size: nat, i: nat, d: nat): GF
    requires Sized(data, size) && i < size && d <= |data|
  {
    XorAll(Column(data, size, i)[d..])
  }

  function HornerFrom(data: Blocks, size: nat, i: nat, d: nat): GF
    requires Sized(data, size) && i < size && d <= |data|
  {
    Horner(Column(data, size, i)[d..])
  }

  function HalfFrom(data: Blocks, size: nat, i: nat, d: nat): GF
    requires Sized(data, size) && i < size && d <= |data|
  {
    HalfHorner(Column(data, size, i)[d..])
  }

  lemma FromStep(data: Blocks, size: nat, i: nat, d: nat)
    requires Sized(data, size) && i < size && d < |data|
    ensures XorFrom(data, size, i, d) == Add(XorFrom(data, size, i, d + 1), data[d][i])
    ensures HornerFrom(data, size, i, d) == Add(X2(HornerFrom(data, size, i, d + 1)), data[d][i])
    ensures HalfFrom(data, size, i, d) == Add(D2(HalfFrom(data, size, i, d + 1)), data[d][i])
  {
    hide Add, X2, D2;
    var c := Column(data, size, i);
    assert c[d..][1..] == c[d + 1..];
  }

  lemma FromLast(data: Blocks, size: nat, i: nat)
    requires Sized(data, size) && i < size && 0 < |data|
    ensures var l := |data| - 1; XorFrom(data, size, i, l) == HornerFrom(data, size, i, l) == HalfFrom(data, size, i, l) == data[l][i]
  {
    var l := |data| - 1;
    assert X2(ZERO) == ZERO && D2(ZERO) == ZERO;
    hide Add, X2, D2;
    FromStep(data, size, i, l);
    assert Column(data, size, i)[l + 1..] == [];
    AddZero(data[l][i]);
  }

  lemma FromZero(mode: Mode, data: Blocks, size: nat, i: nat)
    requires Sized(data, size) && i < size
    ensures XorFrom(data, size, i, 0) == Parity(mode, 0, Column(data, size, i))
    ensures HornerFrom(data, size, i, 0) == Parity(mode, 1, Column(data, size, i))
    ensures HalfFrom(data, size, i, 0) == Parity(Vandermonde, 2, Column(data, size, i))
  {
    hide Parity, XorAll, Horner, HalfHorner;
    var c := Column(data, size, i);
    assert c[0..] == c;
    XorIsParity(mode, c);
    HornerIsParity(mode, c);
    HalfHornerIsParity(c);
  }

  /** The lanes of w are the xor, Horner or halving sums of bytes i.. from disk d on. */
  ghost predicate XorWord(w: bv64, data: Blocks, size: nat, i: nat, d: nat)
    requires Sized(data, size) && i + 8 <= size && d <= |data|
  {
    forall k | 0 <= k < 8 :: Lane(w, k) == XorFrom(data, size, i + k, d)
  }

  ghost predicate HornerWord(w: bv64, data: Blocks, size: nat, i: nat, d: nat)
    requires Sized(data, size) && i + 8 <= size && d <= |data|
  {
    forall k | 0 <= k < 8 :: Lane(w, k) == HornerFrom(data, size, i + k, d)
  }

  ghost predicate HalfWord(w: bv64, data: Blocks, size: nat, i: nat, d: nat)
    requires Sized(data, size) && i + 8 <= size && d <= |data|
  {
    forall k | 0 <= k < 8 :: Lane(w, k) == HalfFrom(data, size, i + k, d)
  }

  ghost predicate DataWord(w: bv64, data: Blocks, size: nat, i: nat, d: nat)
    requires Sized(data, size) && i + 8 <= size && d < |data|
  {
    forall k | 0 <= k < 8 :: Lane(w, k) == data[d][i + k]
  }

  lemma WordLast(w: bv64, data: Blocks, size: nat, i: nat)
    requires Sized(data, size) && i + 8 <= size && 0 < |data| && DataWord(w, data, size, i, |data| - 1)
    ensures XorWord(w, data, size, i, |data| - 1) && HornerWord(w, data, size, i, |data| - 1)
    ensures HalfWord(w, data, size, i, |data| - 1)
  {
    hide Lane, XorFrom, HornerFrom, HalfFrom;
    forall k | 0 <= k < 8
      ensures Lane(w, k) == XorFrom(data, size, i + k, |data| - 1) == HornerFrom(data, size, i + k, |data| - 1)
              == HalfFrom(data, size, i + k, |data| - 1)
    {
      FromLast(data, size, i + k);
    }
  }

  lemma XorWordStep(w: bv64, x: bv64, data: Blocks, size: nat, i: nat, d: nat)
    requires Sized(data, size) && i + 8 <= size && d < |data|
    requires XorWord(w, data, size, i, d + 1) && DataWord(x, data, size, i, d)
    ensures XorWord(w ^ x, data, size, i, d)
  {
    hide Lane, XorFrom, HornerFrom, HalfFrom, Add;
    var y := w ^ x;
    forall k | 0 <= k < 8 ensures Lane(y, k) == XorFrom(data, size, i + k, d) {
      LaneXor(w, x, k);
      FromStep(data, size, i + k, d);
    }
  }

  lemma HornerWordStep(w: bv64, x: bv64, data: Blocks, size: nat, i: nat, d: nat)
    requires Sized(data, size) && i + 8 <= size && d < |data|
    requires HornerWord(w, data, size, i, d + 1) && DataWord(x, data, size, i, d)
    ensures HornerWord(X2_64(w) ^ x, data, size, i, d)
  {
    hide Lane, XorFrom, HornerFrom, HalfFrom, Add, X2, X2_64;
    var y := X2_64(w) ^ x;
    forall k | 0 <= k < 8 ensures Lane(y, k) == HornerFrom(data, size, i + k, d) {
      LaneXor(X2_64(w), x, k);
      LaneX2(w, k);
      FromStep(data, size, i + k, d);
    }
  }

  lemma HalfWordStep(w: bv64, x: bv64, data: Blocks, size: nat, i: nat, d: nat)
    requires Sized(data, size) && i + 8 <= size && d < |data|
    requires HalfWord(w, data, size, i, d + 1) && DataWord(x, data, size, i, d)
    ensures HalfWord(D2_64(w) ^ x, data, size, i, d)
  {
    hide Lane, XorFrom, HornerFrom, HalfFrom, Add, D2, D2_64;
    var y := D2_64(w) ^ x;
    forall k | 0 <= k < 8 ensures Lane(y, k) == HalfFrom(data, size, i + k, d) {
      LaneXor(D2_64(w), x, k);
      LaneD2(w, k);
      FromStep(data, size, i + k, d);
    }
  }

  /** The finished words hold parity bytes. */
  lemma XorWordDone(mode: Mode, w: bv64, data: Blocks, size: nat, i: nat)
    requires Sized(data, size) && i + 8 <= size && XorWord(w, data, size, i, 0)
    ensures forall k | 0 <= k < 8 :: Lane(w, k) == Parity(mode, 0, Column(data, size, i + k))
  {
    hide Lane, XorFrom, Parity;
    forall k | 0 <= k < 8 ensures Lane(w, k) == Parity(mode, 0, Column(data, size, i + k)) {
      FromZero(mode, data, size, i + k);
    }
  }

  lemma HornerWordDone(mode: Mode, w: bv64, data: Blocks, size: nat, i: nat)
    requires Sized(data, size) && i + 8 <= size && HornerWord(w, data, size, i, 0)
    ensures forall k | 0 <= k < 8 :: Lane(w, k) == Parity(mode, 1, Column(data, size, i + k))
  {
    hide Lane, HornerFrom, Parity;
    forall k | 0 <= k < 8 ensures Lane(w, k) == Parity(mode, 1, Column(data, size, i + k)) {
      FromZero(mode, data, size, i + k);
    }
  }

  lemma HalfWordDone(w: bv64, data: Blocks, size: nat, i: nat)
    requires Sized(data, size) && i + 8 <= size && HalfWord(w, data, size, i, 0)
    ensures forall k | 0 <= k < 8 :: Lane(w, k) == Parity(Vandermonde, 2, Column(data, size, i + k))
  {
    hide Lane, HalfFrom, Parity;
    forall k | 0 <= k < 8 ensures Lane(w, k) == Parity(Vandermonde, 2, Column(data, size, i + k)) {
      FromZero(Vandermonde, data, size, i + k);
    }
  }

  // --------------------------------------------------------- the C loops

  /** Bytes i..i+8 of b hold parity p. */
  ghost predicate Word(mode: Mode, b: Block, p: nat, data: Blocks, size: nat, i: nat)
    requires Sized(data, size) && i + 8 <= size && b.Length == size
    reads b
  {
    forall x | i <= x < i + 8 :: b[x] == Parity(mode, p, Column(data, size, x))
  }

  method StoreParity(mode: Mode, b: Block, p: nat, w: bv64, ghost data: Blocks, size: nat, i: nat)
    requires Sized(data, size) && i + 8 <= size && b.Length == size
    requires forall k | 0 <= k < 8 :: Lane(w, k) == Parity(mode, p, Column(data, size, i + k))
    modifies b
    ensures Word(mode, b, p, data, size, i)
    ensures forall x | 0 <= x < size && !(i <= x < i + 8) :: b[x] == old(b[x])
  {
    hide Lane, Parity;
    Store(b, i, w);
    forall x | i <= x < i + 8 ensures b[x] == Parity(mode, p, Column(data, size, x)) {
      assert b[i + (x - i)] == Lane(w, x - i);
    }
  }

  method LoadData(vs: seq<Block>, ghost data: Blocks, ghost nd: nat, size: nat, d: nat, i: nat) returns (w: bv64)
    requires d < nd <= |vs| && |data| == nd && Sized(data, size) && i + 8 <= size
    requires Holds(vs, nd, data)
    ensures DataWord(w, data, size, i, d)
  {
    hide Lane;
    w := Load(vs[d], i);
  }

  /** The disk loop of raid_gen1_int64 at offset i. */
  method Gen1Words(mode: Mode, vs: seq<Block>, nd: nat, size: nat, i: nat, ghost data: Blocks) returns (p0: bv64, p1: bv64)
    requires 0 < nd <= |vs| && |data| == nd && Sized(data, size) && i + 16 <= size && Holds(vs, nd, data)
    ensures forall k | 0 <= k < 8 :: Lane(p0, k) == Parity(mode, 0, Column(data, size, i + k))
    ensures forall k | 0 <= k < 8 :: Lane(p1, k) == Parity(mode, 0, Column(data, size, i + 8 + k))
  {
    hide Lane, Parity, XorWord, HornerWord, HalfWord, DataWord, Holds;
    var l := nd - 1;
    p0 := LoadData(vs, data, nd, size, l, i);
    p1 := LoadData(vs, data, nd, size, l, i + 8);
    WordLast(p0, data, size, i);
    WordLast(p1, data, size, i + 8);
    var d := l;
    while d > 0
      invariant 0 <= d <= l && XorWord(p0, data, size, i, d) && XorWord(p1, data, size, i + 8, d)
    {
      d := d - 1;
      var d0 := LoadData(vs, data, nd, size, d, i);
      var d1 := LoadData(vs, data, nd, size, d, i + 8);
      XorWordStep(p0, d0, data, size, i, d);
      XorWordStep(p1, d1, data, size, i + 8, d);
      p0 := p0 ^ d0;
      p1 := p1 ^ d1;
    }
    XorWordDone(mode, p0, data, size, i);
    XorWordDone(mode, p1, data, size, i + 8);
  }

  lemma NextFits(i: nat, size: nat)
    requires i < size && i % 16 == 0 && size % 64 == 0
    ensures i + 16 <= size && (i + 16) % 16 == 0
  {}

  /** raid_gen1_int64. */
  method Gen1(mode: Mode, vs: seq<Block>, nd: nat, size: nat, ghost data: Blocks)
    requires 0 < nd && size % 64 == 0 && nd + 1 <= |vs| && GenReady(vs, nd, 1, size, data)
    modifies vs[nd]
    ensures Written(mode, vs, nd, 1, size, data, size) && Holds(vs, nd, data)
  {
    var p := vs[nd];
    assert Filled(mode, p, 0, data, size, 0);
    hide Lane, Parity, Filled;
    var i := 0;
    while i < size
      invariant i <= size && i % 16 == 0
      invariant Holds(vs, nd, data) && Filled(mode, p, 0, data, size, i)
    {
      NextFits(i, size);
      var p0, p1 := Gen1Words(mode, vs, nd, size, i, data);
      StorePair(mode, p, 0, p0, p1, data, size, i);
      i := i + 16;
    }
    AllFilled(mode, vs, nd, 1, size, data);
  }

  /** The disk loop of raid_gen2_int64 at offset i. */
  method Gen2Words(mode: Mode, vs: seq<Block>, nd: nat, size: nat, i: nat, ghost data: Blocks)
    returns (p0: bv64, p1: bv64, q0: bv64, q1: bv64)
    requires 0 < nd <= |vs| && |data| == nd && Sized(data, size) && i + 16 <= size && Holds(vs, nd, data)
    ensures forall k | 0 <= k < 8 :: Lane(p0, k) == Parity(mode, 0, Column(data, size, i + k))
    ensures forall k | 0 <= k < 8 :: Lane(p1, k) == Parity(mode, 0, Column(data, size, i + 8 + k))
    ensures forall k | 0 <= k < 8 :: Lane(q0, k) == Parity(mode, 1, Column(data, size, i + k))
    ensures forall k | 0 <= k < 8 :: Lane(q1, k) == Parity(mode, 1, Column(data, size, i + 8 + k))
  {
    hide Lane, Parity, XorWord, HornerWord, HalfWord, DataWord, Holds, X2_64;
    var l := nd - 1;
    p0 := LoadData(vs, data, nd, size, l, i);
    p1 := LoadData(vs, data, nd, size, l, i + 8);
    WordLast(p0, data, size, i);
    WordLast(p1, data, size, i + 8);
    q0, q1 := p0, p1;
    var d := l;
    while d > 0
      invariant 0 <= d <= l && XorWord(p0, data, size, i, d) && XorWord(p1, data, size, i + 8, d)
      invariant HornerWord(q0, data, size, i, d) && HornerWord(q1, data, size, i + 8, d)
    {
      d := d - 1;
      var d0 := LoadData(vs, data, nd, size, d, i);
      var d1 := LoadData(vs, data, nd, size, d, i + 8);
      XorWordStep(p0, d0, data, size, i, d);
      XorWordStep(p1, d1, data, size, i + 8, d);
      HornerWordStep(q0, d0, data, size, i, d);
      HornerWordStep(q1, d1, data, size, i + 8, d);
      p0 := p0 ^ d0;
      p1 := p1 ^ d1;
      q0 := X2_64(q0) ^ d0;
      q1 := X2_64(q1) ^ d1;
    }
    XorWordDone(mode, p0, data, size, i);
    XorWordDone(mode, p1, data, size, i + 8);
    HornerWordDone(mode, q0, data, size, i);
    HornerWordDone(mode, q1, data, size, i + 8);
  }

  /** The bytes below n of b are those of parity p. */
  ghost predicate Filled(mode: Mode, b: Block, p: nat, data: Blocks, size: nat, n: nat)
    requires Sized(data, size) && n <= size == b.Length
    reads b
  {
    forall x | 0 <= x < n :: b[x] == Parity(mode, p, Column(data, size, x))
  }

  lemma AllFilled(mode: Mode, vs: seq<Block>, nd: nat, np: nat, size: nat, data: Blocks)
    requires nd + np <= |vs| && Sized(data, size)
    requires forall x | nd <= x < nd + np :: vs[x].Length == size
    requires forall x | nd <= x < nd + np && Last(vs, nd, np, x) :: Filled(mode, vs[x], x - nd, data, size, size)
    ensures Written(mode, vs, nd, np, size, data, size)
  {}

  /** Two words of one parity are written; the bytes below i and of other buffers stay. */
  method StorePair(mode: Mode, b: Block, p: nat, w0: bv64, w1: bv64, ghost data: Blocks, size: nat, i: nat)
    requires Sized(data, size) && i + 16 <= size && b.Length == size
    requires forall k | 0 <= k < 8 :: Lane(w0, k) == Parity(mode, p, Column(data, size, i + k))
    requires forall k | 0 <= k < 8 :: Lane(w1, k) == Parity(mode, p, Column(data, size, i + 8 + k))
    modifies b
    ensures old(Filled(mode, b, p, data, size, i)) ==> Filled(mode, b, p, data, size, i + 16)
    ensures forall r: nat :: old(Filled(mode, b, r, data, size, i)) ==> Filled(mode, b, r, data, size, i)
  {
    hide Lane, Parity;
    StoreParity(mode, b, p, w0, data, size, i);
    StoreParity(mode, b, p, w1, data, size, i + 8);
  }

  method Gen2At(mode: Mode, vs: seq<Block>, nd: nat, size: nat, i: nat, ghost data: Blocks)
    requires 0 < nd && nd + 2 <= |vs| && GenReady(vs, nd, 2, size, data) && i + 16 <= size
    requires var p, q := vs[nd], vs[nd + 1];
      (p != q ==> Filled(mode, p, 0, data, size, i)) && Filled(mode, q, 1, data, size, i)
    modifies vs[nd], vs[nd + 1]
    ensures Holds(vs, nd, data)
    ensures var p, q := vs[nd], vs[nd + 1];
      (p != q ==> Filled(mode, p, 0, data, size, i + 16)) && Filled(mode, q, 1, data, size, i + 16)
  {
    hide Lane, Parity, Filled;
    var p0, p1, q0, q1 := Gen2Words(mode, vs, nd, size, i, data);
    StorePair(mode, vs[nd], 0, p0, p1, data, size, i);
    StorePair(mode, vs[nd + 1], 1, q0, q1, data, size, i);
  }

  lemma Filled2(mode: Mode, vs: seq<Block>, nd: nat, size: nat, data: Blocks)
    requires nd + 2 <= |vs| && Sized(data, size) && vs[nd].Length == vs[nd + 1].Length == size
    requires vs[nd] != vs[nd + 1] ==> Filled(mode, vs[nd], 0, data, size, size)
    requires Filled(mode, vs[nd + 1], 1, data, size, size)
    ensures Written(mode, vs, nd, 2, size, data, size)
  {
    hide Filled, Parity;
    AllFilled(mode, vs, nd, 2, size, data);
  }

  /** raid_gen2_int64. */
  method Gen2(mode: Mode, vs: seq<Block>, nd: nat, size: nat, ghost data: Blocks)
    requires 0 < nd && size % 64 == 0 && nd + 2 <= |vs| && GenReady(vs, nd, 2, size, data)
    modifies vs[nd], vs[nd + 1]
    ensures Written(mode, vs, nd, 2, size, data, size) && Holds(vs, nd, data)
  {
    var p, q := vs[nd], vs[nd + 1];
    assert Filled(mode, p, 0, data, size, 0) && Filled(mode, q, 1, data, size, 0);
    hide Lane, Parity, Filled, Written, Holds;
    var i := 0;
    while i < size
      invariant i <= size && i % 16 == 0
      invariant Holds(vs, nd, data) && (p != q ==> Filled(mode, p, 0, data, size, i)) && Filled(mode, q, 1, data, size, i)
    {
      NextFits(i, size);
      Gen2At(mode, vs, nd, size, i, data);
      i := i + 16;
    }
    Filled2(mode, vs, nd, size, data);
  }

  /** The disk loop of raid_genz_int64 at offset i. */
  method GenZWords(vs: seq<Block>, nd: nat, size: nat, i: nat, ghost data: Blocks)
    returns (p0: bv64, p1: bv64, q0: bv64, q1: bv64, r0: bv64, r1: bv64)
    requires 0 < nd <= |vs| && |data| == nd && Sized(data, size) && i + 16 <= size && Holds(vs, nd, data)
    ensures forall k | 0 <= k < 8 :: Lane(p0, k) == Parity(Vandermonde, 0, Column(data, size, i + k))
    ensures forall k | 0 <= k < 8 :: Lane(p1, k) == Parity(Vandermonde, 0, Column(data, size, i + 8 + k))
    ensures forall k | 0 <= k < 8 :: Lane(q0, k) == Parity(Vandermonde, 1, Column(data, size, i + k))
    ensures forall k | 0 <= k < 8 :: Lane(q1, k) == Parity(Vandermonde, 1, Column(data, size, i + 8 + k))
    ensures forall k | 0 <= k < 8 :: Lane(r0, k) == Parity(Vandermonde, 2, Column(data, size, i + k))
    ensures forall k | 0 <= k < 8 :: Lane(r1, k) == Parity(Vandermonde, 2, Column(data, size, i + 8 + k))
  {
    hide Lane, Parity, XorWord, HornerWord, HalfWord, DataWord, Holds, X2_64, D2_64;
    var l := nd - 1;
    p0 := LoadData(vs, data, nd, size, l, i);
    p1 := LoadData(vs, data, nd, size, l, i + 8);
    WordLast(p0, data, size, i);
    WordLast(p1, data, size, i + 8);
    q0, q1, r0, r1 := p0, p1, p0, p1;
    var d := l;
    while d > 0
      invariant 0 <= d <= l && XorWord(p0, data, size, i, d) && XorWord(p1, data, size, i + 8, d)
      invariant HornerWord(q0, data, size, i, d) && HornerWord(q1, data, size, i + 8, d)
      invariant HalfWord(r0, data, size, i, d) && HalfWord(r1, data, size, i + 8, d)
    {
      d := d - 1;
      var d0 := LoadData(vs, data, nd, size, d, i);
      var d1 := LoadData(vs, data, nd, size, d, i + 8);
      XorWordStep(p0, d0, data, size, i, d);
      XorWordStep(p1, d1, data, size, i + 8, d);
      HornerWordStep(q0, d0, data, size, i, d);
      HornerWordStep(q1, d1, data, size, i + 8, d);
      HalfWordStep(r0, d0, data, size, i, d);
      HalfWordStep(r1, d1, data, size, i + 8, d);
      p0 := p0 ^ d0;
      p1 := p1 ^ d1;
      q0 := X2_64(q0) ^ d0;
      q1 := X2_64(q1) ^ d1;
      r0 := D2_64(r0) ^ d0;
      r1 := D2_64(r1) ^ d1;
    }
    XorWordDone(Vandermonde, p0, data, size, i);
    XorWordDone(Vandermonde, p1, data, size, i + 8);
    HornerWordDone(Vandermonde, q0, data, size, i);
    HornerWordDone(Vandermonde, q1, data, size, i + 8);
    HalfWordDone(r0, data, size, i);
    HalfWordDone(r1, data, size, i + 8);
  }

  method GenZAt(vs: seq<Block>, nd: nat, size: nat, i: nat, ghost data: Blocks)
    requires 0 < nd && nd + 3 <= |vs| && GenReady(vs, nd, 3, size, data) && i + 16 <= size
    requires var p, q, r := vs[nd], vs[nd + 1], vs[nd + 2];
      && (p != q && p != r ==> Filled(Vandermonde, p, 0, data, size, i))
      && (q != r ==> Filled(Vandermonde, q, 1, data, size, i)) && Filled(Vandermonde, r, 2, data, size, i)
    modifies vs[nd], vs[nd + 1], vs[nd + 2]
    ensures Holds(vs, nd, data)
    ensures var p, q, r := vs[nd], vs[nd + 1], vs[nd + 2];
      && (p != q && p != r ==> Filled(Vandermonde, p, 0, data, size, i + 16))
      && (q != r ==> Filled(Vandermonde, q, 1, data, size, i + 16)) && Filled(Vandermonde, r, 2, data, size, i + 16)
  {
    hide Lane, Parity, Filled;
    var p0, p1, q0, q1, r0, r1 := GenZWords(vs, nd, size, i, data);
    StorePair(Vandermonde, vs[nd], 0, p0, p1, data, size, i);
    StorePair(Vandermonde, vs[nd + 1], 1, q0, q1, data, size, i);
    StorePair(Vandermonde, vs[nd + 2], 2, r0, r1, data, size, i);
  }

  lemma Filled3(vs: seq<Block>, nd: nat, size: nat, data: Blocks)
    requires nd + 3 <= |vs| && Sized(data, size) && vs[nd].Length == vs[nd + 1].Length == vs[nd + 2].Length == size
    requires vs[nd] != vs[nd + 1] && vs[nd] != vs[nd + 2] ==> Filled(Vandermonde, vs[nd], 0, data, size, size)
    requires vs[nd + 1] != vs[nd + 2] ==> Filled(Vandermonde, vs[nd + 1], 1, data, size, size)
    requires Filled(Vandermonde, vs[nd + 2], 2, data, size, size)
    ensures Written(Vandermonde, vs, nd, 3, size, data, size)
  {
    hide Filled, Parity;
    AllFilled(Vandermonde, vs, nd, 3, size, data);
  }

  /** raid_genz_int64. */
  method GenZ(vs: seq<Block>, nd: nat, size: nat, ghost data: Blocks)
    requires 0 < nd && size % 64 == 0 && nd + 3 <= |vs| && GenReady(vs, nd, 3, size, data)
    modifies vs[nd], vs[nd + 1], vs[nd + 2]
    ensures Written(Vandermonde, vs, nd, 3, size, data, size) && Holds(vs, nd, data)
  {
    var p, q, r := vs[nd], vs[nd + 1], vs[nd + 2];
    assert Filled(Vandermonde, p, 0, data, size, 0) && Filled(Vandermonde, q, 1, data, size, 0);
    assert Filled(Vandermonde, r, 2, data, size, 0);
    hide Lane, Parity, Filled, Written, Holds;
    var i := 0;
    while i < size
      invariant i <= size && i % 16 == 0
      invariant Holds(vs, nd, data) && Filled(Vandermonde, r, 2, data, size, i)
      invariant q != r ==> Filled(Vandermonde, q, 1, data, size, i)
      invariant p != q && p != r ==> Filled(Vandermonde, p, 0, data, size, i)
    {
      NextFits(i, size);
      GenZAt(vs, nd, size, i, data);
      i := i + 16;
    }
    Filled3(vs, nd, size, data);
  }

  // ----------------------------------------- byte loops for three and more

  /** The first disk has coefficient 1 in every parity. */
  lemma FirstColumn(mode: Mode, p: nat)
    requires p < MaxParity(mode)
    ensures A(mode, p, 0) == ONE
  {
    hide Mul, Add, Inv, Pow;
    PowZero(TWO);
    assert Pow2(0) == ONE;
    assert ColPoint(0) == ONE by { MulInv(ONE); MulOneLeft(Inv(ONE)); }
    if p >= 2 && mode.Cauchy? {
      RowFactor(p);
      MulInv(Add(ONE, RowPoint(p)));
    }
  }

  /** Parity p of the bytes from disk d on. */
  function ParityFrom(mode: Mode, p: nat, col: Vec, d: nat): GF
    requires d <= |col|
  {
    Dot(GenRow(mode, p, |col|)[d..], col[d..])
  }

  lemma ParityFromStep(mode: Mode, p: nat, col: Vec, d: nat)
    requires d < |col|
    ensures ParityFrom(mode, p, col, d) == Add(ParityFrom(mode, p, col, d + 1), Mul(col[d], A(mode, p, d)))
  {
    hide Add, Mul, A;
    var row := GenRow(mode, p, |col|);
    assert row[d..][1..] == row[d + 1..] && col[d..][1..] == col[d + 1..];
    MulComm(A(mode, p, d), col[d]);
    AddComm(Mul(A(mode, p, d), col[d]), ParityFrom(mode, p, col, d + 1));
  }

  lemma ParityFromEnds(mode: Mode, p: nat, col: Vec)
    ensures ParityFrom(mode, p, col, |col|) == ZERO && ParityFrom(mode, p, col, 0) == Parity(mode, p, col)
  {
    assert GenRow(mode, p, |col|)[0..] == GenRow(mode, p, |col|) && col[0..] == col;
  }

  /** The disk loop of raid_gen3_int8 .. raid_gen6_int8 at offset i. */
  method GenNBytes(mode: Mode, vs: seq<Block>, nd: nat, np: nat, size: nat, i: nat, ghost data: Blocks) returns (acc: seq<GF>)
    requires 0 < nd <= |vs| && |data| == nd && Sized(data, size) && i < size && Holds(vs, nd, data)
    requires 0 < np <= MaxParity(mode)
    ensures |acc| == np && forall p | 0 <= p < np :: acc[p] == Parity(mode, p, Column(data, size, i))
  {
    hide Add, Mul, A, ParityFrom, Parity;
    ghost var col := Column(data, size, i);
    acc := seq(np, p => ZERO);
    forall p | 0 <= p < np ensures ParityFrom(mode, p, col, nd) == ZERO { ParityFromEnds(mode, p, col); }
    var d := nd;
    while d > 1
      invariant 1 <= d <= nd && |acc| == np
      invariant forall p | 0 <= p < np :: acc[p] == ParityFrom(mode, p, col, d)
    {
      d := d - 1;
      var d0 := vs[d][i];
      forall p | 0 <= p < np ensures Add(acc[p], Mul(d0, A(mode, p, d))) == ParityFrom(mode, p, col, d) {
        ParityFromStep(mode, p, col, d);
      }
      MulOneRight(d0);
      RowZero(mode, d);
      acc := seq(np, p requires 0 <= p < np == |acc| => Add(acc[p], if p == 0 then d0 else Mul(d0, A(mode, p, d))));
    }
    var d0 := vs[0][i];
    forall p | 0 <= p < np ensures Add(acc[p], d0) == Parity(mode, p, col) {
      ParityFromStep(mode, p, col, 0);
      ParityFromEnds(mode, p, col);
      FirstColumn(mode, p);
      MulOneRight(d0);
    }
    acc := seq(np, p requires 0 <= p < np == |acc| => Add(acc[p], d0));
  }

  lemma RowZero(mode: Mode, d: nat)
    ensures A(mode, 0, d) == ONE
  {}

  /** Byte i of the parity buffers is written in order, first parity first. */
  method WriteColumn(vs: seq<Block>, nd: nat, np: nat, size: nat, i: nat, acc: seq<GF>, ghost outs: set<Block>)
    requires nd + np <= |vs| && |acc| == np && i < size
    requires forall x | nd <= x < nd + np :: vs[x].Length == size && vs[x] in outs
    modifies outs
    ensures forall x | nd <= x < nd + np && Last(vs, nd, np, x) :: vs[x][i] == acc[x - nd]
    ensures forall b: Block, k | b in outs && 0 <= k < b.Length && k != i :: b[k] == old(b[k])
  {
    hide Last;
    for j := 0 to np
      invariant forall x | nd <= x < nd + j && Last(vs, nd, j, x) :: vs[x][i] == acc[x - nd]
      invariant forall b: Block, k | b in outs && 0 <= k < b.Length && k != i :: b[k] == old(b[k])
    {
      LastStep(vs, nd, j);
      vs[nd + j][i] := acc[j];
    }
  }

  lemma LastStep(vs: seq<Block>, nd: nat, j: nat)
    requires nd + j + 1 <= |vs|
    ensures forall x | nd <= x < nd + j && Last(vs, nd, j + 1, x) :: Last(vs, nd, j, x) && vs[x] != vs[nd + j]
  {}

  /** The parity buffers. */
  ghost function Outputs(vs: seq<Block>, nd: nat, np: nat): (r: set<Block>)
    requires nd + np <= |vs|
    ensures forall x | nd <= x < nd + np :: vs[x] in r
    ensures forall b | b in r :: exists x :: nd <= x < nd + np && vs[x] == b
  {
    set x | nd <= x < nd + np :: vs[x]
  }

  method GenNAt(mode: Mode, vs: seq<Block>, nd: nat, np: nat, size: nat, i: nat, ghost data: Blocks)
    requires 0 < nd && 0 < np <= MaxParity(mode) && GenReady(vs, nd, np, size, data) && i < size
    requires Written(mode, vs, nd, np, size, data, i)
    modifies Outputs(vs, nd, np)
    ensures Holds(vs, nd, data) && Written(mode, vs, nd, np, size, data, i + 1)
  {
    hide Parity, Outputs, Last;
    var acc := GenNBytes(mode, vs, nd, np, size, i, data);
    ghost var outs := Outputs(vs, nd, np);
    assert forall d | 0 <= d < nd :: vs[d] !in outs;
    WriteColumn(vs, nd, np, size, i, acc, outs);
  }

  /** raid_gen3_int8, raid_gen4_int8, raid_gen5_int8 and raid_gen6_int8. */
  method GenN(mode: Mode, vs: seq<Block>, nd: nat, np: nat, size: nat, ghost data: Blocks)
    requires 0 < nd && 0 < np <= MaxParity(mode) && GenReady(vs, nd, np, size, data)
    modifies Outputs(vs, nd, np)
    ensures Written(mode, vs, nd, np, size, data, size) && Holds(vs, nd, data)
  {
    hide Parity, Outputs, Last, Holds;
    assert Written(mode, vs, nd, np, size, data, 0);
    hide Written;
    for i := 0 to size
      invariant Holds(vs, nd, data) && Written(mode, vs, nd, np, size, data, i)
    {
      GenNAt(mode, vs, nd, np, size, i, data);
    }
  }

  /** raid_gen: the forwarder picks the loop for np parities in the mode in force. */
  method RaidGen(mode: Mode, vs: seq<Block>, nd: nat, np: nat, size: nat, ghost data: Blocks)
    requires 0 < nd && size % 64 == 0 && 1 <= np <= MaxParity(mode) && GenReady(vs, nd, np, size, data)
    modifies Outputs(vs, nd, np)
    ensures Written(mode, vs, nd, np, size, data, size) && Holds(vs, nd, data)
  {
    hide Parity, Outputs, Written, Holds;
    if np == 1 {
      Gen1(mode, vs, nd, size, data);
    } else if np == 2 {
      Gen2(mode, vs, nd, size, data);
    } else if np == 3 && mode.Vandermonde? {
      GenZ(vs, nd, size, data);
    } else {
      GenN(mode, vs, nd, np, size, data);
    }
  }
}
