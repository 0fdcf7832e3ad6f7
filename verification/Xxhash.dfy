/** XXH64 of linux/xxhash.c: one-shot and streaming, on 64-bit words with wrap-around. */
module Xxhash {
  import Gf

  type U8 = x: nat | x < 256

  type U64 = x: nat | x < 0x1_0000_0000_0000_0000

  const PRIME64_1: U64 := 11400714785074694791
  const PRIME64_2: U64 := 14029467366897019727
  const PRIME64_3: U64 := 1609587929392839161
  const PRIME64_4: U64 := 9650029242287828579
  const PRIME64_5: U64 := 2870177450012600261

  // ------------------------------------------------------------------ word arithmetic

  function Wrap(x: int): U64 { x % 0x1_0000_0000_0000_0000 }

  function Plus(a: U64, b: U64): U64 { Wrap(a + b) }

  function Times(a: U64, b: U64): U64 { Wrap(a * b) }

  function Shl(x: nat, r: nat): nat { if r == 0 then x else 2 * Shl(x, r - 1) }

  function Shr(x: nat, r: nat): nat { if r == 0 then x else Shr(x, r - 1) / 2 }

  function Rotl(x: U64, r: nat): U64
    requires r <= 64
  {
    Wrap(Shl(x, r) + Shr(x, 64 - r))
  }

  function Exor(a: U64, b: U64): U64 { Wrap(Gf.Xor(a, b)) }

  function Le(bytes: seq<U8>): nat { if |bytes| == 0 then 0 else bytes[0] + 256 * Le(bytes[1..]) }

  /** The little-endian word at p. */
  function Word(data: seq<U8>, p: nat, n: nat): U64
    requires p + n <= |data|
  {
    Wrap(Le(data[p..p + n]))
  }

  // ----------------------------------------------------------------------- rounds

  function Round(acc: U64, input: U64): U64 {
    Times(Rotl(Plus(acc, Times(input, PRIME64_2)), 31), PRIME64_1)
  }

  function MergeRound(acc: U64, val: U64): U64 {
    Plus(Times(Exor(acc, Round(0, val)), PRIME64_1), PRIME64_4)
  }

  datatype Lanes = Lanes(v1: U64, v2: U64, v3: U64, v4: U64)

  function Start(seed: U64): Lanes {
    Lanes(Plus(Plus(seed, PRIME64_1), PRIME64_2), Plus(seed, PRIME64_2), seed, Wrap(seed - PRIME64_1))
  }

  /** One stripe of 32 bytes at p. */
  function Stripe(v: Lanes, data: seq<U8>, p: nat): Lanes
    requires p + 32 <= |data|
  {
    Lanes(Round(v.v1, Word(data, p, 8)), Round(v.v2, Word(data, p + 8, 8)),
          Round(v.v3, Word(data, p + 16, 8)), Round(v.v4, Word(data, p + 24, 8)))
  }

  /** All whole stripes of the data. */
  function Stripes(v: Lanes, data: seq<U8>): Lanes
    decreases |data|
  {
    if |data| < 32 then v else Stripes(Stripe(v, data, 0), data[32..])
  }

  function Merge(v: Lanes): U64 {
    var h := Plus(Plus(Plus(Rotl(v.v1, 1), Rotl(v.v2, 7)), Rotl(v.v3, 12)), Rotl(v.v4, 18));
    MergeRound(MergeRound(MergeRound(MergeRound(h, v.v1), v.v2), v.v3), v.v4)
  }

  function TailWord(h: U64, k: U64): U64 { Plus(Times(Rotl(Exor(h, Round(0, k)), 27), PRIME64_1), PRIME64_4) }

  function TailHalf(h: U64, k: U64): U64 { Plus(Times(Rotl(Exor(h, Times(k, PRIME64_1)), 23), PRIME64_2), PRIME64_3) }

  function TailByte(h: U64, b: U8): U64 { Times(Rotl(Exor(h, Times(b, PRIME64_5)), 11), PRIME64_1) }

  function TailBytes(h: U64, rest: seq<U8>): U64
    decreases |rest|
  {
    if |rest| == 0 then h else TailBytes(TailByte(h, rest[0]), rest[1..])
  }

  /** What is left after the stripes: words, then a half word, then bytes. */
  function Tail(h: U64, rest: seq<U8>): U64
    decreases |rest|
  {
    if |rest| >= 8 then Tail(TailWord(h, Word(rest, 0, 8)), rest[8..])
    else if |rest| >= 4 then TailBytes(TailHalf(h, Word(rest, 0, 4)), rest[4..])
    else TailBytes(h, rest)
  }

  function Avalanche(h: U64): U64 {
    var h1 := Times(Exor(h, Wrap(Shr(h, 33))), PRIME64_2);
    var h2 := Times(Exor(h1, Wrap(Shr(h1, 29))), PRIME64_3);
    Exor(h2, Wrap(Shr(h2, 32)))
  }

  /** The number of bytes in whole stripes. */
  function Whole(n: nat): (r: nat)
    ensures r <= n && n - r < 32 && r % 32 == 0
  {
    n - n % 32
  }

  /** The XXH64 algorithm: stripes if there is a whole one, length, tail, avalanche. */
  function Hash(seed: U64, data: seq<U8>): U64 {
    var h := if |data| >= 32 then Merge(Stripes(Start(seed), data)) else Plus(seed, PRIME64_5);
    Avalanche(Tail(Plus(h, Wrap(|data|)), data[Whole(|data|)..]))
  }

  // ------------------------------------------------------------------------ one shot

  lemma StripeAt(v: Lanes, data: seq<U8>, p: nat)
    requires p + 32 <= |data|
    ensures Stripe(v, data, p) == Stripe(v, data[p..], 0)
  {
    hide Round, Wrap, Le;
    assert data[p..][0..8] == data[p..p + 8];
    assert data[p..][8..16] == data[p + 8..p + 16];
    assert data[p..][16..24] == data[p + 16..p + 24];
    assert data[p..][24..32] == data[p + 24..p + 32];
  }

  lemma StripesAt(v: Lanes, data: seq<U8>, p: nat)
    requires p + 32 <= |data|
    ensures Stripes(v, data[p..]) == Stripes(Stripe(v, data, p), data[p + 32..])
  {
    hide Stripe;
    StripeAt(v, data, p);
    assert data[p..][32..] == data[p + 32..];
  }

  lemma StripesEnd(v: Lanes, data: seq<U8>)
    requires |data| < 32
    ensures Stripes(v, data) == v
  {}

  /** The do-while over whole stripes from p. */
  method RunStripes(v: Lanes, data: seq<U8>, p: nat) returns (w: Lanes, q: nat)
    requires p + 32 <= |data|
    ensures p <= q <= |data| && |data| - q < 32 && (q - p) % 32 == 0
    ensures w == Stripes(v, data[p..])
  {
    hide Stripe, Stripes;
    StripesAt(v, data, p);
    w := Stripe(v, data, p);
    q := p + 32;
    while q + 32 <= |data|
      invariant p <= q <= |data| && (q - p) % 32 == 0
      invariant Stripes(w, data[q..]) == Stripes(v, data[p..])
    {
      StripesAt(w, data, q);
      w := Stripe(w, data, q);
      q := q + 32;
    }
    StripesEnd(w, data[q..]);
  }

  lemma TailStep(h: U64, data: seq<U8>, p: nat)
    requires p + 8 <= |data|
    ensures Tail(h, data[p..]) == Tail(TailWord(h, Word(data, p, 8)), data[p + 8..])
  {
    hide TailWord, TailHalf, TailByte, Wrap, Le;
    assert data[p..][0..8] == data[p..p + 8] && data[p..][8..] == data[p + 8..];
  }

  lemma TailHalfStep(h: U64, data: seq<U8>, p: nat)
    requires p + 4 <= |data| < p + 8
    ensures Tail(h, data[p..]) == TailBytes(TailHalf(h, Word(data, p, 4)), data[p + 4..])
  {
    hide TailWord, TailHalf, TailByte, Wrap, Le;
    assert data[p..][0..4] == data[p..p + 4] && data[p..][4..] == data[p + 4..];
  }

  lemma TailByteStep(h: U64, data: seq<U8>, p: nat)
    requires p < |data|
    ensures TailBytes(h, data[p..]) == TailBytes(TailByte(h, data[p]), data[p + 1..])
  {
    hide TailByte;
    assert data[p..][1..] == data[p + 1..];
  }

  lemma TailShort(h: U64, rest: seq<U8>)
    requires |rest| < 4
    ensures Tail(h, rest) == TailBytes(h, rest)
  {}

  lemma TailDone(h: U64)
    ensures TailBytes(h, []) == h
  {}

  /** The loops shared by xxh64 and xxh64_digest. */
  method Finish(start: U64, data: seq<U8>, from: nat) returns (h: U64)
    requires from <= |data|
    ensures h == Avalanche(Tail(start, data[from..]))
  {
    hide TailWord, TailHalf, TailByte, Tail, TailBytes, Word, Avalanche;
    h := start;
    var p := from;
    while p + 8 <= |data|
      invariant from <= p <= |data| && Tail(h, data[p..]) == Tail(start, data[from..])
    {
      TailStep(h, data, p);
      h := TailWord(h, Word(data, p, 8));
      p := p + 8;
    }
    if p + 4 <= |data| {
      TailHalfStep(h, data, p);
      h := TailHalf(h, Word(data, p, 4));
      p := p + 4;
    } else {
      TailShort(h, data[p..]);
    }
    while p < |data|
      invariant from <= p <= |data| && TailBytes(h, data[p..]) == Tail(start, data[from..])
    {
      TailByteStep(h, data, p);
      h := TailByte(h, data[p]);
      p := p + 1;
    }
    assert data[p..] == [];
    TailDone(h);
    h := Avalanche(h);
  }

  lemma WholeIs(n: nat, q: nat)
    requires q <= n && n - q < 32 && q % 32 == 0
    ensures q == Whole(n)
  {}

  /** xxh64. */
  method Xxh64(data: seq<U8>, seed: U64) returns (h: U64)
    ensures h == Hash(seed, data)
  {
    hide Stripes, Merge, Tail, Avalanche, Start, Plus, Wrap;
    var p := 0;
    if |data| >= 32 {
      assert data[0..] == data;
      var v, q := RunStripes(Start(seed), data, 0);
      h := Merge(v);
      p := q;
    } else {
      h := Plus(seed, PRIME64_5);
    }
    WholeIs(|data|, p);
    h := Finish(Plus(h, Wrap(|data|)), data, p);
  }

  // ----------------------------------------------------------------------- streaming

  lemma {:induction false} StripesJoin(v: Lanes, a: seq<U8>, b: seq<U8>)
    requires |a| % 32 == 0
    ensures Stripes(v, a + b) == Stripes(Stripes(v, a), b)
    decreases |a|
  {
    hide Stripe;
    if |a| == 0 {
      assert a + b == b;
    } else {
      StripeFront(v, a, b);
      assert (a + b)[32..] == a[32..] + b;
      StripesJoin(Stripe(v, a, 0), a[32..], b);
    }
  }

  lemma StripeFront(v: Lanes, a: seq<U8>, b: seq<U8>)
    requires |a| >= 32
    ensures Stripe(v, a + b, 0) == Stripe(v, a, 0)
  {
    hide Round, Wrap, Le;
    assert (a + b)[0..8] == a[0..8] && (a + b)[8..16] == a[8..16] && (a + b)[16..24] == a[16..24] && (a + b)[24..32] == a[24..32];
  }

  /** The part of the data that is not in whole stripes. */
  function Rest(data: seq<U8>): seq<U8> { data[Whole(|data|)..] }

  /** The stripes of the data depend only on the whole part. */
  lemma StripesWhole(v: Lanes, data: seq<U8>)
    ensures Stripes(v, data) == Stripes(v, data[..Whole(|data|)])
  {
    hide Stripes, Whole;
    var a, b := data[..Whole(|data|)], Rest(data);
    assert data == a + b;
    StripesJoin(v, a, b);
    StripesEnd(Stripes(v, a), b);
  }

  /** Dropping whole stripes does not change the rest. */
  lemma RestDrop(all: seq<U8>, n: nat)
    requires n <= |all| && n % 32 == 0
    ensures Rest(all[n..]) == Rest(all)
  {
    var left := all[n..];
    assert n + Whole(|left|) == Whole(|all|);
    assert left[Whole(|left|)..] == all[n + Whole(|left|)..];
  }

  /** Data whose unconsumed tail is kept apart: adding input to the tail is adding it to the data. */
  lemma StripesMore(v: Lanes, data: seq<U8>, input: seq<U8>)
    ensures Stripes(v, data + input) == Stripes(Stripes(v, data), Rest(data) + input)
    ensures Rest(data + input) == Rest(Rest(data) + input)
  {
    hide Stripes, Whole;
    var w := Whole(|data|);
    var a := data[..w];
    StripesWhole(v, data);
    StripesJoin(v, a, Rest(data) + input);
    assert data + input == a + (Rest(data) + input);
    RestDrop(data + input, w);
    assert (data + input)[w..] == Rest(data) + input;
  }

  lemma RestShort(data: seq<U8>)
    requires |data| < 32
    ensures Rest(data) == data
  {}

  /** struct xxh64_state. */
  class State {
    var v: Lanes
    var totalLen: U64
    var mem: array<U8>
    var memsize: nat

    /** The state after hashing data with seed. */
    ghost predicate Holds(seed: U64, data: seq<U8>)
      reads this, mem
    {
      && v == Stripes(Start(seed), data) && totalLen == Wrap(|data|)
      && mem.Length == 32 && memsize == |Rest(data)| && mem[..memsize] == Rest(data)
    }

    /** xxh64_reset. */
    constructor (seed: U64)
      ensures Holds(seed, []) && fresh(mem)
    {
      hide *;
      v := Start(seed);
      totalLen := 0;
      mem := new U8[32](_ => 0);
      memsize := 0;
      new;
      NothingHeld(this, seed);
    }

    /** memcpy into the buffer after what it holds. */
    method Fill(input: seq<U8>, n: nat)
      requires mem.Length == 32 && n <= |input| && memsize + n <= 32
      modifies mem
      ensures mem[..memsize + n] == old(mem[..memsize]) + input[..n]
    {
      for k := 0 to n
        invariant mem[..memsize] == old(mem[..memsize])
        invariant mem[memsize..memsize + k] == input[..k]
      {
        mem[memsize + k] := input[k];
      }
      assert mem[..memsize + n] == mem[..memsize] + mem[memsize..memsize + n];
    }

    /** The buffered bytes and the first of the input make a stripe. */
    method FillStripe(input: seq<U8>) returns (p: nat)
      requires mem.Length == 32 && 0 < memsize < 32 && memsize + |input| >= 32
      modifies this, mem
      ensures mem == old(mem) && memsize == 0 && totalLen == old(totalLen) && p <= |input|
      ensures Stripes(v, input[p..]) == old(Stripes(v, mem[..memsize] + input)) && Rest(input[p..]) == old(Rest(mem[..memsize] + input))
    {
      hide Stripes, Stripe, Rest;
      ghost var all := mem[..memsize] + input;
      p := 32 - memsize;
      Fill(input, p);
      assert mem[..] == all[..32];
      assert all == all[..32] + all[32..] && all[32..] == input[p..] && all[0..] == all;
      StripeFront(v, all[..32], all[32..]);
      StripesAt(v, all, 0);
      RestDrop(all, 32);
      v := Stripe(v, mem[..], 0);
      memsize := 0;
    }

    /** The whole stripes of the input from p on; what is left is kept. */
    method FillRest(input: seq<U8>, from: nat)
      requires mem.Length == 32 && memsize == 0 && from <= |input|
      modifies this, mem
      ensures mem == old(mem) && totalLen == old(totalLen) && v == old(Stripes(v, input[from..]))
      ensures memsize == |Rest(input[from..])| && memsize <= 32 && mem[..memsize] == Rest(input[from..])
    {
      hide Stripes, Stripe, Rest;
      var p := from;
      ghost var left := input[from..];
      RestSize(left);
      if p + 32 <= |input| {
        v, p := RunStripes(v, input, p);
        assert input[p..] == left[p - from..];
        RestDrop(left, p - from);
      } else {
        StripesEnd(v, left);
      }
      RestShort(input[p..]);
      if p < |input| {
        Fill(input[p..], |input| - p);
        memsize := |input| - p;
        assert input[p..][..|input| - p] == input[p..];
      }
    }

    /** xxh64_update with input that is not NULL. */
    method Update(input: seq<U8>, ghost seed: U64, ghost data: seq<U8>)
      requires Holds(seed, data)
      modifies this, mem
      ensures mem == old(mem) && Holds(seed, data + input)
    {
      hide Stripes, Start, Wrap, Rest, Plus;
      StripesMore(Start(seed), data, input);
      RestSize(data);
      LengthMore(|data|, |input|);
      totalLen := Plus(totalLen, Wrap(|input|));
      if memsize + |input| < 32 {
        ghost var had := Rest(data);
        Fill(input, |input|);
        memsize := memsize + |input|;
        assert input[..|input|] == input;
        StripesEnd(v, had + input);
        RestShort(had + input);
        return;
      }
      var p := 0;
      if memsize > 0 {
        p := FillStripe(input);
      } else {
        assert Rest(data) + input == input && input[0..] == input;
      }
      FillRest(input, p);
    }

    /** xxh64_digest: the hash of everything since the reset. */
    method Digest(ghost seed: U64, ghost data: seq<U8>) returns (h: U64)
      requires Holds(seed, data) && |data| < 0x1_0000_0000_0000_0000
      ensures h == Hash(seed, data)
    {
      hide Stripes, Merge, Tail, Avalanche, Plus, Start, Wrap, Rest, Hash;
      HashIs(seed, data);
      WrapSmall(|data|);
      RestSize(data);
      StartSeed(seed);
      if totalLen >= 32 {
        h := Merge(v);
      } else {
        StripesEnd(Start(seed), data);
        h := Plus(v.v3, PRIME64_5);
      }
      h := Finish(Plus(h, totalLen), mem[..memsize], 0);
      assert mem[..memsize][0..] == Rest(data);
    }
  }

  lemma NothingHeld(st: State, seed: U64)
    requires st.v == Start(seed) && st.totalLen == 0 && st.mem.Length == 32 && st.memsize == 0
    ensures st.Holds(seed, [])
  {
    hide Start, Stripes;
    StripesEnd(Start(seed), []);
    RestShort([]);
  }

  lemma HashIs(seed: U64, data: seq<U8>)
    ensures
      var h := if |data| >= 32 then Merge(Stripes(Start(seed), data)) else Plus(seed, PRIME64_5);
      Hash(seed, data) == Avalanche(Tail(Plus(h, Wrap(|data|)), Rest(data)))
  {
    hide Stripes, Merge, Tail, Avalanche, Plus, Start, Wrap;
  }

  lemma WrapSmall(n: nat)
    requires n < 0x1_0000_0000_0000_0000
    ensures Wrap(n) == n
  {}

  lemma StartSeed(seed: U64)
    ensures Start(seed).v3 == seed
  {}

  lemma RestSize(data: seq<U8>)
    ensures |Rest(data)| < 32
  {}

  lemma LengthMore(a: nat, b: nat)
    ensures Plus(Wrap(a), Wrap(b)) == Wrap(a + b)
  {}

  /** Any way of cutting the data into chunks gives the hash of the whole. */
  method HashChunks(chunks: seq<seq<U8>>, seed: U64) returns (h: U64)
    requires |Concat(chunks)| < 0x1_0000_0000_0000_0000
    ensures h == Hash(seed, Concat(chunks))
  {
    hide Hash;
    var st := new State(seed);
    for i := 0 to |chunks|
      invariant fresh(st) && fresh(st.mem) && st.Holds(seed, Concat(chunks[..i]))
    {
      ConcatMore(chunks, i);
      st.Update(chunks[i], seed, Concat(chunks[..i]));
    }
    assert chunks[..|chunks|] == chunks;
    h := st.Digest(seed, Concat(chunks));
  }

  function Concat(chunks: seq<seq<U8>>): seq<U8> {
    if |chunks| == 0 then [] else Concat(chunks[..|chunks| - 1]) + chunks[|chunks| - 1]
  }

  lemma ConcatMore(chunks: seq<seq<U8>>, i: nat)
    requires i < |chunks|
    ensures Concat(chunks[..i + 1]) == Concat(chunks[..i]) + chunks[i]
  {
    assert chunks[..i + 1][..i] == chunks[..i];
  }
}
