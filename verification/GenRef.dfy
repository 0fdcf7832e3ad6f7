/** raid_gen_ref of raid/module.c: parity straight from the generator table, byte by byte. */
module GenRef {
  import opened Gf
  import opened LinAlg
  import opened Generator
  import opened Stripe
  import opened Gen

  lemma PrefixStep(mode: Mode, p: nat, col: Vec, d: nat)
    requires d < |col|
    ensures Parity(mode, p, col[..d + 1]) == Add(Parity(mode, p, col[..d]), Mul(col[d], A(mode, p, d)))
  {
    hide Add, Mul, A, Dot;
    var row := GenRow(mode, p, d);
    assert GenRow(mode, p, d + 1) == row + [A(mode, p, d)] && col[..d + 1] == col[..d] + [col[d]];
    DotAppend(row, [A(mode, p, d)], col[..d], [col[d]]);
    DotSingle(A(mode, p, d), col[d]);
    MulComm(A(mode, p, d), col[d]);
  }

  lemma DotSingle(x: GF, y: GF)
    ensures Dot([x], [y]) == Mul(x, y)
  {
    hide Add, Mul;
    AddZero(Mul(x, y));
  }

  lemma NoDisks(mode: Mode, p: nat, col: Vec)
    ensures Parity(mode, p, col[..0]) == ZERO
  {}

  /** The p[] accumulators at offset i. */
  method Accumulate(mode: Mode, vs: seq<Block>, nd: nat, np: nat, size: nat, i: nat, ghost data: Blocks) returns (acc: seq<GF>)
    requires nd <= |vs| && |data| == nd && Sized(data, size) && i < size && Holds(vs, nd, data) && np <= MaxParity(mode)
    ensures |acc| == np && forall p | 0 <= p < np :: acc[p] == Parity(mode, p, Column(data, size, i))
  {
    hide Add, Mul, A, Parity;
    ghost var col := Column(data, size, i);
    acc := seq(np, p => ZERO);
    forall p | 0 <= p < np ensures acc[p] == Parity(mode, p, col[..0]) { NoDisks(mode, p, col); }
    for d := 0 to nd
      invariant |acc| == np && forall p | 0 <= p < np :: acc[p] == Parity(mode, p, col[..d])
    {
      var b := vs[d][i];
      forall p | 0 <= p < np ensures Add(acc[p], Mul(b, A(mode, p, d))) == Parity(mode, p, col[..d + 1]) {
        PrefixStep(mode, p, col, d);
      }
      acc := seq(np, p requires 0 <= p < np == |acc| => Add(acc[p], Mul(b, A(mode, p, d))));
    }
    assert col[..nd] == col;
  }

  method WriteOffset(mode: Mode, vs: seq<Block>, nd: nat, np: nat, size: nat, i: nat, ghost data: Blocks)
    requires np <= MaxParity(mode) && GenReady(vs, nd, np, size, data) && i < size
    requires Written(mode, vs, nd, np, size, data, i)
    modifies Outputs(vs, nd, np)
    ensures Holds(vs, nd, data) && Written(mode, vs, nd, np, size, data, i + 1)
  {
    hide Parity, Outputs, Last;
    var acc := Accumulate(mode, vs, nd, np, size, i, data);
    ghost var outs := Outputs(vs, nd, np);
    assert forall d | 0 <= d < nd :: vs[d] !in outs;
    WriteColumn(vs, nd, np, size, i, acc, outs);
  }

  /** The same bytes as RaidGen, from the same contract. */
  method RaidGenRef(mode: Mode, vs: seq<Block>, nd: nat, np: nat, size: nat, ghost data: Blocks)
    requires np <= MaxParity(mode) && GenReady(vs, nd, np, size, data)
    modifies Outputs(vs, nd, np)
    ensures Written(mode, vs, nd, np, size, data, size) && Holds(vs, nd, data)
  {
    hide Parity, Outputs, Last, Holds;
    assert Written(mode, vs, nd, np, size, data, 0);
    hide Written;
    for i := 0 to size
      invariant Holds(vs, nd, data) && Written(mode, vs, nd, np, size, data, i)
    {
      WriteOffset(mode, vs, nd, np, size, i, data);
    }
  }
}
