/** Which batches share a root: the padded list repeats leaves of the batch, at places that only its size decides. */
module MerklePadding {
  import opened Common
  import opened MerkleShape
  import opened Merkle
  import opened MerkleTheorems

  /** The leaf of a batch of n that stands at this position of the padded list. */
  function PadIndex(n: nat, pos: nat): nat
    decreases n
  {
    if n <= 1 then 0 else Min(2 * PadIndex((n + 1) / 2, pos / 2) + pos % 2, n - 1)
  }

  lemma {:induction false} PadIndexInBatch(n: nat, pos: nat)
    requires n > 0
    ensures PadIndex(n, pos) < n
    decreases n
  {
    if n > 1 {
      PadIndexInBatch((n + 1) / 2, pos / 2);
    }
  }

  /** Leaf j of half `bit` of the paired block i. */
  lemma PairHolds<P>(k: nat, blocks: seq<seq<P>>, bit: nat, j: nat, i: nat, picked: nat, inner: nat)
    requires Blocks(blocks, k) && |blocks| > 1 && j < Pow2(k) && i < (|blocks| + 1) / 2 && bit < 2
    requires picked == Min(2 * i + bit, |blocks| - 1) && inner == if bit == 0 then j else Pow2(k) + j
    ensures picked < |blocks| && j < |blocks[picked]|
    ensures inner < |NextLayer(Append(), blocks)[i]| && NextLayer(Append(), blocks)[i][inner] == blocks[picked][j]
  {
    var l, r := 2 * i, if 2 * i + 1 < |blocks| then 2 * i + 1 else 2 * i;
    assert blocks[l] in blocks && blocks[r] in blocks;
    assert NextLayer(Append(), blocks)[i] == blocks[l] + blocks[r];
  }

  lemma PadIndexStep(n: nat, q: nat, i: nat)
    requires n > 1 && i == PadIndex((n + 1) / 2, q / 2)
    ensures PadIndex(n, q) == Min(2 * i + q % 2, n - 1)
  {
  }

  /** One pairing further down. */
  lemma PickStep<P>(k: nat, blocks: seq<seq<P>>, q: nat, j: nat, i: nat, x: P, picked: nat, inner: nat)
    requires Blocks(blocks, k) && |blocks| > 1 && j < Pow2(k) && i == PadIndex((|blocks| + 1) / 2, q / 2)
    requires i < |NextLayer(Append(), blocks)| && inner < |NextLayer(Append(), blocks)[i]|
    requires inner == Inner(q, Pow2(k), j) && picked == PadIndex(|blocks|, q)
    requires x == NextLayer(Append(), blocks)[i][inner]
    ensures picked < |blocks| && j < |blocks[picked]| && x == blocks[picked][j]
  {
    PadIndexStep(|blocks|, q, i);
    InnerIs(q, Pow2(k), j);
    PairHolds(k, blocks, q % 2, j, i, picked, inner);
  }

  lemma InnerIs(q: nat, size: nat, j: nat)
    ensures q % 2 < 2 && Inner(q, size, j) == if q % 2 == 0 then j else size + j
  {
  }

  lemma {:induction false} ReducedPick<P>(k: nat, d: nat, blocks: seq<seq<P>>, top: seq<P>, pos: nat, q: nat, j: nat)
    requires blocks != [] && Blocks(blocks, k) && d == Depth(|blocks|) && q < Pow2(d) && j < Pow2(k)
    requires top == Reduce(Append(), blocks) && At(pos, q, Pow2(k), j) && pos < |top|
    ensures var picked := PadIndex(|blocks|, q);
            picked < |blocks| && j < |blocks[picked]| && top[pos] == blocks[picked][j]
    decreases |blocks|
  {
    if |blocks| > 1 {
      var next := NextLayer(Append(), blocks);
      NextBlocks(blocks, k);
      HalfIndex(pos, q, Pow2(k), j);
      HalfBounds(k, d, q, j);
      ReducedPick(k + 1, d - 1, next, top, pos, q / 2, Inner(q, Pow2(k), j));
      PickStep(k, blocks, q, j, PadIndex(|next|, q / 2), top[pos], PadIndex(|blocks|, q), Inner(q, Pow2(k), j));
    } else {
      OnlyBlock(k, blocks, pos, q, j);
    }
  }

  lemma HalfBounds(k: nat, d: nat, q: nat, j: nat)
    requires d > 0 && q < Pow2(d) && j < Pow2(k)
    ensures q / 2 < Pow2(d - 1) && Inner(q, Pow2(k), j) < Pow2(k + 1)
  {
  }

  lemma OnlyBlock<P>(k: nat, blocks: seq<seq<P>>, pos: nat, q: nat, j: nat)
    requires |blocks| == 1 && Blocks(blocks, k) && q == 0 && j < Pow2(k) && At(pos, q, Pow2(k), j)
    ensures blocks[0] in blocks && Reduce(Append(), blocks)[pos] == blocks[0][j]
  {
    assert blocks[0] in blocks && pos == j;
  }

  /** What stands at each position of the padded list. */
  lemma PaddedAt<P>(xs: seq<P>, pos: nat)
    requires xs != [] && pos < Pow2(Depth(|xs|))
    ensures |Padded(xs)| == Pow2(Depth(|xs|)) && PadIndex(|xs|, pos) < |xs|
    ensures Padded(xs)[pos] == xs[PadIndex(|xs|, pos)]
  {
    PaddedLength(xs);
    SinglesAreBlocks(xs);
    ReducedPick(0, Depth(|xs|), Singles(xs), Padded(xs), pos, pos, 0);
  }

  /** Two batches repeat the same leaves at the same places. */
  ghost predicate PadAlike<P>(a: seq<P>, b: seq<P>) {
    || a == b == []
    || (a != [] && b != [] && Depth(|a|) == Depth(|b|) && forall pos | 0 <= pos < Pow2(Depth(|a|)) :: PadAt(a, b, pos))
  }

  ghost predicate PadAt<P>(a: seq<P>, b: seq<P>, pos: nat)
    requires a != [] && b != []
  {
    PadIndexInBatch(|a|, pos);
    PadIndexInBatch(|b|, pos);
    a[PadIndex(|a|, pos)] == b[PadIndex(|b|, pos)]
  }

  lemma {:induction false} Pow2Injective(d: nat, e: nat)
    requires Pow2(d) == Pow2(e)
    ensures d == e
  {
    if d > 0 && e > 0 {
      Pow2Injective(d - 1, e - 1);
    }
  }

  lemma SamePaddedIff<P>(a: seq<P>, b: seq<P>)
    ensures Padded(a) == Padded(b) <==> PadAlike(a, b)
  {
    if a != [] && b != [] {
      PaddedLength(a);
      PaddedLength(b);
      if |Padded(a)| == |Padded(b)| {
        Pow2Injective(Depth(|a|), Depth(|b|));
        forall pos | 0 <= pos < Pow2(Depth(|a|))
          ensures Padded(a)[pos] == Padded(b)[pos] <==> PadAt(a, b, pos)
        {
          PaddedAt(a, pos);
          PaddedAt(b, pos);
        }
      }
    } else if a != [] {
      PaddedLength(a);
    } else if b != [] {
      PaddedLength(b);
    }
  }

  /** Without collisions, two batches share a root exactly when each position of the padded list, computed from the two
    * sizes alone, names equal payloads. */
  lemma SameRootIff(h: Hash, a: seq<Bytes>, b: seq<Bytes>)
    requires Digests(h) && NoCollision(h, MthInputs(h, Padded(a)) + MthInputs(h, Padded(b)))
    ensures RootOf(h, a) == RootOf(h, b) <==> PadAlike(a, b)
  {
    SameRootIffSamePadded(h, a, b);
    SamePaddedIff(a, b);
  }

  // ---- Different batches with one root

  /** A batch of odd size and the same batch with its last payload once more have one padded list. */
  lemma LastOnceMore<P>(xs: seq<P>)
    requires |xs| > 1 && |xs| % 2 == 1
    ensures Padded(xs) == Padded(xs + [xs[|xs| - 1]])
  {
    var longer := xs + [xs[|xs| - 1]];
    assert NextLayer(Append(), Singles(xs)) == NextLayer(Append(), Singles(longer));
  }

  /** So they have one root, for every hash: three payloads a, b, c and the four payloads a, b, c, c, for instance. */
  lemma OddBatchSharesRoot(h: Hash, batch: seq<Bytes>)
    requires |batch| > 1 && |batch| % 2 == 1
    ensures var longer := batch + [batch[|batch| - 1]];
            longer != batch && RootOf(h, longer) == RootOf(h, batch)
  {
    var longer := batch + [batch[|batch| - 1]];
    LastOnceMore(batch);
    RootIsMthOfPadded(h, batch);
    RootIsMthOfPadded(h, longer);
  }
}
