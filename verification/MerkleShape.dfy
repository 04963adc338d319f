/**
 * Bottom-up pairing of a list, independent of what the nodes are: an odd last node is paired
 * with itself. Pairing digests and pairing lists of leaves are two instances of it, which is
 * what relates the layered construction to a top-down tree over a padded list.
 */
module MerkleShape {

  function Pow2(d: nat): (p: nat)
    ensures p >= 1
  {
    if d == 0 then 1 else 2 * Pow2(d - 1)
  }

  /** One round of pairing. */
  function NextLayer<D>(node: (D, D) -> D, layer: seq<D>): (next: seq<D>)
    ensures |next| == (|layer| + 1) / 2
  {
    seq((|layer| + 1) / 2, i requires 0 <= i < (|layer| + 1) / 2 =>
      node(layer[2 * i], if 2 * i + 1 < |layer| then layer[2 * i + 1] else layer[2 * i]))
  }

  /** The layers from the leaves up to the root. */
  function Layers<D>(node: (D, D) -> D, layer: seq<D>): (layers: seq<seq<D>>)
    ensures |layers| == Depth(|layer|) + 1 && layers[0] == layer
    ensures layer != [] ==> |layers[|layers| - 1]| == 1
    decreases |layer|
  {
    if |layer| <= 1 then [layer] else [layer] + Layers(node, NextLayer(node, layer))
  }

  /** The number of rounds. */
  function Depth(n: nat): nat {
    if n <= 1 then 0 else 1 + Depth((n + 1) / 2)
  }

  lemma {:induction false} DepthIsCeilLog2(n: nat)
    requires n > 0
    ensures n <= Pow2(Depth(n))
    ensures n > 1 ==> Pow2(Depth(n) - 1) < n
  {
    if n > 1 {
      DepthIsCeilLog2((n + 1) / 2);
    }
  }

  lemma {:induction false} DepthOfPow2(d: nat)
    ensures Depth(Pow2(d)) == d
  {
    if d > 0 {
      DepthOfPow2(d - 1);
      assert (Pow2(d) + 1) / 2 == Pow2(d - 1);
    }
  }

  function Reduce<D>(node: (D, D) -> D, layer: seq<D>): (root: D)
    requires layer != []
    decreases |layer|
  {
    if |layer| == 1 then layer[0] else Reduce(node, NextLayer(node, layer))
  }

  lemma {:induction false} ReduceIsLastLayer<D>(node: (D, D) -> D, layer: seq<D>)
    requires layer != []
    ensures var layers := Layers(node, layer); layers[|layers| - 1] == [Reduce(node, layer)]
    decreases |layer|
  {
    if |layer| > 1 {
      ReduceIsLastLayer(node, NextLayer(node, layer));
    }
  }

  // ---- Top-down trees over lists of 2^d leaves

  function Fold<P, D>(leaf: P -> D, node: (D, D) -> D, d: nat, xs: seq<P>): D
    requires |xs| == Pow2(d)
  {
    if d == 0 then leaf(xs[0])
    else node(Fold(leaf, node, d - 1, xs[..Pow2(d - 1)]), Fold(leaf, node, d - 1, xs[Pow2(d - 1)..]))
  }

  function Append<P>(): (seq<P>, seq<P>) -> seq<P> {
    (a: seq<P>, b: seq<P>) => a + b
  }

  function Singles<P>(xs: seq<P>): seq<seq<P>> {
    seq(|xs|, i requires 0 <= i < |xs| => [xs[i]])
  }

  /** The list whose top-down tree the pairing builds: pair lists instead of digests. */
  function Padded<P>(xs: seq<P>): seq<P> {
    if xs == [] then [] else Reduce(Append(), Singles(xs))
  }

  ghost predicate Blocks<P>(blocks: seq<seq<P>>, k: nat) {
    forall b | b in blocks :: |b| == Pow2(k)
  }

  function Folds<P, D>(leaf: P -> D, node: (D, D) -> D, k: nat, blocks: seq<seq<P>>): seq<D>
    requires Blocks(blocks, k)
  {
    seq(|blocks|, i requires 0 <= i < |blocks| => Fold(leaf, node, k, blocks[i]))
  }

  lemma NextBlocks<P>(blocks: seq<seq<P>>, k: nat)
    requires Blocks(blocks, k)
    ensures Blocks(NextLayer(Append(), blocks), k + 1)
  {
  }

  lemma FoldOfPair<P, D>(leaf: P -> D, node: (D, D) -> D, k: nat, l: seq<P>, r: seq<P>)
    requires |l| == |r| == Pow2(k)
    ensures |l + r| == Pow2(k + 1)
    ensures Fold(leaf, node, k + 1, l + r) == node(Fold(leaf, node, k, l), Fold(leaf, node, k, r))
  {
    assert (l + r)[..Pow2(k)] == l && (l + r)[Pow2(k)..] == r;
  }

  /** Folding the paired blocks is pairing the folded blocks. */
  lemma FoldsOfNextLayer<P, D>(leaf: P -> D, node: (D, D) -> D, k: nat, blocks: seq<seq<P>>)
    requires Blocks(blocks, k)
    ensures Blocks(NextLayer(Append(), blocks), k + 1)
    ensures Folds(leaf, node, k + 1, NextLayer(Append(), blocks)) == NextLayer(node, Folds(leaf, node, k, blocks))
  {
    NextBlocks(blocks, k);
    forall i | 0 <= i < (|blocks| + 1) / 2
      ensures Fold(leaf, node, k + 1, NextLayer(Append(), blocks)[i]) ==
                NextLayer(node, Folds(leaf, node, k, blocks))[i]
    {
      FoldOfNextBlock(leaf, node, k, blocks, i);
    }
  }

  lemma FoldOfNextBlock<P, D>(leaf: P -> D, node: (D, D) -> D, k: nat, blocks: seq<seq<P>>, i: nat)
    requires Blocks(blocks, k) && i < (|blocks| + 1) / 2
    ensures |NextLayer(Append(), blocks)[i]| == Pow2(k + 1)
    ensures Fold(leaf, node, k + 1, NextLayer(Append(), blocks)[i]) == NextLayer(node, Folds(leaf, node, k, blocks))[i]
  {
    var l, r := blocks[2 * i], if 2 * i + 1 < |blocks| then blocks[2 * i + 1] else blocks[2 * i];
    assert NextLayer(Append(), blocks)[i] == l + r;
    assert l in blocks && r in blocks;
    FoldOfPair(leaf, node, k, l, r);
  }

  lemma {:induction false} ReducedLength<P>(k: nat, d: nat, blocks: seq<seq<P>>)
    requires blocks != [] && Blocks(blocks, k) && d == Depth(|blocks|)
    ensures |Reduce(Append(), blocks)| == Pow2(k + d)
    decreases |blocks|
  {
    if |blocks| == 1 {
      assert blocks[0] in blocks;
    } else {
      NextBlocks(blocks, k);
      ReducedLength(k + 1, d - 1, NextLayer(Append(), blocks));
      assert k + 1 + (d - 1) == k + d;
    }
  }

  /** `top` is what the blocks of 2^k leaves are finally paired into, a block of 2^m leaves. */
  lemma {:induction false} ReduceOfFolds<P, D>(leaf: P -> D, node: (D, D) -> D, k: nat, m: nat, blocks: seq<seq<P>>,
                                               top: seq<P>)
    requires blocks != [] && Blocks(blocks, k) && m == k + Depth(|blocks|)
    requires top == Reduce(Append(), blocks) && |top| == Pow2(m)
    ensures Reduce(node, Folds(leaf, node, k, blocks)) == Fold(leaf, node, m, top)
    decreases |blocks|
  {
    if |blocks| > 1 {
      var next := OneRound(leaf, node, k, m, blocks, top);
      ReduceOfFolds(leaf, node, k + 1, m, next, top);
    } else {
      ReduceOfOneFold(leaf, node, k, m, blocks, top);
    }
  }

  lemma OneRound<P, D>(leaf: P -> D, node: (D, D) -> D, k: nat, m: nat, blocks: seq<seq<P>>,
                       top: seq<P>) returns (next: seq<seq<P>>)
    requires |blocks| > 1 && Blocks(blocks, k) && m == k + Depth(|blocks|)
    requires top == Reduce(Append(), blocks)
    ensures 0 < |next| < |blocks| && Blocks(next, k + 1) && m == k + 1 + Depth(|next|)
    ensures next == NextLayer(Append(), blocks) && top == Reduce(Append(), next)
    ensures Reduce(node, Folds(leaf, node, k, blocks)) == Reduce(node, Folds(leaf, node, k + 1, next))
  {
    next := NextLayer(Append(), blocks);
    FoldsOfNextLayer(leaf, node, k, blocks);
  }

  lemma ReduceOfOneFold<P, D>(leaf: P -> D, node: (D, D) -> D, k: nat, m: nat, blocks: seq<seq<P>>, top: seq<P>)
    requires |blocks| == 1 && Blocks(blocks, k) && m == k + Depth(|blocks|)
    requires top == Reduce(Append(), blocks) && |top| == Pow2(m)
    ensures Reduce(node, Folds(leaf, node, k, blocks)) == Fold(leaf, node, m, top)
  {
    assert Depth(|blocks|) == 0 && k == m;
  }

  function Leaves<P, D>(leaf: P -> D, xs: seq<P>): seq<D> {
    seq(|xs|, i requires 0 <= i < |xs| => leaf(xs[i]))
  }

  lemma FoldsOfSingles<P, D>(leaf: P -> D, node: (D, D) -> D, xs: seq<P>)
    ensures Blocks(Singles(xs), 0)
    ensures Folds(leaf, node, 0, Singles(xs)) == Leaves(leaf, xs)
  {
  }

  lemma SinglesAreBlocks<P>(xs: seq<P>)
    ensures Blocks(Singles(xs), 0)
  {
    forall b | b in Singles(xs) ensures |b| == Pow2(0) {
      var i :| 0 <= i < |xs| && Singles(xs)[i] == b;
    }
  }

  lemma PaddedLength<P>(xs: seq<P>)
    requires xs != []
    ensures |Padded(xs)| == Pow2(Depth(|xs|))
  {
    SinglesAreBlocks(xs);
    ReducedLength(0, Depth(|xs|), Singles(xs));
  }

  /** The layered construction computes the top-down tree of the padded list. */
  lemma BottomUpIsTopDown<P, D>(leaf: P -> D, node: (D, D) -> D, xs: seq<P>)
    requires xs != []
    ensures |Padded(xs)| == Pow2(Depth(|xs|))
    ensures Reduce(node, Leaves(leaf, xs)) == Fold(leaf, node, Depth(|xs|), Padded(xs))
  {
    PaddedLength(xs);
    FoldsOfSingles(leaf, node, xs);
    ReduceOfFolds(leaf, node, 0, Depth(|xs|), Singles(xs), Padded(xs));
  }

  // ---- What padding does to the list

  /** Position pos is leaf j of block i, for blocks of the given size. */
  ghost predicate At(pos: nat, i: nat, size: nat, j: nat) {
    pos == i * size + j
  }

  /** The leaf's place inside the block that its block is paired into. */
  function Inner(i: nat, size: nat, j: nat): nat {
    if i % 2 == 0 then j else size + j
  }

  lemma HalfIndex(pos: nat, i: nat, size: nat, j: nat)
    requires At(pos, i, size, j)
    ensures At(pos, i / 2, 2 * size, Inner(i, size, j))
  {
    var h := i / 2;
    assert h * (2 * size) == (2 * h) * size;
    if i % 2 == 0 {
      assert i == 2 * h;
    } else {
      assert i == 2 * h + 1;
      assert (2 * h + 1) * size == (2 * h) * size + size;
    }
  }

  /** The block that block i is paired into, and where leaf j sits in it. */
  lemma NextBlockAt<P>(k: nat, blocks: seq<seq<P>>, i: nat, j: nat)
    requires Blocks(blocks, k) && i < |blocks| && j < Pow2(k)
    ensures blocks[i] in blocks
    ensures var next, inner := NextLayer(Append(), blocks), Inner(i, Pow2(k), j);
            && inner < |next[i / 2]| == Pow2(k + 1)
            && next[i / 2][inner] == blocks[i][j]
  {
    var l := i / 2 * 2;
    var r := if l + 1 < |blocks| then l + 1 else l;
    assert blocks[l] in blocks && blocks[r] in blocks;
    assert NextLayer(Append(), blocks)[i / 2] == blocks[l] + blocks[r];
  }

  /** Pairing keeps every leaf in its place. */
  lemma {:induction false} ReducedAt<P>(k: nat, blocks: seq<seq<P>>, pos: nat, i: nat, j: nat)
    requires Blocks(blocks, k) && i < |blocks| && j < Pow2(k) && At(pos, i, Pow2(k), j)
    ensures blocks[i] in blocks
    ensures pos < |Reduce(Append(), blocks)| && Reduce(Append(), blocks)[pos] == blocks[i][j]
    decreases |blocks|
  {
    assert blocks[i] in blocks;
    if |blocks| > 1 {
      NextBlocks(blocks, k);
      NextBlockAt(k, blocks, i, j);
      HalfIndex(pos, i, Pow2(k), j);
      ReducedAt(k + 1, NextLayer(Append(), blocks), pos, i / 2, Inner(i, Pow2(k), j));
    }
  }

  lemma {:induction false} ReducedFrom<P>(blocks: seq<seq<P>>, x: P)
    requires blocks != [] && x in Reduce(Append(), blocks)
    ensures exists b | b in blocks :: x in b
    decreases |blocks|
  {
    if |blocks| == 1 {
      assert blocks[0] in blocks;
    } else {
      var next := NextLayer(Append(), blocks);
      ReducedFrom(next, x);
      var b :| b in next && x in b;
      var i :| 0 <= i < |next| && next[i] == b;
      assert blocks[2 * i] in blocks;
      if 2 * i + 1 < |blocks| {
        assert blocks[2 * i + 1] in blocks;
      }
    }
  }

  /** Padding appends copies of elements of the list, and nothing when the length is a power of two. */
  lemma PaddedExtends<P>(xs: seq<P>)
    ensures xs <= Padded(xs)
    ensures forall x | x in Padded(xs) :: x in xs
    ensures Padded(xs) == xs <==> xs == [] || |xs| == Pow2(Depth(|xs|))
  {
    if xs != [] {
      PaddedLength(xs);
      forall i | 0 <= i < |xs|
        ensures i < |Padded(xs)| && Padded(xs)[i] == xs[i]
      {
        ReducedAt(0, Singles(xs), i, i, 0);
      }
      forall x | x in Padded(xs)
        ensures x in xs
      {
        ReducedFrom(Singles(xs), x);
      }
    }
  }

  // ---- Authentication paths

  /** A sibling digest and whether it stands to the left. */
  datatype Step<D> = Step(left: bool, sibling: D)

  function LayerStep<D>(layer: seq<D>, index: nat): Step<D>
    requires index < |layer|
  {
    if index % 2 == 1 then Step(true, layer[index - 1])
    else Step(false, if index + 1 < |layer| then layer[index + 1] else layer[index])
  }

  /** The path of leaf `index` in the top-down tree, from the leaf to the root. */
  function PathInTree<P, D>(leaf: P -> D, node: (D, D) -> D, d: nat, xs: seq<P>, index: nat): (path: seq<Step<D>>)
    requires |xs| == Pow2(d) && index < |xs|
    ensures |path| == d
  {
    if d == 0 then []
    else
      var l, r := xs[..Pow2(d - 1)], xs[Pow2(d - 1)..];
      if index < Pow2(d - 1) then PathInTree(leaf, node, d - 1, l, index) + [Step(false, Fold(leaf, node, d - 1, r))]
      else PathInTree(leaf, node, d - 1, r, index - Pow2(d - 1)) + [Step(true, Fold(leaf, node, d - 1, l))]
  }

  /** The path read off the layers: a missing right sibling is the node itself. */
  function PathInLayers<D>(node: (D, D) -> D, layer: seq<D>, index: nat): (path: seq<Step<D>>)
    requires index < |layer|
    ensures |path| == Depth(|layer|)
    decreases |layer|
  {
    if |layer| == 1 then []
    else [LayerStep(layer, index)] + PathInLayers(node, NextLayer(node, layer), index / 2)
  }

  lemma {:induction false} LayersShrink<D>(node: (D, D) -> D, layer: seq<D>, l: nat)
    requires l < Depth(|layer|)
    ensures var layers := Layers(node, layer);
            |layers[l]| > 1 && layers[l + 1] == NextLayer(node, layers[l])
    decreases |layer|
  {
    var rest := Layers(node, NextLayer(node, layer));
    assert Layers(node, layer) == [layer] + rest;
    if l > 0 {
      LayersShrink(node, NextLayer(node, layer), l - 1);
    }
  }

  /** Inside the block that block i is paired into, the path grows by the sibling of block i. */
  lemma PathGrows<P, D>(leaf: P -> D, node: (D, D) -> D, k: nat, blocks: seq<seq<P>>, i: nat, j: nat)
    requires Blocks(blocks, k) && i < |blocks| && j < Pow2(k)
    ensures blocks[i] in blocks
    ensures var next, inner := NextLayer(Append(), blocks), Inner(i, Pow2(k), j);
            && inner < |next[i / 2]| == Pow2(k + 1)
            && PathInTree(leaf, node, k + 1, next[i / 2], inner) ==
                 PathInTree(leaf, node, k, blocks[i], j) + [LayerStep(Folds(leaf, node, k, blocks), i)]
  {
    var block, l, r := Halves(leaf, node, k, blocks, i);
    PathOfHalf(leaf, node, k, l, r, i % 2 == 0, j, block, Inner(i, Pow2(k), j));
  }

  /** The two blocks that are paired where block i goes; the sibling step is the fold of the other one. */
  lemma Halves<P, D>(leaf: P -> D, node: (D, D) -> D, k: nat, blocks: seq<seq<P>>, i: nat)
    returns (block: seq<P>, l: seq<P>, r: seq<P>)
    requires Blocks(blocks, k) && i < |blocks|
    ensures block == NextLayer(Append(), blocks)[i / 2] == l + r && |l| == |r| == Pow2(k) && |block| == Pow2(k + 1)
    ensures blocks[i] in blocks && blocks[i] == if i % 2 == 0 then l else r
    ensures LayerStep(Folds(leaf, node, k, blocks), i)
            == if i % 2 == 0 then Step(false, Fold(leaf, node, k, r)) else Step(true, Fold(leaf, node, k, l))
  {
    l, r := blocks[i / 2 * 2], PartnerOf(blocks, i);
    block := PairedBlock(k, blocks, i);
    FoldOfPair(leaf, node, k, l, r);
    StepOfFold(leaf, node, k, blocks, i);
  }

  /** The right-hand block where block i goes: the next one, or the left-hand block itself if it is last. */
  function PartnerOf<P>(blocks: seq<P>, i: nat): P
    requires i < |blocks|
  {
    if i / 2 * 2 + 1 < |blocks| then blocks[i / 2 * 2 + 1] else blocks[i / 2 * 2]
  }

  lemma PairedBlock<P>(k: nat, blocks: seq<seq<P>>, i: nat) returns (block: seq<P>)
    requires Blocks(blocks, k) && i < |blocks|
    ensures block == NextLayer(Append(), blocks)[i / 2] == blocks[i / 2 * 2] + PartnerOf(blocks, i)
    ensures blocks[i] in blocks && |blocks[i / 2 * 2]| == |PartnerOf(blocks, i)| == Pow2(k)
  {
    block := NextLayer(Append(), blocks)[i / 2];
    assert blocks[i / 2 * 2] in blocks && PartnerOf(blocks, i) in blocks;
  }

  lemma StepOfFold<P, D>(leaf: P -> D, node: (D, D) -> D, k: nat, blocks: seq<seq<P>>, i: nat)
    requires Blocks(blocks, k) && i < |blocks|
    requires |blocks[i / 2 * 2]| == |PartnerOf(blocks, i)| == Pow2(k)
    ensures LayerStep(Folds(leaf, node, k, blocks), i)
            == if i % 2 == 0 then Step(false, Fold(leaf, node, k, PartnerOf(blocks, i)))
               else Step(true, Fold(leaf, node, k, blocks[i / 2 * 2]))
  {
  }

  lemma PathOfHalf<P, D>(leaf: P -> D, node: (D, D) -> D, k: nat, l: seq<P>, r: seq<P>, left: bool, j: nat,
                         block: seq<P>, inner: nat)
    requires |l| == |r| == Pow2(k) && j < Pow2(k) && block == l + r && |block| == Pow2(k + 1)
    requires inner == if left then j else Pow2(k) + j
    ensures PathInTree(leaf, node, k + 1, block, inner)
            == PathInTree(leaf, node, k, if left then l else r, j)
               + [if left then Step(false, Fold(leaf, node, k, r)) else Step(true, Fold(leaf, node, k, l))]
  {
    PathOfPair(leaf, node, k, l, r, j);
  }

  lemma PathOfPair<P, D>(leaf: P -> D, node: (D, D) -> D, k: nat, l: seq<P>, r: seq<P>, j: nat)
    requires |l| == |r| == Pow2(k) && j < Pow2(k)
    ensures |l + r| == Pow2(k + 1)
    ensures PathInTree(leaf, node, k + 1, l + r, j) ==
              PathInTree(leaf, node, k, l, j) + [Step(false, Fold(leaf, node, k, r))]
    ensures PathInTree(leaf, node, k + 1, l + r, Pow2(k) + j)
            == PathInTree(leaf, node, k, r, j) + [Step(true, Fold(leaf, node, k, l))]
  {
    assert (l + r)[..Pow2(k)] == l && (l + r)[Pow2(k)..] == r;
  }

  /** The path read off the layers is the path in the top-down tree of the padded list. */
  lemma {:induction false} PathsAgree<P, D>(leaf: P -> D, node: (D, D) -> D, k: nat, m: nat, blocks: seq<seq<P>>,
                                            top: seq<P>,
                                            pos: nat, i: nat, j: nat)
    requires blocks != [] && Blocks(blocks, k) && m == k + Depth(|blocks|)
    requires top == Reduce(Append(), blocks) && |top| == Pow2(m)
    requires i < |blocks| && j < Pow2(k) && At(pos, i, Pow2(k), j)
    requires pos < |top| && blocks[i] in blocks
    ensures PathInTree(leaf, node, m, top, pos) ==
              PathInTree(leaf, node, k, blocks[i], j) + PathInLayers(node, Folds(leaf, node, k, blocks), i)
    decreases |blocks|
  {
    if |blocks| > 1 {
      var next := OneRound(leaf, node, k, m, blocks, top);
      var folds, inner := Folds(leaf, node, k, blocks), Inner(i, Pow2(k), j);
      PathGrows(leaf, node, k, blocks, i, j);
      HalfIndex(pos, i, Pow2(k), j);
      PathsAgree(leaf, node, k + 1, m, next, top, pos, i / 2, inner);
      FoldsOfNextLayer(leaf, node, k, blocks);
      PathInLayersStep(node, folds, i);
      Reassociate(PathInTree(leaf, node, k, blocks[i], j), LayerStep(folds, i),
          PathInLayers(node, NextLayer(node, folds), i / 2));
    } else {
      PathEnds(leaf, node, k, m, blocks, top, pos, i, j);
    }
  }

  lemma Reassociate<T>(a: seq<T>, x: T, b: seq<T>)
    ensures a + [x] + b == a + ([x] + b)
  {
  }

  lemma PathInLayersStep<D>(node: (D, D) -> D, layer: seq<D>, index: nat)
    requires |layer| > 1 && index < |layer|
    ensures PathInLayers(node, layer, index) ==
              [LayerStep(layer, index)] + PathInLayers(node, NextLayer(node, layer), index / 2)
  {
  }

  lemma PathEnds<P, D>(leaf: P -> D, node: (D, D) -> D, k: nat, m: nat, blocks: seq<seq<P>>, top: seq<P>,
                       pos: nat, i: nat, j: nat)
    requires |blocks| == 1 && Blocks(blocks, k) && m == k + Depth(|blocks|)
    requires top == Reduce(Append(), blocks) && |top| == Pow2(m)
    requires i == 0 && j < Pow2(k) && At(pos, i, Pow2(k), j)
    ensures pos < |top| && blocks[i] in blocks
    ensures PathInTree(leaf, node, m, top, pos) ==
              PathInTree(leaf, node, k, blocks[i], j) + PathInLayers(node, Folds(leaf, node, k, blocks), i)
  {
    assert Depth(|blocks|) == 0 && m == k && top == blocks[0] && pos == j;
    assert PathInLayers(node, Folds(leaf, node, k, blocks), i) == [];
  }

  lemma PathOfLeaf<P, D>(leaf: P -> D, node: (D, D) -> D, xs: seq<P>, index: nat)
    requires index < |xs|
    ensures index < |Padded(xs)| == Pow2(Depth(|xs|)) && Padded(xs)[index] == xs[index]
    ensures PathInLayers(node, Leaves(leaf, xs), index) == PathInTree(leaf, node, Depth(|xs|), Padded(xs), index)
  {
    PaddedLength(xs);
    PaddedExtends(xs);
    FoldsOfSingles(leaf, node, xs);
    assert Singles(xs)[index] in Singles(xs);
    PathsAgree(leaf, node, 0, Depth(|xs|), Singles(xs), Padded(xs), index, index, 0);
  }

  // ---- Following a path

  function Join<D>(node: (D, D) -> D, current: D, step: Step<D>): D {
    if step.left then node(step.sibling, current) else node(current, step.sibling)
  }

  function FollowPath<D>(node: (D, D) -> D, current: D, path: seq<Step<D>>): D {
    if path == [] then current
    else Join(node, FollowPath(node, current, path[..|path| - 1]), path[|path| - 1])
  }

  lemma FollowAppend<D>(node: (D, D) -> D, current: D, path: seq<Step<D>>, step: Step<D>)
    ensures FollowPath(node, current, path + [step]) == Join(node, FollowPath(node, current, path), step)
  {
    assert (path + [step])[..|path|] == path;
  }

  /** A path that leads to the top of one half leads, with its last step, to the top of the whole. */
  lemma LeadsOn<P, D>(leaf: P -> D, node: (D, D) -> D, k: nat, xs: seq<P>, l: seq<P>, r: seq<P>, j: nat, start: D)
    requires |l| == |r| == Pow2(k) && j < Pow2(k) && xs == l + r
    ensures |xs| == Pow2(k + 1)
    ensures FollowPath(node, start, PathInTree(leaf, node, k, l, j)) == Fold(leaf, node, k, l) ==>
              FollowPath(node, start, PathInTree(leaf, node, k + 1, xs, j)) == Fold(leaf, node, k + 1, xs)
    ensures FollowPath(node, start, PathInTree(leaf, node, k, r, j)) == Fold(leaf, node, k, r) ==>
              FollowPath(node, start, PathInTree(leaf, node, k + 1, xs, Pow2(k) + j)) == Fold(leaf, node, k + 1, xs)
  {
    PathOfPair(leaf, node, k, l, r, j);
    FoldOfPair(leaf, node, k, l, r);
    FollowAppend(node, start, PathInTree(leaf, node, k, l, j), Step(false, Fold(leaf, node, k, r)));
    FollowAppend(node, start, PathInTree(leaf, node, k, r, j), Step(true, Fold(leaf, node, k, l)));
  }

  /** The path of a leaf leads to the root. */
  lemma {:induction false} PathLeadsToRoot<P, D>(leaf: P -> D, node: (D, D) -> D, d: nat, xs: seq<P>, index: nat)
    requires |xs| == Pow2(d) && index < |xs|
    ensures FollowPath(node, leaf(xs[index]), PathInTree(leaf, node, d, xs, index)) == Fold(leaf, node, d, xs)
  {
    if d > 0 {
      var half := Pow2(d - 1);
      var l, r := xs[..half], xs[half..];
      var j := if index < half then index else index - half;
      assert xs == l + r;
      PathLeadsToRoot(leaf, node, d - 1, if index < half then l else r, j);
      LeadsOn(leaf, node, d - 1, xs, l, r, j, leaf(xs[index]));
    }
  }
}
