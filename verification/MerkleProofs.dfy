/** What the proof generator returns for any index, inside the batch or not. */
module MerkleProofs {
  import opened Common
  import opened MerkleShape
  import opened Merkle
  import opened MerkleTheorems

  /** A path with all its hashes. */
  function Known<D>(path: seq<Step<D>>): seq<Step<Option<D>>> {
    seq(|path|, i requires 0 <= i < |path| => Step(path[i].left, Some(path[i].sibling)))
  }

  predicate NoneMissing<D>(proof: seq<Step<Option<D>>>) {
    forall i | 0 <= i < |proof| :: proof[i].sibling.Some?
  }

  lemma KnownFront<D>(step: Step<D>, path: seq<Step<D>>)
    ensures Known([step] + path) == [Step(step.left, Some(step.sibling))] + Known(path)
  {
  }

  lemma GeneratedFront<D>(node: (D, D) -> D, layer: seq<D>, index: nat)
    requires |layer| > 1
    ensures Generated(node, layer, index) ==
              [GeneratedStep(layer, index)] + Generated(node, NextLayer(node, layer), index / 2)
  {
  }

  /** For an index of the batch the proof is the path of the leaf. */
  lemma {:induction false} GeneratedIsPath<D>(node: (D, D) -> D, layer: seq<D>, index: nat)
    requires index < |layer|
    ensures Generated(node, layer, index) == Known(PathInLayers(node, layer, index))
    decreases |layer|
  {
    if |layer| > 1 {
      var next := NextLayer(node, layer);
      GeneratedIsPath(node, next, index / 2);
      PathInLayersStep(node, layer, index);
      KnownFront(LayerStep(layer, index), PathInLayers(node, next, index / 2));
      GeneratedFront(node, layer, index);
    }
  }

  /** The position behind a batch of odd size, which the padding fills with the last leaf. */
  predicate IsPadding(n: nat, index: nat) {
    n > 1 && n % 2 == 1 && index == n
  }

  /** There, the proof starts to the left, with the last leaf itself, and goes on like the proof of that leaf. */
  lemma PaddingStep<D>(node: (D, D) -> D, layer: seq<D>)
    requires IsPadding(|layer|, |layer|)
    ensures var n, next := |layer|, NextLayer(node, layer);
            && n / 2 < |next|
            && Generated(node, layer, n) == Known([Step(true, layer[n - 1])] + PathInLayers(node, next, n / 2))
            && PathInLayers(node, layer, n - 1) == [Step(false, layer[n - 1])] + PathInLayers(node, next, n / 2)
  {
    var n, next := |layer|, NextLayer(node, layer);
    HalfOfOdd(n);
    GeneratedFront(node, layer, n);
    GeneratedIsPath(node, next, n / 2);
    KnownFront(Step(true, layer[n - 1]), PathInLayers(node, next, n / 2));
    PathInLayersStep(node, layer, n - 1);
  }

  lemma HalfOfOdd(n: nat)
    requires n % 2 == 1
    ensures n / 2 == (n - 1) / 2 < (n + 1) / 2 && (n - 1) % 2 == 0
  {
  }

  /** No hash is missing exactly for the leaves and the padding position; a batch of one needs none. */
  lemma {:induction false} NoneMissingIff<D>(node: (D, D) -> D, layer: seq<D>, index: nat)
    ensures NoneMissing(Generated(node, layer, index)) <==>
              |layer| <= 1 || index < |layer| || IsPadding(|layer|, index)
  {
    if |layer| > 1 {
      if index < |layer| {
        GeneratedIsPath(node, layer, index);
      } else if index == |layer| && |layer| % 2 == 1 {
        PaddingStep(node, layer);
      } else {
        GeneratedFront(node, layer, index);
        assert GeneratedStep(layer, index) == Step(false, None);
        assert Generated(node, layer, index)[0] == Step(false, None);
      }
    }
  }

  lemma {:induction false} FollowFirst<D>(node: (D, D) -> D, current: D, step: Step<D>, path: seq<Step<D>>)
    ensures FollowPath(node, current, [step] + path) == FollowPath(node, Join(node, current, step), path)
  {
    if path == [] {
      assert [step] + path == [step] && [step][..0] == [];
    } else {
      var init, last := path[..|path| - 1], path[|path| - 1];
      FollowFirst(node, current, step, init);
      assert ([step] + path)[..|path|] == [step] + init;
    }
  }

  /** A node paired with itself may stand on either side. */
  lemma EitherSide<D>(node: (D, D) -> D, last: D, rest: seq<Step<D>>)
    ensures FollowPath(node, last, [Step(true, last)] + rest) == FollowPath(node, last, [Step(false, last)] + rest)
    ensures [Step(true, last)] + rest != [Step(false, last)] + rest
  {
    FollowFirst(node, last, Step(true, last), rest);
    FollowFirst(node, last, Step(false, last), rest);
    assert ([Step(true, last)] + rest)[0] != ([Step(false, last)] + rest)[0];
  }

  lemma PaddingPath<D>(node: (D, D) -> D, layer: seq<D>) returns (proof: seq<Step<D>>)
    requires IsPadding(|layer|, |layer|)
    ensures var path, last := PathInLayers(node, layer, |layer| - 1), layer[|layer| - 1];
            && Generated(node, layer, |layer|) == Known(proof) && proof != path
            && FollowPath(node, last, proof) == FollowPath(node, last, path)
  {
    var rest, last := PathInLayers(node, NextLayer(node, layer), |layer| / 2), layer[|layer| - 1];
    proof := [Step(true, last)] + rest;
    PaddingStep(node, layer);
    EitherSide(node, last, rest);
  }

  lemma PaddingLeads<P, D>(leaf: P -> D, node: (D, D) -> D, xs: seq<P>, start: D, root: D) returns (proof: seq<Step<D>>)
    requires IsPadding(|xs|, |xs|) && start == leaf(xs[|xs| - 1])
    requires FollowPath(node, start, PathInLayers(node, Leaves(leaf, xs), |xs| - 1)) == root
    ensures Generated(node, Leaves(leaf, xs), |xs|) == Known(proof) && FollowPath(node, start, proof) == root
    ensures proof != PathInLayers(node, Leaves(leaf, xs), |xs| - 1)
  {
    proof := PaddingPath(node, Leaves(leaf, xs));
  }

  /** The proof for the padding position is accepted too, for the last payload of the batch. */
  lemma PaddingProofIsAccepted(h: Hash, batch: seq<Bytes>) returns (proof: seq<Step<Bytes>>)
    requires IsPadding(|batch|, |batch|)
    ensures Generated(NodeOf(h), Leaves(LeafOf(h), batch), |batch|) == Known(proof)
    ensures Accepted(h, batch[|batch| - 1], proof, RootOf(h, batch))
    ensures proof != ProofOf(h, batch, |batch| - 1)
  {
    var last := |batch| - 1;
    ProofIsAccepted(h, batch, last);
    proof := PaddingLeads(LeafOf(h), NodeOf(h), batch, LeafOf(h)(batch[last]), RootOf(h, batch));
  }
}
