/**
 * The ZS-MERKLE-V1 evidence tree over an arbitrary hash with 32-byte digests. Collision freedom
 * is only ever assumed of the finitely many inputs that one construction and one verification hash.
 */
module Merkle {
  import opened Common
  import opened MerkleShape

  type Hash = Bytes -> Bytes

  ghost predicate Digests(h: Hash) {
    forall x :: |h(x)| == 32
  }

  /** Domain separation: leaves are prefixed with 0x00, internal nodes with 0x01. */
  function LeafInput(payload: Bytes): Bytes {
    [0] + payload
  }

  function NodeInput(left: Bytes, right: Bytes): Bytes {
    [1] + left + right
  }

  function LeafOf(h: Hash): Bytes -> Bytes {
    (payload: Bytes) => h(LeafInput(payload))
  }

  function NodeOf(h: Hash): (Bytes, Bytes) -> Bytes {
    (left: Bytes, right: Bytes) => h(NodeInput(left, right))
  }

  lemma LeafHash(h: Hash, payload: Bytes)
    ensures LeafOf(h)(payload) == h([0x00] + payload)
  {
    assert LeafInput(payload) == [0x00] + payload;
  }

  lemma NodeHash(h: Hash, left: Bytes, right: Bytes)
    ensures NodeOf(h)(left, right) == h([0x01] + left + right)
  {
    assert NodeInput(left, right) == [0x01] + left + right;
  }

  lemma NodeHashes(h: Hash, combine: (Bytes, Bytes) -> Bytes)
    requires forall l, r :: combine(l, r) == h([0x01] + l + r)
    ensures forall l, r :: combine(l, r) == NodeOf(h)(l, r)
  {
    forall l, r ensures combine(l, r) == NodeOf(h)(l, r) {
      NodeHash(h, l, r);
    }
  }

  function RootOf(h: Hash, batch: seq<Bytes>): Bytes {
    if batch == [] then h([]) else Reduce(NodeOf(h), Leaves(LeafOf(h), batch))
  }

  function ProofOf(h: Hash, batch: seq<Bytes>, index: nat): seq<Step<Bytes>>
    requires index < |batch|
  {
    PathInLayers(NodeOf(h), Leaves(LeafOf(h), batch), index)
  }

  /** An array access as the code does it: nothing outside the array. */
  function Entry<D>(layer: seq<D>, index: nat): Option<D> {
    if index < |layer| then Some(layer[index]) else None
  }

  /** One step of a generated proof; with an index outside the layer its hash may be missing. */
  function GeneratedStep<D>(layer: seq<D>, index: nat): Step<Option<D>> {
    var isRight := index % 2 == 1;
    var pair := if isRight then index - 1 else index + 1;
    if pair < |layer| then Step(isRight, Some(layer[pair])) else Step(false, Entry(layer, index))
  }

  function Generated<D>(node: (D, D) -> D, layer: seq<D>, index: nat): (proof: seq<Step<Option<D>>>)
    ensures |proof| == Depth(|layer|)
    decreases |layer|
  {
    if |layer| <= 1 then []
    else [GeneratedStep(layer, index)] + Generated(node, NextLayer(node, layer), index / 2)
  }

  predicate Accepted(h: Hash, payload: Bytes, proof: seq<Step<Bytes>>, root: Bytes) {
    FollowPath(NodeOf(h), LeafOf(h)(payload), proof) == root
  }

  /** One pass over a level: an odd last node is combined with itself. */
  method PairUp(ghost node: (Bytes, Bytes) -> Bytes, combine: (Bytes, Bytes) -> Bytes, level: seq<Bytes>)
    returns (next: seq<Bytes>)
    requires forall l, r :: combine(l, r) == node(l, r)
    ensures next == NextLayer(node, level)
  {
    next := [];
    var i := 0;
    while i < |level|
      invariant i == 2 * |next| && |next| <= (|level| + 1) / 2
      invariant next == NextLayer(node, level)[..|next|]
      decreases |level| - i
    {
      var left := level[i];
      var right := if i + 1 < |level| then level[i + 1] else left;
      next := next + [combine(left, right)];
      i := i + 2;
    }
  }

  /** One level of the tree: each pair under the 0x01 prefix. */
  method NextLevel(hash: Hash, level: seq<Bytes>) returns (next: seq<Bytes>)
    ensures next == NextLayer(NodeOf(hash), level)
  {
    var combine := (left: Bytes, right: Bytes) => hash([0x01] + left + right);
    NodeHashes(hash, combine);
    next := PairUp(NodeOf(hash), combine, level);
  }

  lemma LayersFrom(node: (Bytes, Bytes) -> Bytes, before: seq<seq<Bytes>>, level: seq<Bytes>)
    ensures [] + Layers(node, level) == Layers(node, level)
    ensures |level| > 1 ==> before + Layers(node, level) == before + [level] + Layers(node, NextLayer(node, level))
  {
    if |level| > 1 {
      Reassociate(before, level, Layers(node, NextLayer(node, level)));
    }
  }

  lemma {:induction false} LastLayerIsShort(node: (Bytes, Bytes) -> Bytes, level: seq<Bytes>)
    ensures |Layers(node, level)[Depth(|level|)]| <= 1
    decreases |level|
  {
    if |level| > 1 {
      LastLayerIsShort(node, NextLayer(node, level));
    }
  }

  /** What is left of the proof is that of the current index in the current layer. */
  ghost predicate Generating(node: (Bytes, Bytes) -> Bytes, leaves: seq<Bytes>, leafIndex: nat, layer: seq<Bytes>,
                             proof: seq<Step<Option<Bytes>>>, index: nat) {
    proof + Generated(node, layer, index) == Generated(node, leaves, leafIndex)
  }

  lemma OneMoreStep(node: (Bytes, Bytes) -> Bytes, leaves: seq<Bytes>, leafIndex: nat, all: seq<seq<Bytes>>, i: nat,
                    proof: seq<Step<Option<Bytes>>>, index: nat, step: Step<Option<Bytes>>)
    requires all == Layers(node, leaves) && i < Depth(|leaves|) && step == GeneratedStep(all[i], index)
    requires Generating(node, leaves, leafIndex, all[i], proof, index)
    ensures Generating(node, leaves, leafIndex, all[i + 1], proof + [step], index / 2)
  {
    LayersShrink(node, leaves, i);
    StepIn(node, leaves, leafIndex, all[i], proof, index, step, all[i + 1], index / 2);
  }

  lemma StepIn(node: (Bytes, Bytes) -> Bytes, leaves: seq<Bytes>, leafIndex: nat, layer: seq<Bytes>,
               proof: seq<Step<Option<Bytes>>>, index: nat, step: Step<Option<Bytes>>, next: seq<Bytes>, half: nat)
    requires |layer| > 1 && Generating(node, leaves, leafIndex, layer, proof, index)
    requires step == GeneratedStep(layer, index) && next == NextLayer(node, layer) && half == index / 2
    ensures Generating(node, leaves, leafIndex, next, proof + [step], half)
  {
    Reassociate(proof, step, Generated(node, next, half));
  }

  lemma StepIs(layer: seq<Bytes>, index: nat, isRight: bool, pair: nat, step: Step<Option<Bytes>>)
    requires isRight == (index % 2 == 1) && pair == (if isRight then index - 1 else index + 1)
    requires step == GeneratedStep(layer, index)
    ensures step == if pair < |layer| then Step(isRight, Some(layer[pair])) else Step(false, Entry(layer, index))
  {
  }

  lemma NothingYet(node: (Bytes, Bytes) -> Bytes, leaves: seq<Bytes>, leafIndex: nat)
    ensures Generating(node, leaves, leafIndex, leaves, [], leafIndex)
  {
  }

  lemma AllSteps(node: (Bytes, Bytes) -> Bytes, leaves: seq<Bytes>, leafIndex: nat, top: seq<Bytes>,
                 proof: seq<Step<Option<Bytes>>>, index: nat)
    requires top == Layers(node, leaves)[Depth(|leaves|)] && Generating(node, leaves, leafIndex, top, proof, index)
    ensures proof == Generated(node, leaves, leafIndex)
  {
    LastLayerIsShort(node, leaves);
    assert Generated(node, top, index) == [];
  }

  class ZsMerkleV1ScaleTree {
    const hash: Hash
    var leaves: seq<Bytes>
    var layers: seq<seq<Bytes>>

    ghost predicate Valid()
      reads this
    {
      layers == Layers(NodeOf(hash), leaves)
    }

    constructor (hash: Hash, payloads: seq<Bytes>)
      ensures this.hash == hash && leaves == Leaves(LeafOf(hash), payloads) && Valid()
    {
      this.hash := hash;
      var prefixed := seq(|payloads|, i requires 0 <= i < |payloads| => hash([0x00] + payloads[i]));
      forall i | 0 <= i < |payloads| ensures prefixed[i] == Leaves(LeafOf(hash), payloads)[i] {
        LeafHash(hash, payloads[i]);
      }
      leaves := prefixed;
      layers := [prefixed];
      new;
      BuildTree();
    }

    method BuildTree()
      requires layers == [leaves]
      modifies this`layers
      ensures Valid()
    {
      ghost var node := NodeOf(hash);
      var current := leaves;
      ghost var done: seq<seq<Bytes>> := [];
      LayersFrom(node, done, current);
      while |current| > 1
        invariant layers == done + [current]
        invariant done + Layers(node, current) == Layers(node, leaves)
        decreases |current|
      {
        var next := NextLevel(hash, current);
        LayersFrom(node, done, current);
        layers := layers + [next];
        done := done + [current];
        current := next;
      }
      assert Layers(node, current) == [current];
    }

    method GetRoot() returns (root: Bytes)
      requires Valid()
      ensures leaves == [] ==> root == hash([])
      ensures leaves != [] ==> root == Reduce(NodeOf(hash), leaves)
    {
      if |leaves| == 0 {
        return hash([]);
      }
      ReduceIsLastLayer(NodeOf(hash), leaves);
      return layers[|layers| - 1][0];
    }

    method GetProof(leafIndex: nat) returns (proof: seq<Step<Option<Bytes>>>)
      requires Valid()
      ensures proof == Generated(NodeOf(hash), leaves, leafIndex)
    {
      ghost var node := NodeOf(hash);
      proof := [];
      var currentIndex := leafIndex;
      NothingYet(node, leaves, leafIndex);
      for i := 0 to |layers| - 1
        invariant Generating(node, leaves, leafIndex, layers[i], proof, currentIndex)
      {
        var layer := layers[i];
        var isRightNode := currentIndex % 2 == 1;
        var pairIndex := if isRightNode then currentIndex - 1 else currentIndex + 1;
        ghost var step := GeneratedStep(layer, currentIndex);
        StepIs(layer, currentIndex, isRightNode, pairIndex, step);
        OneMoreStep(node, leaves, leafIndex, layers, i, proof, currentIndex, step);
        if pairIndex < |layer| {
          proof := proof + [Step(isRightNode, Some(layer[pairIndex]))];
        } else {
          proof := proof + [Step(false, Entry(layer, currentIndex))];
        }
        currentIndex := currentIndex / 2;
      }
      AllSteps(node, leaves, leafIndex, layers[|layers| - 1], proof, currentIndex);
    }

    static method VerifyInclusionProof(hash: Hash, payload: Bytes, proof: seq<Step<Bytes>>, expectedRoot: Bytes)
      returns (valid: bool)
      ensures valid == Accepted(hash, payload, proof, expectedRoot)
    {
      var current := hash([0x00] + payload);
      LeafHash(hash, payload);
      for i := 0 to |proof|
        invariant current == FollowPath(NodeOf(hash), LeafOf(hash)(payload), proof[..i])
      {
        var step := proof[i];
        var left := if step.left then step.sibling else current;
        var right := if !step.left then step.sibling else current;
        assert proof[..i + 1][..i] == proof[..i];
        NodeHash(hash, left, right);
        current := hash([0x01] + left + right);
      }
      assert proof[..|proof|] == proof;
      return current == expectedRoot;
    }
  }
}
