/** What the evidence tree promises: proofs, roots, and its relation to RFC 6962. */
module MerkleTheorems {
  import opened Common
  import opened MerkleShape
  import opened Merkle

  // ---- The inputs that are hashed

  /** No two of these inputs have the same digest. */
  ghost predicate NoCollision(h: Hash, inputs: set<Bytes>) {
    forall x, y | x in inputs && y in inputs && h(x) == h(y) :: x == y
  }

  function TreeOf(h: Hash, d: nat, xs: seq<Bytes>): Bytes
    requires |xs| == Pow2(d)
  {
    Fold(LeafOf(h), NodeOf(h), d, xs)
  }

  function TreeInputs(h: Hash, d: nat, xs: seq<Bytes>): set<Bytes>
    requires |xs| == Pow2(d)
  {
    if d == 0 then {LeafInput(xs[0])}
    else
      var l, r := xs[..Pow2(d - 1)], xs[Pow2(d - 1)..];
      {NodeInput(TreeOf(h, d - 1, l), TreeOf(h, d - 1, r))} + TreeInputs(h, d - 1, l) + TreeInputs(h, d - 1, r)
  }

  function StepInput(current: Bytes, step: Step<Bytes>): Bytes {
    if step.left then NodeInput(step.sibling, current) else NodeInput(current, step.sibling)
  }

  function ProofInputs(h: Hash, payload: Bytes, proof: seq<Step<Bytes>>): set<Bytes> {
    if proof == [] then {LeafInput(payload)}
    else
      var before := proof[..|proof| - 1];
      {StepInput(FollowPath(NodeOf(h), LeafOf(h)(payload), before), proof[|proof| - 1])}
          + ProofInputs(h, payload, before)
  }

  /** The input whose digest is the root of the tree. */
  function TreeTop(h: Hash, d: nat, xs: seq<Bytes>): Bytes
    requires |xs| == Pow2(d)
  {
    if d == 0 then LeafInput(xs[0])
    else NodeInput(TreeOf(h, d - 1, xs[..Pow2(d - 1)]), TreeOf(h, d - 1, xs[Pow2(d - 1)..]))
  }

  lemma TreeTopIn(h: Hash, d: nat, xs: seq<Bytes>)
    requires |xs| == Pow2(d)
    ensures TreeTop(h, d, xs) in TreeInputs(h, d, xs) && TreeOf(h, d, xs) == h(TreeTop(h, d, xs))
    ensures d > 0 ==> TreeInputs(h, d - 1, xs[..Pow2(d - 1)]) <= TreeInputs(h, d, xs)
    ensures d > 0 ==> TreeInputs(h, d - 1, xs[Pow2(d - 1)..]) <= TreeInputs(h, d, xs)
  {
  }

  /** The digest a verifier holds after following a proof. */
  function Reached(h: Hash, payload: Bytes, proof: seq<Step<Bytes>>): Bytes {
    FollowPath(NodeOf(h), LeafOf(h)(payload), proof)
  }

  function ProofTop(h: Hash, payload: Bytes, proof: seq<Step<Bytes>>): Bytes {
    if proof == [] then LeafInput(payload)
    else StepInput(Reached(h, payload, proof[..|proof| - 1]), proof[|proof| - 1])
  }

  lemma ProofTopIn(h: Hash, payload: Bytes, proof: seq<Step<Bytes>>)
    ensures ProofTop(h, payload, proof) in ProofInputs(h, payload, proof)
    ensures Reached(h, payload, proof) == h(ProofTop(h, payload, proof))
    ensures proof != [] ==> ProofInputs(h, payload, proof[..|proof| - 1]) <= ProofInputs(h, payload, proof)
  {
  }

  /** The two halves of a node input are recovered from it, whatever the sibling's length. */
  lemma NodeInputSplits(a: Bytes, b: Bytes, c: Bytes, d: Bytes)
    requires NodeInput(a, b) == NodeInput(c, d)
    requires |c| == 32 && |d| == 32 && (|a| == 32 || |b| == 32)
    ensures a == c && b == d
  {
    assert |NodeInput(a, b)| == 1 + |a| + |b| && |NodeInput(c, d)| == 65;
    assert a == NodeInput(a, b)[1..33] == NodeInput(c, d)[1..33] == c;
    assert b == NodeInput(a, b)[33..] == NodeInput(c, d)[33..] == d;
  }

  lemma LeafIsNoNode(p: Bytes, a: Bytes, b: Bytes)
    ensures LeafInput(p) != NodeInput(a, b)
  {
    assert LeafInput(p)[0] == 0 && NodeInput(a, b)[0] == 1;
  }

  lemma LeafInputInjective(p: Bytes, q: Bytes)
    requires LeafInput(p) == LeafInput(q)
    ensures p == q
  {
    assert p == LeafInput(p)[1..] && q == LeafInput(q)[1..];
  }

  // ---- Soundness

  /** A leaf is reached by no step; otherwise the last step joins the digests of the two halves. */
  lemma SameTops(h: Hash, d: nat, xs: seq<Bytes>, payload: Bytes, proof: seq<Step<Bytes>>)
    requires Digests(h) && |xs| == Pow2(d) && TreeTop(h, d, xs) == ProofTop(h, payload, proof)
    ensures d == 0 <==> proof == []
    ensures d == 0 ==> payload == xs[0]
    ensures d > 0 ==>
              var left, right := TreeOf(h, d - 1, xs[..Pow2(d - 1)]), TreeOf(h, d - 1, xs[Pow2(d - 1)..]);
              var step := proof[|proof| - 1];
              && Reached(h, payload, proof[..|proof| - 1]) == (if step.left then right else left)
              && step.sibling == (if step.left then left else right)
  {
    if d == 0 && proof == [] {
      LeafInputInjective(payload, xs[0]);
    } else if d == 0 {
      StepIsNoLeaf(Reached(h, payload, proof[..|proof| - 1]), proof[|proof| - 1], xs[0]);
    } else {
      var left, right := TreeOf(h, d - 1, xs[..Pow2(d - 1)]), TreeOf(h, d - 1, xs[Pow2(d - 1)..]);
      if proof == [] {
        LeafIsNoNode(payload, left, right);
      } else {
        ReachedLength(h, payload, proof[..|proof| - 1]);
        TreeLength(h, d - 1, xs[..Pow2(d - 1)]);
        TreeLength(h, d - 1, xs[Pow2(d - 1)..]);
        StepSplits(Reached(h, payload, proof[..|proof| - 1]), proof[|proof| - 1], left, right);
      }
    }
  }

  lemma StepIsNoLeaf(current: Bytes, step: Step<Bytes>, payload: Bytes)
    ensures StepInput(current, step) != LeafInput(payload)
  {
    LeafIsNoNode(payload, if step.left then step.sibling else current, if step.left then current else step.sibling);
  }

  lemma StepSplits(current: Bytes, step: Step<Bytes>, left: Bytes, right: Bytes)
    requires |current| == 32 && |left| == 32 && |right| == 32 && StepInput(current, step) == NodeInput(left, right)
    ensures current == (if step.left then right else left) && step.sibling == (if step.left then left else right)
  {
    NodeInputSplits(if step.left then step.sibling else current,
                    if step.left then current else step.sibling, left, right);
  }

  lemma ReachedLength(h: Hash, payload: Bytes, proof: seq<Step<Bytes>>)
    requires Digests(h)
    ensures |Reached(h, payload, proof)| == 32
  {
    ProofTopIn(h, payload, proof);
  }

  lemma TreeLength(h: Hash, d: nat, xs: seq<Bytes>)
    requires Digests(h) && |xs| == Pow2(d)
    ensures |TreeOf(h, d, xs)| == 32
  {
    TreeTopIn(h, d, xs);
  }

  /** The half of the tree that a last step on the given side leaves to be explained. */
  function HalfOf(d: nat, xs: seq<Bytes>, left: bool): (half: seq<Bytes>)
    requires |xs| == Pow2(d) && d > 0
    ensures |half| == Pow2(d - 1)
  {
    if left then xs[Pow2(d - 1)..] else xs[..Pow2(d - 1)]
  }

  lemma PathInHalf(h: Hash, d: nat, xs: seq<Bytes>, left: bool, inner: nat, proof: seq<Step<Bytes>>)
    returns (index: nat)
    requires |xs| == Pow2(d) && d > 0 && inner < Pow2(d - 1) && proof != []
    requires proof[|proof| - 1] == Step(left, TreeOf(h, d - 1, HalfOf(d, xs, !left)))
    requires proof[..|proof| - 1] == PathInTree(LeafOf(h), NodeOf(h), d - 1, HalfOf(d, xs, left), inner)
    ensures index < |xs| && xs[index] == HalfOf(d, xs, left)[inner]
    ensures proof == PathInTree(LeafOf(h), NodeOf(h), d, xs, index)
  {
    index := if left then inner + Pow2(d - 1) else inner;
    assert proof == proof[..|proof| - 1] + [proof[|proof| - 1]];
  }

  /** Whatever leads to the root is the path of a leaf: same siblings, same sides, same length. */
  lemma {:induction false} LeadingPathIsGenuine(h: Hash, d: nat, xs: seq<Bytes>, payload: Bytes,
                                                proof: seq<Step<Bytes>>) returns (index: nat)
    requires Digests(h) && |xs| == Pow2(d)
    requires NoCollision(h, TreeInputs(h, d, xs) + ProofInputs(h, payload, proof))
    requires Reached(h, payload, proof) == TreeOf(h, d, xs)
    ensures index < |xs| && xs[index] == payload
    ensures proof == PathInTree(LeafOf(h), NodeOf(h), d, xs, index)
    decreases d
  {
    TreeTopIn(h, d, xs);
    ProofTopIn(h, payload, proof);
    SameTops(h, d, xs, payload, proof);
    if d == 0 {
      index := 0;
    } else {
      var left := proof[|proof| - 1].left;
      var inner := LeadingPathIsGenuine(h, d - 1, HalfOf(d, xs, left), payload, proof[..|proof| - 1]);
      index := PathInHalf(h, d, xs, left, inner, proof);
    }
  }

  lemma RootIsTree(h: Hash, batch: seq<Bytes>)
    requires batch != []
    ensures |Padded(batch)| == Pow2(Depth(|batch|))
    ensures RootOf(h, batch) == TreeOf(h, Depth(|batch|), Padded(batch))
  {
    BottomUpIsTopDown(LeafOf(h), NodeOf(h), batch);
  }

  /** Everything one construction and one verification hash. */
  function HashedInputs(h: Hash, batch: seq<Bytes>, payload: Bytes, proof: seq<Step<Bytes>>): set<Bytes>
    requires batch != []
  {
    PaddedLength(batch);
    TreeInputs(h, Depth(|batch|), Padded(batch)) + ProofInputs(h, payload, proof)
  }

  /**
   * A proof of any length is accepted exactly when it is the authentication path of a leaf of the
   * padded batch that holds the payload.
   */
  lemma AcceptedIffPath(h: Hash, batch: seq<Bytes>, payload: Bytes, proof: seq<Step<Bytes>>)
    requires Digests(h) && batch != []
    requires NoCollision(h, HashedInputs(h, batch, payload, proof))
    ensures |Padded(batch)| == Pow2(Depth(|batch|))
    ensures Accepted(h, payload, proof, RootOf(h, batch)) <==>
              exists index: nat | index < |Padded(batch)| ::
                Padded(batch)[index] == payload
                    && proof == PathInTree(LeafOf(h), NodeOf(h), Depth(|batch|), Padded(batch), index)
  {
    var d, xs := Depth(|batch|), Padded(batch);
    RootIsTree(h, batch);
    if Accepted(h, payload, proof, RootOf(h, batch)) {
      var index := LeadingPathIsGenuine(h, d, xs, payload, proof);
    }
    if index: nat :| index < |xs| && xs[index] == payload && proof == PathInTree(LeafOf(h), NodeOf(h), d, xs, index) {
      PathLeadsToRoot(LeafOf(h), NodeOf(h), d, xs, index);
    }
  }

  /** An accepted payload was in the batch, and its proof has one step per round of pairing. */
  lemma AcceptedIsIncluded(h: Hash, batch: seq<Bytes>, payload: Bytes, proof: seq<Step<Bytes>>)
    requires Digests(h) && batch != []
    requires NoCollision(h, HashedInputs(h, batch, payload, proof))
    requires Accepted(h, payload, proof, RootOf(h, batch))
    ensures payload in batch && |proof| == Depth(|batch|)
  {
    AcceptedIffPath(h, batch, payload, proof);
    PaddedExtends(batch);
  }

  // ---- Completeness

  /** The proof of every leaf is accepted, self-paired ancestors included; no assumption on the hash. */
  lemma ProofIsAccepted(h: Hash, batch: seq<Bytes>, index: nat)
    requires index < |batch|
    ensures Accepted(h, batch[index], ProofOf(h, batch, index), RootOf(h, batch))
    ensures var n := |ProofOf(h, batch, index)|;
            |batch| <= Pow2(n) && (n > 0 ==> Pow2(n - 1) < |batch|)
  {
    PathOfLeaf(LeafOf(h), NodeOf(h), batch, index);
    RootIsTree(h, batch);
    PathLeadsToRoot(LeafOf(h), NodeOf(h), Depth(|batch|), Padded(batch), index);
    DepthIsCeilLog2(|batch|);
  }

  // ---- RFC 6962

  /** The largest power of two smaller than n. */
  function Split(n: nat): (k: nat)
    requires n > 1
    ensures k < n <= 2 * k
    ensures exists e: nat :: k == Pow2(e)
  {
    DepthIsCeilLog2(n);
    assert Pow2(Depth(n)) == 2 * Pow2(Depth(n) - 1);
    Pow2(Depth(n) - 1)
  }

  /** The Merkle Tree Hash of section 2.1 of RFC 6962. */
  function Mth(h: Hash, xs: seq<Bytes>): Bytes
    decreases |xs|
  {
    if |xs| == 0 then h([])
    else if |xs| == 1 then h([0x00] + xs[0])
    else h([0x01] + Mth(h, xs[..Split(|xs|)]) + Mth(h, xs[Split(|xs|)..]))
  }

  function MthInputs(h: Hash, xs: seq<Bytes>): set<Bytes>
    decreases |xs|
  {
    if |xs| == 0 then {[]}
    else if |xs| == 1 then {LeafInput(xs[0])}
    else
      var l, r := xs[..Split(|xs|)], xs[Split(|xs|)..];
      {NodeInput(Mth(h, l), Mth(h, r))} + MthInputs(h, l) + MthInputs(h, r)
  }

  lemma MthOfParts(h: Hash, xs: seq<Bytes>, k: nat)
    requires |xs| > 1 && k == Split(|xs|)
    ensures Mth(h, xs) == h([0x01] + Mth(h, xs[..k]) + Mth(h, xs[k..]))
  {
  }

  lemma TreeOfParts(h: Hash, d: nat, xs: seq<Bytes>, k: nat)
    requires d > 0 && |xs| == Pow2(d) && k == Pow2(d - 1)
    ensures |xs[..k]| == |xs[k..]| == k
    ensures TreeOf(h, d, xs) == h([0x01] + TreeOf(h, d - 1, xs[..k]) + TreeOf(h, d - 1, xs[k..]))
  {
    NodeHash(h, TreeOf(h, d - 1, xs[..k]), TreeOf(h, d - 1, xs[k..]));
  }

  lemma {:induction false} MthOfPow2(h: Hash, d: nat, xs: seq<Bytes>)
    requires |xs| == Pow2(d)
    ensures Mth(h, xs) == TreeOf(h, d, xs)
  {
    if d > 0 {
      var k := Pow2(d - 1);
      DepthOfPow2(d);
      TreeOfParts(h, d, xs, k);
      MthOfParts(h, xs, k);
      MthOfPow2(h, d - 1, xs[..k]);
      MthOfPow2(h, d - 1, xs[k..]);
    } else {
      LeafHash(h, xs[0]);
    }
  }

  /** The root is the Merkle Tree Hash of RFC 6962, taken of the padded batch. */
  lemma RootIsMthOfPadded(h: Hash, batch: seq<Bytes>)
    ensures RootOf(h, batch) == Mth(h, Padded(batch))
  {
    if batch != [] {
      RootIsTree(h, batch);
      MthOfPow2(h, Depth(|batch|), Padded(batch));
    }
  }

  /** The input whose digest is the Merkle Tree Hash. */
  function MthTop(h: Hash, xs: seq<Bytes>): Bytes {
    if |xs| == 0 then []
    else if |xs| == 1 then LeafInput(xs[0])
    else NodeInput(Mth(h, xs[..Split(|xs|)]), Mth(h, xs[Split(|xs|)..]))
  }

  lemma MthTopIn(h: Hash, xs: seq<Bytes>)
    ensures MthTop(h, xs) in MthInputs(h, xs) && Mth(h, xs) == h(MthTop(h, xs))
    ensures |xs| > 1 ==>
              MthInputs(h, xs[..Split(|xs|)]) <= MthInputs(h, xs) && MthInputs(h, xs[Split(|xs|)..]) <= MthInputs(h, xs)
  {
  }

  lemma SameTop(h: Hash, xs: seq<Bytes>, ys: seq<Bytes>)
    requires Digests(h) && MthTop(h, xs) == MthTop(h, ys)
    ensures |xs| <= 1 ==> xs == ys
    ensures |xs| > 1 ==>
              && |ys| > 1
              && Mth(h, xs[..Split(|xs|)]) == Mth(h, ys[..Split(|ys|)])
              && Mth(h, xs[Split(|xs|)..]) == Mth(h, ys[Split(|ys|)..])
  {
    if |xs| == 1 && |ys| == 1 {
      LeafInputInjective(xs[0], ys[0]);
    } else if |xs| == 1 && |ys| > 1 {
      LeafIsNoNode(xs[0], Mth(h, ys[..Split(|ys|)]), Mth(h, ys[Split(|ys|)..]));
    } else if |xs| > 1 && |ys| == 1 {
      LeafIsNoNode(ys[0], Mth(h, xs[..Split(|xs|)]), Mth(h, xs[Split(|xs|)..]));
    } else if |xs| > 1 && |ys| > 1 {
      var a, b := Mth(h, xs[..Split(|xs|)]), Mth(h, xs[Split(|xs|)..]);
      var c, d := Mth(h, ys[..Split(|ys|)]), Mth(h, ys[Split(|ys|)..]);
      MthTopIn(h, xs[..Split(|xs|)]);
      MthTopIn(h, ys[..Split(|ys|)]);
      MthTopIn(h, ys[Split(|ys|)..]);
      NodeInputSplits(a, b, c, d);
    }
  }

  ghost predicate HaveOneHash(h: Hash, xs: seq<Bytes>, ys: seq<Bytes>) {
    NoCollision(h, MthInputs(h, xs) + MthInputs(h, ys)) && Mth(h, xs) == Mth(h, ys)
  }

  lemma OneTop(h: Hash, xs: seq<Bytes>, ys: seq<Bytes>)
    requires HaveOneHash(h, xs, ys)
    ensures MthTop(h, xs) == MthTop(h, ys)
  {
    MthTopIn(h, xs);
    MthTopIn(h, ys);
    var inputs := MthInputs(h, xs) + MthInputs(h, ys);
    assert MthTop(h, xs) in inputs && MthTop(h, ys) in inputs;
  }

  lemma NoCollisionShrinks(h: Hash, few: set<Bytes>, inputs: set<Bytes>)
    requires few <= inputs && NoCollision(h, inputs)
    ensures NoCollision(h, few)
  {
  }

  /** Parts of two lists without collisions have none either. */
  lemma PartsDoNotCollide(h: Hash, a: set<Bytes>, b: set<Bytes>, xs: seq<Bytes>, ys: seq<Bytes>)
    requires a <= MthInputs(h, xs) && b <= MthInputs(h, ys) && NoCollision(h, MthInputs(h, xs) + MthInputs(h, ys))
    ensures NoCollision(h, a + b)
  {
    NoCollisionShrinks(h, a + b, MthInputs(h, xs) + MthInputs(h, ys));
  }

  /** The two halves of two lists with the same hash pair up, each without collisions. */
  lemma HalvesPairUp(h: Hash, xs: seq<Bytes>, ys: seq<Bytes>, i: nat, j: nat)
    requires Digests(h) && HaveOneHash(h, xs, ys) && |xs| > 1 && |ys| > 1 && i == Split(|xs|) && j == Split(|ys|)
    ensures HaveOneHash(h, xs[..i], ys[..j]) && HaveOneHash(h, xs[i..], ys[j..])
  {
    OneTop(h, xs, ys);
    SameTop(h, xs, ys);
    MthTopIn(h, xs);
    MthTopIn(h, ys);
    PartsDoNotCollide(h, MthInputs(h, xs[..i]), MthInputs(h, ys[..j]), xs, ys);
    PartsDoNotCollide(h, MthInputs(h, xs[i..]), MthInputs(h, ys[j..]), xs, ys);
  }

  /** Without collisions the Merkle Tree Hash determines the list, its length included. */
  lemma {:induction false} MthInjective(h: Hash, xs: seq<Bytes>, ys: seq<Bytes>)
    requires Digests(h) && NoCollision(h, MthInputs(h, xs) + MthInputs(h, ys))
    requires Mth(h, xs) == Mth(h, ys)
    ensures xs == ys
    decreases |xs|
  {
    OneTop(h, xs, ys);
    SameTop(h, xs, ys);
    if |xs| > 1 {
      var i, j := Split(|xs|), Split(|ys|);
      HalvesPairUp(h, xs, ys, i, j);
      MthInjective(h, xs[..i], ys[..j]);
      MthInjective(h, xs[i..], ys[j..]);
      CutInTwo(xs, i);
      CutInTwo(ys, j);
    }
  }

  lemma CutInTwo<T>(xs: seq<T>, i: nat)
    requires i <= |xs|
    ensures xs == xs[..i] + xs[i..]
  {
  }

  /** Two batches share a root exactly when their padded lists are the same. */
  lemma SameRootIffSamePadded(h: Hash, a: seq<Bytes>, b: seq<Bytes>)
    requires Digests(h) && NoCollision(h, MthInputs(h, Padded(a)) + MthInputs(h, Padded(b)))
    ensures RootOf(h, a) == RootOf(h, b) <==> Padded(a) == Padded(b)
  {
    RootIsMthOfPadded(h, a);
    RootIsMthOfPadded(h, b);
    if RootOf(h, a) == RootOf(h, b) {
      MthInjective(h, Padded(a), Padded(b));
    }
  }

  lemma RootIsRfcRootIffUnpadded(h: Hash, batch: seq<Bytes>)
    requires Digests(h) && NoCollision(h, MthInputs(h, Padded(batch)) + MthInputs(h, batch))
    ensures RootOf(h, batch) == Mth(h, batch) <==> Padded(batch) == batch
  {
    RootIsMthOfPadded(h, batch);
    if RootOf(h, batch) == Mth(h, batch) {
      MthInjective(h, Padded(batch), batch);
    }
  }

  /** The root is the RFC 6962 root of the batch itself exactly for power-of-two sizes (or none). */
  lemma RootIsRfcRootIff(h: Hash, batch: seq<Bytes>)
    requires Digests(h) && NoCollision(h, MthInputs(h, Padded(batch)) + MthInputs(h, batch))
    ensures RootOf(h, batch) == Mth(h, batch) <==> batch == [] || exists d: nat :: |batch| == Pow2(d)
  {
    RootIsRfcRootIffUnpadded(h, batch);
    PaddedIsBatchIff(batch);
  }

  lemma PaddedIsBatchIff(batch: seq<Bytes>)
    ensures Padded(batch) == batch <==> batch == [] || exists d: nat :: |batch| == Pow2(d)
  {
    PaddedExtends(batch);
    if d: nat :| |batch| == Pow2(d) {
      DepthOfPow2(d);
    }
  }

  // ---- The one-level loop of the platform verifier

  /** `digest` is the hexadecimal SHA-256 text; nodes hash the concatenated texts, without prefixes. */
  function ConcatOf(digest: Hash): (Bytes, Bytes) -> Bytes {
    (left: Bytes, right: Bytes) => digest(left + right)
  }

  /** The level-by-level loop computes the top-down tree of the padded list; no leaves, no root. */
  method EpochRoot(digest: Hash, leaves: seq<Bytes>) returns (level: seq<Bytes>)
    ensures leaves == [] ==> level == []
    ensures leaves != [] ==> |Padded(leaves)| == Pow2(Depth(|leaves|))
    ensures leaves != [] ==> level == [Fold(digest, ConcatOf(digest), Depth(|leaves|), Padded(leaves))]
  {
    ghost var node := ConcatOf(digest);
    var combine := (left: Bytes, right: Bytes) => digest(left + right);
    level := seq(|leaves|, i requires 0 <= i < |leaves| => digest(leaves[i]));
    assert level == Leaves(digest, leaves);
    if leaves != [] {
      BottomUpIsTopDown(digest, node, leaves);
    }
    while |level| > 1
      invariant leaves == [] ==> level == []
      invariant leaves != [] ==> level != [] && Reduce(node, level) == Reduce(node, Leaves(digest, leaves))
      decreases |level|
    {
      level := PairUp(node, combine, level);
    }
  }
}
