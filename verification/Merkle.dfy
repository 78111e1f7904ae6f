/** The Merkle tree over ordered leaf digests, with the duplicate-last-leaf
    rule, and inclusion proofs against its root. */
module Merkle {
  import opened Bytes

  const LEAF_DOMAIN: Buf := Ascii("bullet-kernel.audit-merkle.leaf.v1")
  const NODE_DOMAIN: Buf := Ascii("bullet-kernel.audit-merkle.node.v1")

  function LeafInput(payload: Buf): Buf { FrameAll([LEAF_DOMAIN, payload]) }
  function NodeInput(left: Digest, right: Digest): Buf { Frame(NODE_DOMAIN) + left + right }
  function NodeHash(h: Hash, left: Digest, right: Digest): Digest { h(NodeInput(left, right)) }

  lemma NodeInputBinds(a: Digest, b: Digest, c: Digest, d: Digest)
    requires NodeInput(a, b) == NodeInput(c, d)
    ensures a == c && b == d
  {
    var n := |Frame(NODE_DOMAIN)|;
    assert NodeInput(a, b)[n..n + 32] == a && NodeInput(c, d)[n..n + 32] == c;
    assert NodeInput(a, b)[n + 32..] == b && NodeInput(c, d)[n + 32..] == d;
  }

  // ---- the tree -----------------------------------------------------------

  type Level = seq<Digest>

  /** The right partner of an even position; the last node pairs with itself. */
  function Partner(below: Level, i: nat): Digest
    requires i < |below|
  {
    if i + 1 < |below| then below[i + 1] else below[i]
  }

  function PairInput(below: Level, i: nat): Buf
    requires 2 * i < |below|
  {
    NodeInput(below[2 * i], Partner(below, 2 * i))
  }

  /** The first n parents of a level. */
  function Parents(h: Hash, below: Level, n: nat): (above: Level)
    requires n <= (|below| + 1) / 2
    ensures |above| == n
    ensures forall i | 0 <= i < n :: above[i] == h(PairInput(below, i))
  {
    if n == 0 then [] else Parents(h, below, n - 1) + [h(PairInput(below, n - 1))]
  }

  function Above(h: Hash, below: Level): Level { Parents(h, below, (|below| + 1) / 2) }

  function Root(h: Hash, leaves: Level): Digest
    requires leaves != []
    decreases |leaves|
  {
    if |leaves| == 1 then leaves[0] else Root(h, Above(h, leaves))
  }

  ghost predicate Link(h: Hash, below: Level, above: Level) {
    |below| > 1 && above == Above(h, below)
  }

  ghost predicate Stacked(h: Hash, levels: seq<Level>) {
    forall i | 0 < i < |levels| :: Link(h, levels[i - 1], levels[i])
  }

  ghost predicate IsTree(h: Hash, leaves: Level, levels: seq<Level>) {
    && levels != [] && levels[0] == leaves && Stacked(h, levels)
    && |levels[|levels| - 1]| == 1
  }

  lemma LinkAt(h: Hash, levels: seq<Level>, i: nat)
    requires Stacked(h, levels) && 0 < i < |levels|
    ensures Link(h, levels[i - 1], levels[i])
  {
  }

  lemma Extend(h: Hash, levels: seq<Level>, above: Level)
    requires levels != [] && Stacked(h, levels) && Link(h, levels[|levels| - 1], above)
    ensures Stacked(h, levels + [above])
  {
  }

  method NextLevel(h: Hash, below: Level) returns (above: Level)
    ensures above == Above(h, below)
  {
    above := [];
    var k := 0;
    while 2 * k < |below|
      invariant 2 * k <= |below| + 1
      invariant above == Parents(h, below, k)
    {
      var right := if 2 * k + 1 < |below| then below[2 * k + 1] else below[2 * k];
      above := above + [NodeHash(h, below[2 * k], right)];
      k := k + 1;
    }
  }

  method FromLeaves(h: Hash, leaves: Level) returns (levels: seq<Level>)
    requires leaves != []
    ensures IsTree(h, leaves, levels)
    ensures levels[|levels| - 1][0] == Root(h, leaves)
  {
    levels := [leaves];
    var below := leaves;
    while |below| > 1
      invariant levels != [] && levels[0] == leaves && below == levels[|levels| - 1] && below != []
      invariant Stacked(h, levels)
      invariant Root(h, below) == Root(h, leaves)
      decreases |below|
    {
      RootStep(h, below);
      below := NextLevel(h, below);
      Extend(h, levels, below);
      levels := levels + [below];
    }
  }

  ghost function LevelInputs(level: Level): set<Buf> {
    set i | 0 <= i < (|level| + 1) / 2 :: PairInput(level, i)
  }

  /** The hash inputs of every inner node. */
  ghost function NodeInputs(h: Hash, leaves: Level): set<Buf>
    decreases |leaves|
  {
    if |leaves| <= 1 then {} else LevelInputs(leaves) + NodeInputs(h, Above(h, leaves))
  }

  lemma PairBinds(a: Level, b: Level, i: nat)
    requires |a| == |b| && i < |a| && PairInput(a, i / 2) == PairInput(b, i / 2)
    ensures a[i] == b[i]
  {
    var k := i / 2;
    NodeInputBinds(a[2 * k], Partner(a, 2 * k), b[2 * k], Partner(b, 2 * k));
  }

  lemma LevelBinds(h: Hash, a: Level, b: Level)
    requires |a| == |b| && Above(h, a) == Above(h, b)
    requires CollisionFreeOn(h, LevelInputs(a) + LevelInputs(b))
    ensures a == b
  {
    forall i | 0 <= i < |a|
      ensures a[i] == b[i]
    {
      var k := i / 2;
      assert PairInput(a, k) in LevelInputs(a) && PairInput(b, k) in LevelInputs(b);
      assert Above(h, a)[k] == Above(h, b)[k];
      PairBinds(a, b, i);
    }
  }

  lemma FewerInputs(h: Hash, all: set<Buf>, some: set<Buf>)
    requires CollisionFreeOn(h, all) && some <= all
    ensures CollisionFreeOn(h, some)
  {
  }

  /** With the leaf count fixed, the root commits to the leaves. */
  lemma {:induction false} RootBinds(h: Hash, a: Level, b: Level)
    requires a != [] && |a| == |b| && Root(h, a) == Root(h, b)
    requires CollisionFreeOn(h, NodeInputs(h, a) + NodeInputs(h, b))
    ensures a == b
    decreases |a|
  {
    if |a| > 1 {
      var all := NodeInputs(h, a) + NodeInputs(h, b);
      FewerInputs(h, all, NodeInputs(h, Above(h, a)) + NodeInputs(h, Above(h, b)));
      RootBinds(h, Above(h, a), Above(h, b));
      FewerInputs(h, all, LevelInputs(a) + LevelInputs(b));
      LevelBinds(h, a, b);
    }
  }

  lemma RootStep(h: Hash, level: Level)
    requires |level| > 1
    ensures Root(h, level) == Root(h, Parents(h, level, (|level| + 1) / 2))
  {
  }

  // ---- inclusion proofs ---------------------------------------------------

  datatype InclusionProof = InclusionProof(leafIndex: nat, leafCount: nat, siblings: Level)
  datatype ProofError = Empty | IndexOutOfRange | ProofShape | RootMismatch

  function Sibling(level: Level, i: nat): Digest
    requires i < |level|
  {
    if i % 2 == 0 then Partner(level, i) else level[i - 1]
  }

  function Siblings(h: Hash, leaves: Level, i: nat): Level
    requires i < |leaves|
    decreases |leaves|
  {
    if |leaves| == 1 then [] else [Sibling(leaves, i)] + Siblings(h, Above(h, leaves), i / 2)
  }

  function Height(n: nat): nat { if n <= 1 then 0 else 1 + Height((n + 1) / 2) }

  function ClimbInput(current: Digest, i: nat, sibling: Digest): Buf {
    if i % 2 == 0 then NodeInput(current, sibling) else NodeInput(sibling, current)
  }

  function Climb(h: Hash, leaf: Digest, i: nat, siblings: Level): Digest
    decreases |siblings|
  {
    if siblings == [] then leaf else Climb(h, h(ClimbInput(leaf, i, siblings[0])), i / 2, siblings[1..])
  }

  ghost function ClimbInputs(h: Hash, leaf: Digest, i: nat, siblings: Level): set<Buf>
    decreases |siblings|
  {
    if siblings == [] then {}
    else
      var input := ClimbInput(leaf, i, siblings[0]);
      {input} + ClimbInputs(h, h(input), i / 2, siblings[1..])
  }

  /** The siblings found so far, then those still above this level. */
  ghost predicate SoFar(h: Hash, leaves: Level, index: nat, found: Level, level: Level, position: nat) {
    && index < |leaves| && position < |level|
    && Siblings(h, leaves, index) == found + Siblings(h, level, position)
  }

  lemma Found(h: Hash, leaves: Level, index: nat, found: Level, level: Level, above: Level, position: nat)
    requires SoFar(h, leaves, index, found, level, position) && Link(h, level, above)
    ensures SoFar(h, leaves, index, found + [Sibling(level, position)], above, position / 2)
  {
  }

  lemma AllFound(h: Hash, leaves: Level, index: nat, found: Level, level: Level, position: nat)
    requires SoFar(h, leaves, index, found, level, position) && |level| == 1
    ensures found == Siblings(h, leaves, index)
  {
  }

  method Prove(h: Hash, leaves: Level, levels: seq<Level>, index: nat) returns (out: Option<InclusionProof>)
    requires leaves != [] && IsTree(h, leaves, levels)
    ensures out == if index < |leaves| then Some(InclusionProof(index, |leaves|, Siblings(h, leaves, index))) else None
  {
    if index >= |levels[0]| { return None; }
    var siblings: Level := [];
    var position: nat := index;
    var k := 0;
    while k < |levels| - 1
      invariant k <= |levels| - 1
      invariant SoFar(h, leaves, index, siblings, levels[k], position)
    {
      LinkAt(h, levels, k + 1);
      Found(h, leaves, index, siblings, levels[k], levels[k + 1], position);
      siblings := siblings + [Sibling(levels[k], position)];
      position := position / 2;
      k := k + 1;
    }
    AllFound(h, leaves, index, siblings, levels[k], position);
    return Some(InclusionProof(index, |levels[0]|, siblings));
  }

  method VerifyInclusion(h: Hash, root: Digest, leaf: Digest, proof: InclusionProof) returns (out: Option<ProofError>)
    ensures out == None <==>
      && proof.leafIndex < proof.leafCount
      && |proof.siblings| == Height(proof.leafCount)
      && Climb(h, leaf, proof.leafIndex, proof.siblings) == root
    ensures out == Some(Empty) <==> proof.leafCount == 0
    ensures out == Some(IndexOutOfRange) <==> 0 < proof.leafCount <= proof.leafIndex
    ensures out == Some(ProofShape) <==> proof.leafIndex < proof.leafCount && |proof.siblings| != Height(proof.leafCount)
  {
    if proof.leafCount == 0 { return Some(Empty); }
    if proof.leafIndex >= proof.leafCount { return Some(IndexOutOfRange); }
    var expected := TreeHeight(proof.leafCount);
    if |proof.siblings| != expected { return Some(ProofShape); }
    var current: Digest, position: nat := leaf, proof.leafIndex;
    for k := 0 to |proof.siblings|
      invariant Climb(h, current, position, proof.siblings[k..]) == Climb(h, leaf, proof.leafIndex, proof.siblings)
    {
      assert proof.siblings[k..][1..] == proof.siblings[k + 1..];
      current := if position % 2 == 0 then NodeHash(h, current, proof.siblings[k])
                 else NodeHash(h, proof.siblings[k], current);
      position := position / 2;
    }
    return if current == root then None else Some(RootMismatch);
  }

  method TreeHeight(leafCount: nat) returns (levels: nat)
    ensures levels == Height(leafCount)
  {
    var width := leafCount;
    levels := 0;
    while width > 1
      invariant levels + Height(width) == Height(leafCount)
    {
      width := (width + 1) / 2;
      levels := levels + 1;
    }
  }

  lemma ClimbStep(leaves: Level, i: nat)
    requires i < |leaves|
    ensures ClimbInput(leaves[i], i, Sibling(leaves, i)) == PairInput(leaves, i / 2)
  {
  }

  lemma ClimbBinds(leaves: Level, i: nat, leaf: Digest, sibling: Digest)
    requires i < |leaves| && ClimbInput(leaf, i, sibling) == PairInput(leaves, i / 2)
    ensures leaf == leaves[i]
  {
    var k := i / 2;
    if i % 2 == 0 {
      NodeInputBinds(leaf, sibling, leaves[2 * k], Partner(leaves, 2 * k));
    } else {
      NodeInputBinds(sibling, leaf, leaves[2 * k], Partner(leaves, 2 * k));
    }
  }

  /** Every leaf's own proof verifies. */
  lemma {:induction false} ProofIsAccepted(h: Hash, leaves: Level, i: nat)
    requires i < |leaves|
    ensures |Siblings(h, leaves, i)| == Height(|leaves|)
    ensures Climb(h, leaves[i], i, Siblings(h, leaves, i)) == Root(h, leaves)
    decreases |leaves|
  {
    if |leaves| > 1 {
      var above := Above(h, leaves);
      ProofIsAccepted(h, above, i / 2);
      assert Siblings(h, leaves, i)[1..] == Siblings(h, above, i / 2);
      ClimbStep(leaves, i);
    }
  }

  /** An accepted proof against the root of these leaves proves the leaf that
      is there, whatever siblings it carries. */
  lemma {:induction false} ProofBinds(h: Hash, leaves: Level, leaf: Digest, i: nat, siblings: Level)
    requires i < |leaves| && |siblings| == Height(|leaves|)
    requires Climb(h, leaf, i, siblings) == Root(h, leaves)
    requires CollisionFreeOn(h, NodeInputs(h, leaves) + ClimbInputs(h, leaf, i, siblings))
    ensures leaf == leaves[i]
    decreases |leaves|
  {
    if |leaves| > 1 {
      var input := ClimbInput(leaf, i, siblings[0]);
      var all := NodeInputs(h, leaves) + ClimbInputs(h, leaf, i, siblings);
      FewerInputs(h, all, NodeInputs(h, Above(h, leaves)) + ClimbInputs(h, h(input), i / 2, siblings[1..]));
      ProofBinds(h, Above(h, leaves), h(input), i / 2, siblings[1..]);
      assert PairInput(leaves, i / 2) in LevelInputs(leaves);
      ClimbBinds(leaves, i, leaf, siblings[0]);
    }
  }
}
