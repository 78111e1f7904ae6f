/** Which leaf lists share a Merkle root. */
module MerkleRoots {
  import opened Bytes
  import opened Merkle

  /** Leaves of the perfect tree that the self-paired last nodes complete. */
  function Width(n: nat): (w: nat)
    ensures w >= 1 && w >= n && (w == 1 <==> n <= 1)
  {
    if n <= 1 then 1 else 2 * Width((n + 1) / 2)
  }

  /** Which of n leaves stands at position i of the perfect tree. */
  function At(n: nat, i: nat): (k: nat)
    requires n > 0
    ensures k < n
    ensures i < n ==> k == i
    decreases n
  {
    if n == 1 then 0
    else
      var k := At((n + 1) / 2, i / 2);
      if i % 2 == 0 || 2 * k + 1 >= n then 2 * k else 2 * k + 1
  }

  function FullTo(leaves: Level, n: nat): (full: Level)
    requires leaves != []
    ensures |full| == n && forall i | 0 <= i < n :: full[i] == leaves[At(|leaves|, i)]
  {
    if n == 0 then [] else FullTo(leaves, n - 1) + [leaves[At(|leaves|, n - 1)]]
  }

  /** The leaves widened to the perfect tree: at every odd level the last
      subtree is repeated. */
  function Full(leaves: Level): Level
    requires leaves != []
  {
    FullTo(leaves, Width(|leaves|))
  }

  function Pow2(n: nat): nat { if n == 0 then 1 else 2 * Pow2(n - 1) }

  lemma {:induction false} WidthOfHeight(n: nat)
    ensures Width(n) == Pow2(Height(n))
  {
    if n > 1 { WidthOfHeight((n + 1) / 2); }
  }

  lemma FullPair(leaves: Level, i: nat)
    requires |leaves| > 1 && 2 * i < Width(|leaves|)
    ensures PairInput(Full(leaves), i) == PairInput(leaves, At((|leaves| + 1) / 2, i))
  {
    var n, k := |leaves|, At((|leaves| + 1) / 2, i);
    assert (2 * i) / 2 == i && (2 * i + 1) / 2 == i;
    assert At(n, 2 * i) == 2 * k;
    assert At(n, 2 * i + 1) == if 2 * k + 1 >= n then 2 * k else 2 * k + 1;
  }

  /** Widening commutes with taking parents. */
  lemma AboveFull(h: Hash, leaves: Level)
    requires |leaves| > 1
    ensures Above(h, Full(leaves)) == Full(Above(h, leaves))
  {
    var x, y := Above(h, Full(leaves)), Full(Above(h, leaves));
    forall i | 0 <= i < |x|
      ensures x[i] == y[i]
    {
      FullPair(leaves, i);
    }
  }

  lemma {:induction false} RootOfFull(h: Hash, leaves: Level)
    requires leaves != []
    ensures Root(h, Full(leaves)) == Root(h, leaves)
    decreases |leaves|
  {
    if |leaves| > 1 {
      RootStep(h, leaves);
      RootStep(h, Full(leaves));
      AboveFull(h, leaves);
      RootOfFull(h, Above(h, leaves));
    }
  }

  lemma LevelOfFull(leaves: Level)
    requires |leaves| > 1
    ensures LevelInputs(Full(leaves)) <= LevelInputs(leaves)
  {
    forall x | x in LevelInputs(Full(leaves))
      ensures x in LevelInputs(leaves)
    {
      var i :| 0 <= i < (|Full(leaves)| + 1) / 2 && x == PairInput(Full(leaves), i);
      FullPair(leaves, i);
    }
  }

  lemma {:induction false} FullInputs(h: Hash, leaves: Level)
    requires leaves != []
    ensures NodeInputs(h, Full(leaves)) <= NodeInputs(h, leaves)
    decreases |leaves|
  {
    if |leaves| > 1 {
      LevelOfFull(leaves);
      AboveFull(h, leaves);
      FullInputs(h, Above(h, leaves));
    }
  }

  /** Lists of one height share a root exactly when they widen to the same
      perfect tree. */
  lemma SameRootIff(h: Hash, a: Level, b: Level)
    requires a != [] && b != [] && Height(|a|) == Height(|b|)
    requires CollisionFreeOn(h, NodeInputs(h, a) + NodeInputs(h, b))
    ensures Root(h, a) == Root(h, b) <==> Full(a) == Full(b)
  {
    RootOfFull(h, a);
    RootOfFull(h, b);
    if Root(h, a) == Root(h, b) {
      WidthOfHeight(|a|);
      WidthOfHeight(|b|);
      FullInputs(h, a);
      FullInputs(h, b);
      FewerInputs(h, NodeInputs(h, a) + NodeInputs(h, b), NodeInputs(h, Full(a)) + NodeInputs(h, Full(b)));
      RootBinds(h, Full(a), Full(b));
    }
  }

  /** A list is the front of its widening, so the leaf count decides. */
  lemma FullBinds(a: Level, b: Level)
    requires a != [] && |a| == |b| && Full(a) == Full(b)
    ensures a == b
  {
    forall i | 0 <= i < |a|
      ensures a[i] == b[i]
    {
      assert Full(a)[i] == a[i] && Full(b)[i] == b[i];
    }
  }

  lemma SameFull(leaves: Level)
    requires |leaves| > 1 && |leaves| % 2 == 1
    ensures Full(leaves + [leaves[|leaves| - 1]]) == Full(leaves)
  {
  }

  /** The smallest family: repeating the last of an odd number of leaves above
      one widens to the same tree. */
  lemma DuplicateLastLeaf(h: Hash, leaves: Level)
    requires |leaves| > 1 && |leaves| % 2 == 1
    ensures var more := leaves + [leaves[|leaves| - 1]];
            Full(more) == Full(leaves) && Root(h, more) == Root(h, leaves)
  {
    SameFull(leaves);
    RootOfFull(h, leaves);
    RootOfFull(h, leaves + [leaves[|leaves| - 1]]);
  }
}
