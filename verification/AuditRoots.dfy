/** Which lists of events share a batch root, of whatever lengths: leaves and
    inner nodes are hashed under different domains, so heights cannot be
    confused. */
module AuditRoots {
  import opened Bytes
  import opened Merkle
  import opened MerkleRoots
  import opened AuditBatch

  // ---- trees of different heights -----------------------------------------------

  /** The first node of the k-th level, and its partner there. */
  function First(h: Hash, leaves: Level, k: nat): Digest
    requires leaves != []
    decreases k
  {
    if k == 0 then leaves[0] else First(h, Above(h, leaves), k - 1)
  }

  function Second(h: Hash, leaves: Level, k: nat): Digest
    requires leaves != []
    decreases k
  {
    if k == 0 then Partner(leaves, 0) else Second(h, Above(h, leaves), k - 1)
  }

  function FirstInput(h: Hash, leaves: Level, k: nat): Buf
    requires leaves != []
  {
    NodeInput(First(h, leaves, k), Second(h, leaves, k))
  }

  lemma FirstPair(h: Hash, leaves: Level)
    requires |leaves| > 1
    ensures Above(h, leaves)[0] == h(PairInput(leaves, 0)) && PairInput(leaves, 0) in NodeInputs(h, leaves)
    ensures NodeInputs(h, Above(h, leaves)) <= NodeInputs(h, leaves)
  {
    assert PairInput(leaves, 0) in LevelInputs(leaves);
  }

  /** The tree over the parents: one lower, the same root, no other inputs. */
  lemma Raise(h: Hash, a: Level, k: nat) returns (x: Level)
    requires |a| > 1
    ensures x != [] && |x| < |a| && Height(|a|) == Height(|x|) + 1 && Root(h, x) == Root(h, a)
    ensures NodeInputs(h, x) <= NodeInputs(h, a) && First(h, a, k + 1) == First(h, x, k)
  {
    x := Above(h, a);
    FirstPair(h, a);
  }

  lemma {:induction false} TopIsRoot(h: Hash, leaves: Level)
    requires leaves != []
    ensures First(h, leaves, Height(|leaves|)) == Root(h, leaves)
    decreases |leaves|
  {
    if |leaves| > 1 {
      var x := Raise(h, leaves, Height(|leaves|) - 1);
      TopIsRoot(h, x);
    }
  }

  /** The first node of a level hashes the first pair below it. */
  lemma {:induction false} FirstNode(h: Hash, leaves: Level, k: nat)
    requires leaves != [] && k < Height(|leaves|)
    ensures First(h, leaves, k + 1) == h(FirstInput(h, leaves, k)) && FirstInput(h, leaves, k) in NodeInputs(h, leaves)
    decreases k
  {
    FirstPair(h, leaves);
    if k > 0 { FirstNode(h, Above(h, leaves), k - 1); }
  }

  lemma SamePair(h: Hash, inputs: set<Buf>, l: Digest, r: Digest, l': Digest, r': Digest)
    requires CollisionFreeOn(h, inputs) && NodeInput(l, r) in inputs && NodeInput(l', r') in inputs
    requires h(NodeInput(l, r)) == h(NodeInput(l', r'))
    ensures l == l'
  {
    NodeInputBinds(l, r, l', r');
  }

  /** Equal first nodes lie over equal first nodes. */
  lemma DescendOne(h: Hash, a: Level, b: Level, k: nat, m: nat)
    requires a != [] && b != [] && k < Height(|a|) && m < Height(|b|) && First(h, a, k + 1) == First(h, b, m + 1)
    requires CollisionFreeOn(h, NodeInputs(h, a) + NodeInputs(h, b))
    ensures First(h, a, k) == First(h, b, m)
  {
    FirstNode(h, a, k);
    FirstNode(h, b, m);
    SamePair(h, NodeInputs(h, a) + NodeInputs(h, b),
             First(h, a, k), Second(h, a, k), First(h, b, m), Second(h, b, m));
  }

  /** Under equal roots the lower tree's first leaf is a node of the higher. */
  lemma {:induction false} Descend(h: Hash, a: Level, b: Level, d: nat)
    requires a != [] && b != [] && Height(|b|) == Height(|a|) + d && Root(h, a) == Root(h, b)
    requires CollisionFreeOn(h, NodeInputs(h, a) + NodeInputs(h, b))
    ensures First(h, a, 0) == First(h, b, d)
    decreases |a|
  {
    if |a| == 1 {
      TopIsRoot(h, b);
    } else {
      var x := Raise(h, a, 0);
      var y := Raise(h, b, d);
      FewerInputs(h, NodeInputs(h, a) + NodeInputs(h, b), NodeInputs(h, x) + NodeInputs(h, y));
      Descend(h, x, y, d);
      DescendOne(h, a, b, 0, d);
    }
  }

  ghost predicate IsInner(h: Hash, leaves: Level, x: Digest) {
    exists l, r :: NodeInput(l, r) in NodeInputs(h, leaves) && x == h(NodeInput(l, r))
  }

  lemma InnerStays(h: Hash, x: Level, leaves: Level, d: Digest)
    requires IsInner(h, x, d) && NodeInputs(h, x) <= NodeInputs(h, leaves)
    ensures IsInner(h, leaves, d)
  {
  }

  lemma ParentIsInner(h: Hash, leaves: Level)
    requires |leaves| > 1
    ensures IsInner(h, leaves, First(h, leaves, 1))
  {
    FirstPair(h, leaves);
    assert NodeInput(leaves[0], Partner(leaves, 0)) in NodeInputs(h, leaves);
  }

  lemma {:induction false} FirstIsInner(h: Hash, leaves: Level, k: nat)
    requires leaves != [] && 0 < k <= Height(|leaves|)
    ensures IsInner(h, leaves, First(h, leaves, k))
    decreases k
  {
    if k == 1 {
      ParentIsInner(h, leaves);
    } else {
      var x := Raise(h, leaves, k - 1);
      FirstIsInner(h, x, k - 1);
      InnerStays(h, x, leaves, First(h, leaves, k));
    }
  }

  /** Trees of different heights share a root only if the lower one's first
      leaf is an inner node of the higher. */
  lemma HeightsMeet(h: Hash, a: Level, b: Level)
    requires a != [] && b != [] && Height(|a|) < Height(|b|) && Root(h, a) == Root(h, b)
    requires CollisionFreeOn(h, NodeInputs(h, a) + NodeInputs(h, b))
    ensures IsInner(h, b, a[0])
  {
    var d := Height(|b|) - Height(|a|);
    Descend(h, a, b, d);
    FirstIsInner(h, b, d);
  }

  /** For bare digests that does happen: a node's own digest as the only leaf. */
  lemma BareHeightsMeet(h: Hash, x: Digest, y: Digest)
    ensures Root(h, [NodeHash(h, x, y)]) == Root(h, [x, y]) && Height(1) != Height(2)
  {
    var two: Level := [x, y];
    RootStep(h, two);
    assert PairInput(two, 0) == NodeInput(x, y);
  }

  // ---- event leaves ---------------------------------------------------------------

  lemma DomainsDiffer(e: Event, x: Digest, y: Digest)
    ensures EventInput(e) != NodeInput(x, y)
  {
    assert LEAF_DOMAIN[27] == 108 && NODE_DOMAIN[27] == 110;
    var rest := FrameAll([EventBytes(e)]);
    assert [LEAF_DOMAIN, EventBytes(e)][1..] == [EventBytes(e)];
    assert EventInput(e) == Frame(LEAF_DOMAIN) + rest;
    assert NodeInput(x, y) == Frame(NODE_DOMAIN) + (x + y);
    if EventInput(e) == NodeInput(x, y) { FrameCancel(LEAF_DOMAIN, rest, NODE_DOMAIN, x + y); }
  }

  lemma LowerRootDiffers(h: Hash, x: seq<Event>, y: seq<Event>)
    requires x != [] && y != [] && Height(|x|) < Height(|y|)
    requires CollisionFreeOn(h, BatchInputs(h, x) + BatchInputs(h, y))
    ensures Root(h, EventLeaves(h, x)) != Root(h, EventLeaves(h, y))
  {
    var a, b := EventLeaves(h, x), EventLeaves(h, y);
    if Root(h, a) == Root(h, b) {
      FewerInputs(h, BatchInputs(h, x) + BatchInputs(h, y), NodeInputs(h, a) + NodeInputs(h, b));
      HeightsMeet(h, a, b);
      var l, r :| NodeInput(l, r) in NodeInputs(h, b) && a[0] == h(NodeInput(l, r));
      assert EventInput(x[0]) in EventInputs(x);
      DomainsDiffer(x[0], l, r);
    }
  }

  /** The events that stand at each place of the perfect tree. */
  ghost predicate SameWidening(x: seq<Event>, y: seq<Event>) {
    && x != [] && y != [] && Width(|x|) == Width(|y|)
    && forall i | 0 <= i < Width(|x|) :: x[At(|x|, i)] == y[At(|y|, i)]
  }

  lemma PlaceBinds(h: Hash, x: seq<Event>, y: seq<Event>, j: nat, k: nat)
    requires j < |x| && k < |y| && AllFit(x) && AllFit(y)
    requires CollisionFreeOn(h, EventInputs(x) + EventInputs(y)) && EventLeaf(h, x[j]) == EventLeaf(h, y[k])
    ensures x[j] == y[k]
  {
    assert EventInput(x[j]) in EventInputs(x) && EventInput(y[k]) in EventInputs(y);
    EventInputBinds(x[j], y[k]);
  }

  lemma PlaceOf(h: Hash, x: seq<Event>, i: nat)
    requires x != [] && i < Width(|x|)
    ensures Full(EventLeaves(h, x))[i] == EventLeaf(h, x[At(|x|, i)])
  {
  }

  lemma LeavesOfWidening(h: Hash, x: seq<Event>, y: seq<Event>)
    requires SameWidening(x, y)
    ensures Full(EventLeaves(h, x)) == Full(EventLeaves(h, y))
  {
    var a, b := Full(EventLeaves(h, x)), Full(EventLeaves(h, y));
    forall i | 0 <= i < Width(|x|)
      ensures a[i] == b[i]
    {
      PlaceOf(h, x, i);
      PlaceOf(h, y, i);
    }
  }

  lemma WideningOfLeaves(h: Hash, x: seq<Event>, y: seq<Event>)
    requires x != [] && y != [] && AllFit(x) && AllFit(y) && CollisionFreeOn(h, EventInputs(x) + EventInputs(y))
    requires Full(EventLeaves(h, x)) == Full(EventLeaves(h, y))
    ensures SameWidening(x, y)
  {
    assert |Full(EventLeaves(h, x))| == Width(|x|) && |Full(EventLeaves(h, y))| == Width(|y|);
    forall i | 0 <= i < Width(|x|)
      ensures x[At(|x|, i)] == y[At(|y|, i)]
    {
      PlaceOf(h, x, i);
      PlaceOf(h, y, i);
      PlaceBinds(h, x, y, At(|x|, i), At(|y|, i));
    }
  }

  /** Two lists of events of any lengths share a batch root if and only if they
      widen to the same perfect tree. */
  lemma SameEventRootIff(h: Hash, x: seq<Event>, y: seq<Event>)
    requires x != [] && y != [] && AllFit(x) && AllFit(y)
    requires CollisionFreeOn(h, BatchInputs(h, x) + BatchInputs(h, y))
    ensures RootOf(h, x) == RootOf(h, y) <==> SameWidening(x, y)
  {
    if RootOf(h, x) == RootOf(h, y) { SameRootWidens(h, x, y); }
    if SameWidening(x, y) {
      LeavesOfWidening(h, x, y);
      RootOfFull(h, EventLeaves(h, x));
      RootOfFull(h, EventLeaves(h, y));
    }
  }

  lemma SameRootWidens(h: Hash, x: seq<Event>, y: seq<Event>)
    requires x != [] && y != [] && AllFit(x) && AllFit(y) && RootOf(h, x) == RootOf(h, y)
    requires CollisionFreeOn(h, BatchInputs(h, x) + BatchInputs(h, y))
    ensures SameWidening(x, y)
  {
    var a, b, all := EventLeaves(h, x), EventLeaves(h, y), BatchInputs(h, x) + BatchInputs(h, y);
    ToHexInjective(Root(h, a), Root(h, b));
    if Height(|x|) < Height(|y|) { LowerRootDiffers(h, x, y); }
    if Height(|y|) < Height(|x|) {
      FewerInputs(h, all, BatchInputs(h, y) + BatchInputs(h, x));
      LowerRootDiffers(h, y, x);
    }
    FewerInputs(h, all, NodeInputs(h, a) + NodeInputs(h, b));
    SameRootIff(h, a, b);
    FewerInputs(h, all, EventInputs(x) + EventInputs(y));
    WideningOfLeaves(h, x, y);
  }
}
