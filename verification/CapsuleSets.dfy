/** What the capsule set validator accepts, against the plain derivation. */
module CapsuleSets {
  import opened Bytes
  import opened ContextCapsules

  // ---- bags -------------------------------------------------------------------

  ghost predicate NoRepeat<T>(s: seq<T>) { forall i, j | 0 <= i < j < |s| :: s[i] != s[j] }

  lemma {:induction false} CountAtMostOne<T>(s: seq<T>, x: T)
    requires NoRepeat(s)
    ensures multiset(s)[x] <= 1
    decreases |s|
  {
    if s != [] {
      var front, last := s[..|s| - 1], s[|s| - 1];
      assert s == front + [last];
      CountAtMostOne(front, x);
      if x == last { assert last !in front; }
    }
  }

  lemma CountAtLeastTwo<T>(s: seq<T>, i: nat, j: nat)
    requires i < j < |s| && s[i] == s[j]
    ensures multiset(s)[s[i]] >= 2
  {
    assert s == s[..j] + s[j..];
    assert s[..j][i] == s[i] && s[j..][0] == s[j];
    assert s[i] in multiset(s[..j]) && s[i] in multiset(s[j..]);
  }

  lemma SameBag<T>(a: seq<T>, b: seq<T>)
    requires NoRepeat(a) && |a| == |b| && forall i | 0 <= i < |a| :: a[i] in b
    ensures multiset(a) == multiset(b)
  {
    forall x | x in multiset(a)
      ensures multiset(a)[x] <= multiset(b)[x]
    {
      CountAtMostOne(a, x);
      assert x in multiset(b);
    }
    assert multiset(a) <= multiset(b);
    assert |multiset(b) - multiset(a)| == |b| - |a|;
    assert multiset(b) == (multiset(b) - multiset(a)) + multiset(a);
  }

  // ---- up to record times -------------------------------------------------------

  function Timeless(k: Capsule): Capsule { k.(recordedAt := []) }

  function Stripped(capsules: seq<Capsule>): seq<Capsule> {
    seq(|capsules|, i requires 0 <= i < |capsules| => Timeless(capsules[i]))
  }

  /** The derivation: one capsule a package. */
  function Derived(c: Codec, g: Graph): seq<Capsule> {
    seq(|g.packages|, i requires 0 <= i < |g.packages| => Sealed(c, ContentOf(g, g.packages[i]), []))
  }

  ghost predicate GoodTimes(c: Codec, capsules: seq<Capsule>) {
    forall i | 0 <= i < |capsules| :: c.goodTime(capsules[i].recordedAt)
  }

  ghost predicate Reordering(c: Codec, g: Graph, capsules: seq<Capsule>) {
    GoodTimes(c, capsules) && multiset(Stripped(capsules)) == multiset(Derived(c, g))
  }

  lemma DerivedOnce(c: Codec, g: Graph)
    requires DistinctIds(g)
    ensures NoRepeat(Derived(c, g))
  {
  }

  /** A capsule answers an owned package exactly when, its time apart, it is
      the derived one. */
  lemma MatchIsDerived(c: Codec, g: Graph, p: Package, k: Capsule)
    requires Owns(g, p)
    ensures Matches(c, g, p, k) <==> c.goodTime(k.recordedAt) && Timeless(k) == Sealed(c, ContentOf(g, p), [])
  {
  }

  lemma AcceptedIsReordering(c: Codec, g: Graph, capsules: seq<Capsule>)
    requires Owned(g) && DistinctIds(g) && Accepts(c, g, capsules)
    ensures Reordering(c, g, capsules)
  {
    DerivedOnce(c, g);
    var d, s := Derived(c, g), Stripped(capsules);
    forall i | 0 <= i < |d|
      ensures d[i] in s
    {
      var p := g.packages[i];
      assert Answered(c, g, capsules, p);
      var k :| 0 <= k < |capsules| && Matches(c, g, p, capsules[k]);
      MatchIsDerived(c, g, p, capsules[k]);
      assert s[k] == d[i];
    }
    SameBag(d, s);
    forall i | 0 <= i < |capsules|
      ensures c.goodTime(capsules[i].recordedAt)
    {
      assert Valid(c, capsules[i]);
    }
  }

  lemma StrippedIsDerived(c: Codec, g: Graph, capsules: seq<Capsule>, k: nat) returns (i: nat)
    requires Reordering(c, g, capsules) && k < |capsules|
    ensures i < |g.packages| && Timeless(capsules[k]) == Sealed(c, ContentOf(g, g.packages[i]), [])
  {
    var d, s := Derived(c, g), Stripped(capsules);
    assert s[k] in multiset(s);
    assert s[k] in multiset(d);
    i :| 0 <= i < |d| && d[i] == s[k];
  }

  lemma ReorderingIsSound(c: Codec, g: Graph, capsules: seq<Capsule>, k: nat)
    requires DistinctIds(g) && Reordering(c, g, capsules) && k < |capsules|
    ensures Valid(c, capsules[k]) && !Repeated(capsules, k)
  {
    var i := StrippedIsDerived(c, g, capsules, k);
    assert capsules[k].content == ContentOf(g, g.packages[i]);
    if Repeated(capsules, k) {
      var j :| 0 <= j < k && capsules[j].content.package == capsules[k].content.package;
      var i' := StrippedIsDerived(c, g, capsules, j);
      assert i == i';
      var d, s := Derived(c, g), Stripped(capsules);
      assert s[j] == s[k] == d[i];
      CountAtLeastTwo(s, j, k);
      DerivedOnce(c, g);
      CountAtMostOne(d, d[i]);
    }
  }

  lemma ReorderingIsAccepted(c: Codec, g: Graph, capsules: seq<Capsule>)
    requires Owned(g) && DistinctIds(g) && Reordering(c, g, capsules)
    ensures Accepts(c, g, capsules)
  {
    var d, s := Derived(c, g), Stripped(capsules);
    assert |multiset(s)| == |s| && |multiset(d)| == |d|;
    forall k | 0 <= k < |capsules|
      ensures Valid(c, capsules[k]) && !Repeated(capsules, k)
    {
      ReorderingIsSound(c, g, capsules, k);
    }
    forall i | 0 <= i < |g.packages|
      ensures Answered(c, g, capsules, g.packages[i])
    {
      assert d[i] in multiset(s);
      var k :| 0 <= k < |s| && s[k] == d[i];
      MatchIsDerived(c, g, g.packages[i], capsules[k]);
    }
  }

  /** On a graph that owns its packages under distinct ids, the validator
      accepts exactly the reorderings of the derived set with valid times. */
  lemma AcceptsExactly(c: Codec, g: Graph, capsules: seq<Capsule>)
    requires Owned(g) && DistinctIds(g)
    ensures Accepts(c, g, capsules) <==> Reordering(c, g, capsules)
  {
    if Accepts(c, g, capsules) { AcceptedIsReordering(c, g, capsules); }
    if Reordering(c, g, capsules) { ReorderingIsAccepted(c, g, capsules); }
  }

  /** The derivation's own output is accepted, whatever its record time. */
  lemma OutputAccepted(c: Codec, g: Graph, at: Buf, capsules: seq<Capsule>)
    requires Owned(g) && DistinctIds(g) && (g.packages == [] || c.goodTime(at))
    requires ForEachPackage(c, g, at, |g.packages|, capsules)
    ensures Stripped(capsules) == Derived(c, g) && Accepts(c, g, capsules)
  {
  }

  // ---- repeated package ids -----------------------------------------------------

  ghost function PackageIds(packages: seq<Package>): set<Buf> { set i | 0 <= i < |packages| :: packages[i].id }
  ghost function CapsuleIds(capsules: seq<Capsule>): set<Buf> {
    set i | 0 <= i < |capsules| :: capsules[i].content.package
  }

  lemma {:induction false} FewIds(packages: seq<Package>)
    ensures |PackageIds(packages)| <= |packages|
    decreases |packages|
  {
    if packages != [] {
      var n := |packages| - 1;
      FewIds(packages[..n]);
      assert PackageIds(packages) == PackageIds(packages[..n]) + {packages[n].id};
    }
  }

  lemma {:induction false} FewerIds(packages: seq<Package>, i: nat, j: nat)
    requires i < j < |packages| && packages[i].id == packages[j].id
    ensures |PackageIds(packages)| < |packages|
  {
    var rest := packages[..j] + packages[j + 1..];
    FewIds(rest);
    assert PackageIds(packages) == PackageIds(rest) by {
      forall k | 0 <= k < |packages|
        ensures packages[k].id in PackageIds(rest)
      {
        if k == j { assert rest[i] == packages[i]; } else if k < j { assert rest[k] == packages[k]; }
        else { assert rest[k - 1] == packages[k]; }
      }
      forall k | 0 <= k < |rest|
        ensures rest[k].id in PackageIds(packages)
      {
        assert rest[k] == packages[if k < j then k else k + 1];
      }
    }
  }

  lemma {:induction false} AllDifferent(capsules: seq<Capsule>)
    requires forall k | 0 <= k < |capsules| :: !Repeated(capsules, k)
    ensures |CapsuleIds(capsules)| == |capsules|
    decreases |capsules|
  {
    if capsules != [] {
      var n := |capsules| - 1;
      var front := capsules[..n];
      forall k | 0 <= k < n
        ensures !Repeated(front, k)
      {
        assert !Repeated(capsules, k);
      }
      AllDifferent(front);
      assert !Repeated(capsules, n);
      assert CapsuleIds(capsules) == CapsuleIds(front) + {capsules[n].content.package};
      assert capsules[n].content.package !in CapsuleIds(front);
    }
  }

  ghost predicate Foreign(g: Graph, k: Capsule) { k.content.package !in PackageIds(g.packages) }

  /** Distinct ids are needed: on a graph that repeats one, every accepted set
      holds a capsule for a package that is not in the graph. */
  lemma RepeatedIdsAdmitForeign(c: Codec, g: Graph, capsules: seq<Capsule>)
    requires !DistinctIds(g) && Accepts(c, g, capsules)
    ensures exists k | 0 <= k < |capsules| :: Foreign(g, capsules[k])
  {
    var i, j :| 0 <= i < j < |g.packages| && g.packages[i].id == g.packages[j].id;
    FewerIds(g.packages, i, j);
    if forall k | 0 <= k < |capsules| :: !Foreign(g, capsules[k]) {
      NoneForeign(g, capsules);
    }
  }

  lemma NoneForeign(g: Graph, capsules: seq<Capsule>)
    requires forall k | 0 <= k < |capsules| :: !Repeated(capsules, k)
    requires forall k | 0 <= k < |capsules| :: !Foreign(g, capsules[k])
    ensures |capsules| <= |PackageIds(g.packages)|
  {
    AllDifferent(capsules);
    forall id | id in CapsuleIds(capsules)
      ensures id in PackageIds(g.packages)
    {
      var k :| 0 <= k < |capsules| && capsules[k].content.package == id;
      assert !Foreign(g, capsules[k]);
    }
    SubsetSize(CapsuleIds(capsules), PackageIds(g.packages));
  }

  /** Packages that share an id would get the same capsule. */
  ghost predicate EqualRepeats(g: Graph) {
    forall i, j | 0 <= i < j < |g.packages| && g.packages[i].id == g.packages[j].id ::
      ContentOf(g, g.packages[i]) == ContentOf(g, g.packages[j])
  }

  /** Whatever the ids, an accepted set needs an owned graph whose repeats are
      equal. */
  lemma AcceptedNeedsEqualRepeats(c: Codec, g: Graph, capsules: seq<Capsule>)
    requires Accepts(c, g, capsules)
    ensures Owned(g) && EqualRepeats(g)
  {
  }

  /** The first package of every id. */
  function Firsts(packages: seq<Package>): (firsts: seq<Package>)
    ensures forall i | 0 <= i < |firsts| :: firsts[i] in packages
    ensures forall i | 0 <= i < |packages| :: Lists(firsts, packages[i].id)
    ensures forall i, j | 0 <= i < j < |firsts| :: firsts[i].id != firsts[j].id
  {
    if packages == [] then []
    else
      var front, last := packages[..|packages| - 1], packages[|packages| - 1];
      var firsts := Firsts(front);
      assert packages == front + [last];
      if Lists(firsts, last.id) then firsts
      else
        assert (firsts + [last])[|firsts|].id == last.id;
        assert forall k | 0 <= k < |firsts| :: (firsts + [last])[k] == firsts[k];
        assert forall i | 0 <= i < |front| :: Lists(firsts, front[i].id);
        firsts + [last]
  }

  /** One capsule for every id of the graph. */
  function Own(c: Codec, g: Graph, at: Buf): (own: seq<Capsule>)
    ensures |own| == |Firsts(g.packages)|
    ensures forall i | 0 <= i < |own| :: own[i] == Sealed(c, ContentOf(g, Firsts(g.packages)[i]), at)
  {
    var firsts := Firsts(g.packages);
    seq(|firsts|, i requires 0 <= i < |firsts| => Sealed(c, ContentOf(g, firsts[i]), at))
  }

  ghost predicate Strangers(c: Codec, g: Graph, strangers: seq<Capsule>) {
    forall k | 0 <= k < |strangers| ::
      Valid(c, strangers[k]) && Foreign(g, strangers[k]) && !Repeated(strangers, k)
  }

  lemma FirstFor(g: Graph, i: nat) returns (k: nat)
    requires EqualRepeats(g) && i < |g.packages|
    ensures k < |Firsts(g.packages)| && ContentOf(g, Firsts(g.packages)[k]) == ContentOf(g, g.packages[i])
  {
    var firsts := Firsts(g.packages);
    assert Lists(firsts, g.packages[i].id);
    k :| 0 <= k < |firsts| && firsts[k].id == g.packages[i].id;
    assert firsts[k] in g.packages;
    var j :| 0 <= j < |g.packages| && g.packages[j] == firsts[k];
  }

  lemma OwnAnswers(c: Codec, g: Graph, at: Buf, strangers: seq<Capsule>, i: nat)
    requires Owned(g) && EqualRepeats(g) && c.goodTime(at) && i < |g.packages|
    ensures Answered(c, g, Own(c, g, at) + strangers, g.packages[i])
  {
    var p, all := g.packages[i], Own(c, g, at) + strangers;
    var k := FirstFor(g, i);
    assert all[k] == Own(c, g, at)[k] == Sealed(c, ContentOf(g, p), at);
    MatchIsDerived(c, g, p, all[k]);
  }

  lemma OwnAndStrangersSound(c: Codec, g: Graph, at: Buf, strangers: seq<Capsule>, k: nat)
    requires c.goodTime(at) && Strangers(c, g, strangers) && k < |Own(c, g, at) + strangers|
    ensures Valid(c, (Own(c, g, at) + strangers)[k]) && !Repeated(Own(c, g, at) + strangers, k)
  {
  }

  /** And then it is enough: one capsule an id, filled up to the package count
      with valid strangers of different packages, is accepted. */
  lemma StrangersAccepted(c: Codec, g: Graph, at: Buf, strangers: seq<Capsule>)
    requires Owned(g) && EqualRepeats(g) && c.goodTime(at)
    requires Strangers(c, g, strangers) && |Firsts(g.packages)| + |strangers| == |g.packages|
    ensures Accepts(c, g, Own(c, g, at) + strangers)
  {
    forall k | 0 <= k < |Own(c, g, at) + strangers|
      ensures Valid(c, (Own(c, g, at) + strangers)[k]) && !Repeated(Own(c, g, at) + strangers, k)
    {
      OwnAndStrangersSound(c, g, at, strangers, k);
    }
    forall i | 0 <= i < |g.packages|
      ensures Answered(c, g, Own(c, g, at) + strangers, g.packages[i])
    {
      OwnAnswers(c, g, at, strangers, i);
    }
  }

  // There are always strangers enough: package ids longer than the graph's.

  function Longest(packages: seq<Package>): (n: nat)
    ensures forall i | 0 <= i < |packages| :: |packages[i].id| <= n
  {
    if packages == [] then 0
    else
      var n := Longest(packages[..|packages| - 1]);
      assert forall i | 0 <= i < |packages| - 1 :: packages[i] == packages[..|packages| - 1][i];
      if |packages[|packages| - 1].id| > n then |packages[|packages| - 1].id| else n
  }

  function Zeros(n: nat): (b: Buf)
    ensures |b| == n
  {
    if n == 0 then [] else Zeros(n - 1) + [0]
  }

  function MadeUp(c: Codec, g: Graph, at: Buf, n: nat): (strangers: seq<Capsule>)
    ensures |strangers| == n
    ensures forall k | 0 <= k < n ::
      strangers[k] == Sealed(c, Content([], Zeros(Longest(g.packages) + 1 + k), [], 0, [], []), at)
  {
    if n == 0 then []
    else MadeUp(c, g, at, n - 1) + [Sealed(c, Content([], Zeros(Longest(g.packages) + n), [], 0, [], []), at)]
  }

  lemma MadeUpAreStrangers(c: Codec, g: Graph, at: Buf, n: nat)
    requires c.goodTime(at)
    ensures Strangers(c, g, MadeUp(c, g, at, n))
  {
  }

  lemma {:induction false} FirstsAreFewer(packages: seq<Package>)
    ensures |Firsts(packages)| <= |packages|
    decreases |packages|
  {
    if packages != [] { FirstsAreFewer(packages[..|packages| - 1]); }
  }

  ghost predicate Acceptable(c: Codec, g: Graph) { exists capsules :: Accepts(c, g, capsules) }

  /** A graph has an accepted capsule set if and only if it owns its packages
      and repeats an id only with equal content. */
  lemma AcceptableIff(c: Codec, g: Graph, at: Buf)
    requires c.goodTime(at)
    ensures Acceptable(c, g) <==> Owned(g) && EqualRepeats(g)
  {
    if Acceptable(c, g) {
      var capsules :| Accepts(c, g, capsules);
      AcceptedNeedsEqualRepeats(c, g, capsules);
    }
    if Owned(g) && EqualRepeats(g) {
      FirstsAreFewer(g.packages);
      var n := |g.packages| - |Firsts(g.packages)|;
      MadeUpAreStrangers(c, g, at, n);
      StrangersAccepted(c, g, at, MadeUp(c, g, at, n));
    }
  }

  // ---- materialized graphs --------------------------------------------------------

  datatype PlanInput = PlanInput(objective: Buf, packages: seq<(Buf, nat)>)

  function FromSeed(h: Hash, prefix: Buf, seed: Buf): Buf { prefix + [95] + ToHex(h(prefix + [58] + seed)) }

  const MISSION: Buf := Ascii("mis")
  const PLAN: Buf := Ascii("pln")
  const WORK_PACKAGE: Buf := Ascii("wpk")

  function PackageSeed(seed: Buf, index: nat): Buf { seed + [58, 119, 112, 58] + Decimal(index) }
  function IdInput(seed: Buf, index: nat): Buf { WORK_PACKAGE + [58] + PackageSeed(seed, index) }

  ghost function IdInputs(seed: Buf, n: nat): set<Buf> { set i | 0 <= i < n :: IdInput(seed, i) }

  function SeededPackage(h: Hash, seed: Buf, mission: Buf, plan: Buf, entry: (Buf, nat), index: nat): Package {
    Package(FromSeed(h, WORK_PACKAGE, PackageSeed(seed, index)), mission, plan, entry.1, entry.0)
  }

  ghost predicate Materialized(h: Hash, seed: Buf, input: PlanInput, g: Graph) {
    && g.mission == FromSeed(h, MISSION, seed) && g.plan == FromSeed(h, PLAN, seed) && g.objective == input.objective
    && |g.packages| == |input.packages|
    && forall i | 0 <= i < |g.packages| :: PackageAt(h, seed, g, input, i)
  }

  ghost predicate PackageAt(h: Hash, seed: Buf, g: Graph, input: PlanInput, i: nat)
    requires i < |g.packages| && i < |input.packages|
  {
    g.packages[i] == SeededPackage(h, seed, g.mission, g.plan, input.packages[i], i)
  }

  method BuildGraph(h: Hash, seed: Buf, input: PlanInput) returns (g: Graph)
    ensures Materialized(h, seed, input, g)
  {
    var mission, plan := FromSeed(h, MISSION, seed), FromSeed(h, PLAN, seed);
    var packages := [];
    for i := 0 to |input.packages|
      invariant |packages| == i
      invariant forall j | 0 <= j < i :: packages[j] == SeededPackage(h, seed, mission, plan, input.packages[j], j)
    {
      packages := packages + [SeededPackage(h, seed, mission, plan, input.packages[i], i)];
    }
    g := Graph(mission, input.objective, plan, packages);
  }

  lemma IdInputBinds(seed: Buf, i: nat, j: nat)
    requires IdInput(seed, i) == IdInput(seed, j)
    ensures i == j
  {
    var n := |WORK_PACKAGE| + 1 + |seed| + 4;
    assert IdInput(seed, i)[n..] == Decimal(i) && IdInput(seed, j)[n..] == Decimal(j);
    DecimalInjective(i, j);
  }

  lemma SeededIdsDiffer(h: Hash, seed: Buf, n: nat, i: nat, j: nat)
    requires i < j < n && CollisionFreeOn(h, IdInputs(seed, n))
    ensures FromSeed(h, WORK_PACKAGE, PackageSeed(seed, i)) != FromSeed(h, WORK_PACKAGE, PackageSeed(seed, j))
  {
    var a, b := FromSeed(h, WORK_PACKAGE, PackageSeed(seed, i)), FromSeed(h, WORK_PACKAGE, PackageSeed(seed, j));
    if a == b {
      var k := |WORK_PACKAGE| + 1;
      assert a[k..] == ToHex(h(IdInput(seed, i))) && b[k..] == ToHex(h(IdInput(seed, j)));
      ToHexInjective(h(IdInput(seed, i)), h(IdInput(seed, j)));
      assert IdInput(seed, i) in IdInputs(seed, n) && IdInput(seed, j) in IdInputs(seed, n);
      IdInputBinds(seed, i, j);
    }
  }

  /** Every materialized graph owns its packages under distinct ids, so the
      validator is exact on it and accepts the derivation's own output. */
  lemma MaterializedIsExact(c: Codec, h: Hash, seed: Buf, input: PlanInput, g: Graph, at: Buf, output: seq<Capsule>,
                            capsules: seq<Capsule>)
    requires Materialized(h, seed, input, g) && CollisionFreeOn(h, IdInputs(seed, |g.packages|))
    requires ForEachPackage(c, g, at, |g.packages|, output)
    ensures Owned(g) && DistinctIds(g)
    ensures Accepts(c, g, capsules) <==> Reordering(c, g, capsules)
    ensures c.goodTime(at) ==> Accepts(c, g, output)
  {
    forall i | 0 <= i < |g.packages|
      ensures Owns(g, g.packages[i])
    {
      assert PackageAt(h, seed, g, input, i);
    }
    forall i, j | 0 <= i < j < |g.packages|
      ensures g.packages[i].id != g.packages[j].id
    {
      assert PackageAt(h, seed, g, input, i) && PackageAt(h, seed, g, input, j);
      SeededIdsDiffer(h, seed, |g.packages|, i, j);
    }
    AcceptsExactly(c, g, capsules);
    if c.goodTime(at) { OutputAccepted(c, g, at, output); }
  }
}
