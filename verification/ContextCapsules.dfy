/** Initial context capsules: one derived from every package of a graph, and
    the validator of a stored set of them. */
module ContextCapsules {
  import opened Bytes

  datatype Package = Package(id: Buf, mission: Buf, plan: Buf, taskClass: nat, title: Buf)
  datatype Graph = Graph(mission: Buf, objective: Buf, plan: Buf, packages: seq<Package>)

  datatype Content = Content(mission: Buf, package: Buf, plan: Buf, taskClass: nat, objective: Buf, title: Buf)

  datatype Capsule = Capsule(id: Buf, content: Content, revision: nat, digest: Digest, recordedAt: Buf)

  /** The digest of the canonical encoding, the identity seeded from that
      digest, and the RFC 3339 parser's verdict. */
  datatype Codec = Codec(digest: Content -> Digest, capsuleId: Digest -> Buf, goodTime: Buf -> bool)

  function ContentOf(g: Graph, p: Package): Content {
    Content(g.mission, p.id, g.plan, p.taskClass, g.objective, p.title)
  }

  function Sealed(c: Codec, content: Content, at: Buf): Capsule {
    var d := c.digest(content);
    Capsule(c.capsuleId(d), content, 1, d, at)
  }

  predicate Lists(packages: seq<Package>, id: Buf) { exists i | 0 <= i < |packages| :: packages[i].id == id }

  predicate Owns(g: Graph, p: Package) { p.mission == g.mission && p.plan == g.plan && Lists(g.packages, p.id) }

  function Initial(c: Codec, g: Graph, p: Package, at: Buf): Option<Capsule> {
    if !Owns(g, p) || !c.goodTime(at) then None else Some(Sealed(c, ContentOf(g, p), at))
  }

  predicate Valid(c: Codec, k: Capsule) {
    && c.goodTime(k.recordedAt) && k.revision == 1
    && k.digest == c.digest(k.content) && k.id == c.capsuleId(c.digest(k.content))
  }

  /** A capsule is valid exactly when it is the sealing of its own content at a
      valid time. */
  lemma ValidIsSealed(c: Codec, k: Capsule)
    ensures Valid(c, k) <==> c.goodTime(k.recordedAt) && k == Sealed(c, k.content, k.recordedAt)
  {
  }

  predicate SameSubject(a: Capsule, b: Capsule) {
    a.id == b.id && a.content == b.content && a.revision == b.revision && a.digest == b.digest
  }

  // ---- graphs ---------------------------------------------------------------

  ghost predicate DistinctIds(g: Graph) {
    forall i, j | 0 <= i < j < |g.packages| :: g.packages[i].id != g.packages[j].id
  }

  ghost predicate Owned(g: Graph) { forall i | 0 <= i < |g.packages| :: Owns(g, g.packages[i]) }

  predicate Fresh(g: Graph, i: nat)
    requires i < |g.packages|
  {
    forall j | 0 <= j < i :: g.packages[j].id != g.packages[i].id
  }

  ghost predicate Derivable(c: Codec, g: Graph, at: Buf, i: nat)
    requires i < |g.packages|
  {
    Fresh(g, i) && Owns(g, g.packages[i]) && c.goodTime(at)
  }

  ghost predicate DerivableTo(c: Codec, g: Graph, at: Buf, n: nat)
    requires n <= |g.packages|
  {
    forall i | 0 <= i < n :: Derivable(c, g, at, i)
  }

  ghost predicate AllDerivable(c: Codec, g: Graph, at: Buf) { DerivableTo(c, g, at, |g.packages|) }

  lemma DerivableMeans(c: Codec, g: Graph, at: Buf)
    ensures AllDerivable(c, g, at) <==> DistinctIds(g) && Owned(g) && (g.packages == [] || c.goodTime(at))
  {
    if AllDerivable(c, g, at) {
      forall i, j | 0 <= i < j < |g.packages|
        ensures g.packages[i].id != g.packages[j].id
      {
        assert Derivable(c, g, at, j);
      }
      if g.packages != [] { assert Derivable(c, g, at, 0); }
      forall i | 0 <= i < |g.packages|
        ensures Owns(g, g.packages[i])
      {
        assert Derivable(c, g, at, i);
      }
    }
  }

  ghost predicate ForEachPackage(c: Codec, g: Graph, at: Buf, n: nat, capsules: seq<Capsule>)
    requires n <= |g.packages|
  {
    |capsules| == n && forall i | 0 <= i < n :: capsules[i] == Sealed(c, ContentOf(g, g.packages[i]), at)
  }

  ghost predicate Seen(g: Graph, n: nat, seen: set<Buf>)
    requires n <= |g.packages|
  {
    && (forall i | 0 <= i < n :: g.packages[i].id in seen)
    && (forall id | id in seen :: exists i | 0 <= i < n :: g.packages[i].id == id)
  }

  lemma SeenNext(g: Graph, n: nat, seen: set<Buf>)
    requires n < |g.packages| && Seen(g, n, seen)
    ensures Fresh(g, n) <==> g.packages[n].id !in seen
    ensures Seen(g, n + 1, seen + {g.packages[n].id})
  {
  }

  lemma DeriveNext(c: Codec, g: Graph, at: Buf, i: nat, capsules: seq<Capsule>)
    requires i < |g.packages| && DerivableTo(c, g, at, i) && ForEachPackage(c, g, at, i, capsules)
    ensures var k := Initial(c, g, g.packages[i], at);
      if Fresh(g, i) && k.Some?
      then DerivableTo(c, g, at, i + 1) && ForEachPackage(c, g, at, i + 1, capsules + [k.value])
      else !AllDerivable(c, g, at)
  {
    assert Derivable(c, g, at, i) <==> Fresh(g, i) && Initial(c, g, g.packages[i], at).Some?;
  }

  method DeriveAll(c: Codec, g: Graph, at: Buf) returns (r: Option<seq<Capsule>>)
    ensures r.Some? <==> AllDerivable(c, g, at)
    ensures r.Some? ==> ForEachPackage(c, g, at, |g.packages|, r.value)
  {
    var seen: set<Buf>, capsules := {}, [];
    for i := 0 to |g.packages|
      invariant Seen(g, i, seen)
      invariant DerivableTo(c, g, at, i) && ForEachPackage(c, g, at, i, capsules)
    {
      var p := g.packages[i];
      SeenNext(g, i, seen);
      DeriveNext(c, g, at, i, capsules);
      if p.id in seen { return None; }
      seen := seen + {p.id};
      var k := Initial(c, g, p, at);
      if k.None? { return None; }
      capsules := capsules + [k.value];
    }
    return Some(capsules);
  }

  method InitialCapsules(c: Codec, g: Graph, at: Buf) returns (r: Option<seq<Capsule>>)
    ensures r.Some? <==> DistinctIds(g) && Owned(g) && (g.packages == [] || c.goodTime(at))
    ensures r.Some? ==> ForEachPackage(c, g, at, |g.packages|, r.value)
    ensures r.Some? ==> forall i | 0 <= i < |g.packages| ::
      var k, p := r.value[i], g.packages[i];
      && k.content == Content(g.mission, p.id, g.plan, p.taskClass, g.objective, p.title)
      && k.revision == 1 && k.recordedAt == at && Valid(c, k)
  {
    DerivableMeans(c, g, at);
    r := DeriveAll(c, g, at);
  }

  // ---- the set validator ----------------------------------------------------

  ghost predicate Repeated(capsules: seq<Capsule>, i: nat)
    requires i < |capsules|
  {
    exists j | 0 <= j < i :: capsules[j].content.package == capsules[i].content.package
  }

  ghost predicate Sound(c: Codec, capsules: seq<Capsule>, n: nat)
    requires n <= |capsules|
  {
    forall i | 0 <= i < n :: Valid(c, capsules[i]) && !Repeated(capsules, i)
  }

  predicate Matches(c: Codec, g: Graph, p: Package, k: Capsule) {
    && k.content.package == p.id
    && Initial(c, g, p, k.recordedAt).Some? && SameSubject(k, Initial(c, g, p, k.recordedAt).value)
  }

  ghost predicate Answered(c: Codec, g: Graph, capsules: seq<Capsule>, p: Package) {
    exists k | 0 <= k < |capsules| :: Matches(c, g, p, capsules[k])
  }

  ghost predicate Accepts(c: Codec, g: Graph, capsules: seq<Capsule>) {
    && Sound(c, capsules, |capsules|)
    && |capsules| == |g.packages|
    && AnsweredTo(c, g, capsules, |g.packages|)
  }

  ghost predicate AnsweredTo(c: Codec, g: Graph, capsules: seq<Capsule>, n: nat)
    requires n <= |g.packages|
  {
    forall i | 0 <= i < n :: Answered(c, g, capsules, g.packages[i])
  }

  ghost predicate Indexes(capsules: seq<Capsule>, n: nat, actual: map<Buf, Capsule>)
    requires n <= |capsules|
  {
    && |actual| == n
    && (forall i | 0 <= i < n :: capsules[i].content.package in actual && actual[capsules[i].content.package] == capsules[i])
    && (forall id | id in actual :: exists i | 0 <= i < n :: capsules[i] == actual[id] && capsules[i].content.package == id)
  }

  lemma IndexRow(capsules: seq<Capsule>, n: nat, actual: map<Buf, Capsule>)
    requires n < |capsules| && Indexes(capsules, n, actual)
    ensures capsules[n].content.package in actual <==> Repeated(capsules, n)
    ensures capsules[n].content.package !in actual ==>
      Indexes(capsules, n + 1, actual[capsules[n].content.package := capsules[n]])
  {
  }

  lemma IndexNext(c: Codec, capsules: seq<Capsule>, n: nat, actual: map<Buf, Capsule>)
    requires n < |capsules| && Sound(c, capsules, n) && Indexes(capsules, n, actual)
    ensures var k := capsules[n];
      if Valid(c, k) && k.content.package !in actual
      then Sound(c, capsules, n + 1) && Indexes(capsules, n + 1, actual[k.content.package := k])
      else !Sound(c, capsules, |capsules|)
  {
    IndexRow(capsules, n, actual);
  }

  method IndexCapsules(c: Codec, capsules: seq<Capsule>) returns (r: Option<map<Buf, Capsule>>)
    ensures r.Some? <==> Sound(c, capsules, |capsules|)
    ensures r.Some? ==> Indexes(capsules, |capsules|, r.value)
  {
    var actual: map<Buf, Capsule> := map[];
    for i := 0 to |capsules|
      invariant Sound(c, capsules, i) && Indexes(capsules, i, actual)
    {
      var k := capsules[i];
      IndexNext(c, capsules, i, actual);
      if !Valid(c, k) { return None; }
      if k.content.package in actual { return None; }
      actual := actual[k.content.package := k];
    }
    return Some(actual);
  }

  lemma AnswerNext(c: Codec, g: Graph, capsules: seq<Capsule>, actual: map<Buf, Capsule>, i: nat)
    requires Indexes(capsules, |capsules|, actual) && i < |g.packages| && AnsweredTo(c, g, capsules, i)
    ensures var p := g.packages[i];
      if p.id in actual && Matches(c, g, p, actual[p.id]) then AnsweredTo(c, g, capsules, i + 1)
      else !AnsweredTo(c, g, capsules, |g.packages|)
  {
  }

  method ValidateInitialContextSet(c: Codec, g: Graph, capsules: seq<Capsule>) returns (ok: bool)
    ensures ok <==> Accepts(c, g, capsules)
    ensures ok ==> forall i | 0 <= i < |capsules| ::
      capsules[i] == Sealed(c, capsules[i].content, capsules[i].recordedAt)
  {
    forall i | 0 <= i < |capsules|
      ensures Valid(c, capsules[i]) ==> capsules[i] == Sealed(c, capsules[i].content, capsules[i].recordedAt)
    {
      ValidIsSealed(c, capsules[i]);
    }
    var index := IndexCapsules(c, capsules);
    if index.None? { return false; }
    var actual := index.value;
    if |actual| != |g.packages| { return false; }
    for i := 0 to |g.packages|
      invariant AnsweredTo(c, g, capsules, i)
    {
      var p := g.packages[i];
      AnswerNext(c, g, capsules, actual, i);
      if p.id !in actual { return false; }
      if !Matches(c, g, p, actual[p.id]) { return false; }
    }
    return true;
  }
}
