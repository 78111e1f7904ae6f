/** The runtime schema bundle: every component schema reachable from the
    roots, with component references rewritten to point inside the bundle. */
module SchemaBundle {
  import opened Bytes

  const REF: string := "$ref"
  const COMPONENT_PREFIX: string := "#/components/schemas/"
  const DEFS_PREFIX: string := "#/$defs/"

  /** A schema document. Array items carry an unused key. */
  datatype Value = Scalar(text: string) | Str(text: string) | Array(items: Items) | Object(fields: Items)
  datatype Items = Nil | Item(key: string, value: Value, rest: Items)

  type Schemas = map<string, Value>

  // ---- references -----------------------------------------------------------

  predicate ValidName(name: string) { name != "" && '/' !in name }

  function NameAfter(prefix: string, reference: string): Option<string> {
    if prefix <= reference && ValidName(reference[|prefix|..]) then Some(reference[|prefix|..]) else None
  }

  /** The name a `$ref` value points at, for references with this prefix. */
  function Target(prefix: string, value: Value): Option<string> {
    if value.Str? then NameAfter(prefix, value.text) else None
  }

  /** Names in document order, or none when some reference is malformed. */
  function Refs(prefix: string, v: Value): Option<seq<string>>
    decreases v
  {
    match v
    case Object(fields) => RefsIn(prefix, fields, true)
    case Array(items) => RefsIn(prefix, items, false)
    case _ => Some([])
  }

  function RefsIn(prefix: string, items: Items, keyed: bool): Option<seq<string>>
    decreases items
  {
    match items
    case Nil => Some([])
    case Item(key, value, rest) =>
      var here := if keyed && key == REF then Target(prefix, value) else None;
      var below, after := Refs(prefix, value), RefsIn(prefix, rest, keyed);
      if (keyed && key == REF && here.None?) || below.None? || after.None? then None
      else Some((if here.Some? then [here.value] else []) + below.value + after.value)
  }

  /** `x` stands under a `$ref` key somewhere in the document. */
  ghost predicate Occurs(v: Value, x: Value)
    decreases v
  {
    match v
    case Object(fields) => OccursIn(fields, true, x)
    case Array(items) => OccursIn(items, false, x)
    case _ => false
  }

  ghost predicate OccursIn(items: Items, keyed: bool, x: Value)
    decreases items
  {
    && items.Item?
    && ((keyed && items.key == REF && items.value == x) || Occurs(items.value, x) || OccursIn(items.rest, keyed, x))
  }

  ghost predicate AllGood(prefix: string, v: Value) { forall x | Occurs(v, x) :: Target(prefix, x).Some? }

  ghost predicate AllGoodIn(prefix: string, items: Items, keyed: bool) {
    forall x | OccursIn(items, keyed, x) :: Target(prefix, x).Some?
  }

  ghost predicate Points(prefix: string, v: Value, name: string) {
    exists x :: Occurs(v, x) && Target(prefix, x) == Some(name)
  }

  ghost predicate PointsIn(prefix: string, items: Items, keyed: bool, name: string) {
    exists x :: OccursIn(items, keyed, x) && Target(prefix, x) == Some(name)
  }

  /** Collecting fails exactly on a malformed reference, wherever it is. */
  lemma {:induction false} RefsFail(prefix: string, v: Value)
    ensures Refs(prefix, v).Some? <==> AllGood(prefix, v)
    decreases v
  {
    match v
    case Object(fields) => RefsInFail(prefix, fields, true);
    case Array(items) => RefsInFail(prefix, items, false);
    case _ =>
  }

  lemma {:induction false} RefsInFail(prefix: string, items: Items, keyed: bool)
    ensures RefsIn(prefix, items, keyed).Some? <==> AllGoodIn(prefix, items, keyed)
    decreases items
  {
    if items.Item? {
      RefsFail(prefix, items.value);
      RefsInFail(prefix, items.rest, keyed);
      if AllGoodIn(prefix, items, keyed) {
        assert forall x | Occurs(items.value, x) :: OccursIn(items, keyed, x);
        assert forall x | OccursIn(items.rest, keyed, x) :: OccursIn(items, keyed, x);
        if keyed && items.key == REF { assert OccursIn(items, keyed, items.value); }
      }
    }
  }

  /** What is collected is exactly what the references point at. */
  lemma {:induction false} RefsExact(prefix: string, v: Value, name: string)
    requires Refs(prefix, v).Some?
    ensures name in Refs(prefix, v).value <==> Points(prefix, v, name)
    decreases v
  {
    match v
    case Object(fields) =>
      RefsInExact(prefix, fields, true, name);
      assert Points(prefix, v, name) <==> PointsIn(prefix, fields, true, name);
    case Array(items) =>
      RefsInExact(prefix, items, false, name);
      assert Points(prefix, v, name) <==> PointsIn(prefix, items, false, name);
    case _ =>
  }

  lemma {:induction false} RefsInExact(prefix: string, items: Items, keyed: bool, name: string)
    requires RefsIn(prefix, items, keyed).Some?
    ensures name in RefsIn(prefix, items, keyed).value <==> PointsIn(prefix, items, keyed, name)
    decreases items
  {
    if items.Item? {
      RefsExact(prefix, items.value, name);
      RefsInExact(prefix, items.rest, keyed, name);
      PointsSplit(prefix, items, keyed, name);
    }
  }

  lemma PointsSplit(prefix: string, items: Items, keyed: bool, name: string)
    requires items.Item?
    ensures PointsIn(prefix, items, keyed, name) <==>
      || (keyed && items.key == REF && Target(prefix, items.value) == Some(name))
      || Points(prefix, items.value, name)
      || PointsIn(prefix, items.rest, keyed, name)
  {
  }

  // ---- rewriting ------------------------------------------------------------

  function Rewrite(v: Value): Option<Value>
    decreases v
  {
    match v
    case Object(fields) => (var f := RewriteIn(fields, true); if f.None? then None else Some(Object(f.value)))
    case Array(items) => (var f := RewriteIn(items, false); if f.None? then None else Some(Array(f.value)))
    case _ => Some(v)
  }

  function RewriteIn(items: Items, keyed: bool): Option<Items>
    decreases items
  {
    match items
    case Nil => Some(Nil)
    case Item(key, value, rest) =>
      var here := if keyed && key == REF then PointInside(value) else Rewrite(value);
      var after := RewriteIn(rest, keyed);
      if here.None? || after.None? then None else Some(Item(key, here.value, after.value))
  }

  function PointInside(value: Value): Option<Value> {
    var name := Target(COMPONENT_PREFIX, value);
    if name.None? then None else Some(Str(DEFS_PREFIX + name.value))
  }

  /** The other way: bundle references back to component references. */
  function Restore(v: Value): Value
    decreases v
  {
    match v
    case Object(fields) => Object(RestoreIn(fields, true))
    case Array(items) => Array(RestoreIn(items, false))
    case _ => v
  }

  function RestoreIn(items: Items, keyed: bool): Items
    decreases items
  {
    match items
    case Nil => Nil
    case Item(key, value, rest) =>
      Item(key, if keyed && key == REF then PointOutside(value) else Restore(value), RestoreIn(rest, keyed))
  }

  function PointOutside(value: Value): Value {
    var name := Target(DEFS_PREFIX, value);
    if name.None? then value else Str(COMPONENT_PREFIX + name.value)
  }

  lemma Repointed(value: Value)
    requires PointInside(value).Some?
    ensures PointOutside(PointInside(value).value) == value
    ensures Target(DEFS_PREFIX, PointInside(value).value) == Target(COMPONENT_PREFIX, value)
    ensures PointInside(value).value.Str?
  {
  }

  /** Rewriting succeeds exactly when collecting does, loses nothing, and
      points at the same names in the same order. */
  lemma {:induction false} RewriteIsExact(v: Value)
    ensures Rewrite(v).Some? <==> Refs(COMPONENT_PREFIX, v).Some?
    ensures Rewrite(v).Some? ==> Restore(Rewrite(v).value) == v
    ensures Rewrite(v).Some? ==> Refs(DEFS_PREFIX, Rewrite(v).value) == Refs(COMPONENT_PREFIX, v)
    decreases v
  {
    match v
    case Object(fields) => RewriteInIsExact(fields, true);
    case Array(items) => RewriteInIsExact(items, false);
    case _ =>
  }

  lemma {:induction false} RewriteInIsExact(items: Items, keyed: bool)
    ensures RewriteIn(items, keyed).Some? <==> RefsIn(COMPONENT_PREFIX, items, keyed).Some?
    ensures RewriteIn(items, keyed).Some? ==> RestoreIn(RewriteIn(items, keyed).value, keyed) == items
    ensures RewriteIn(items, keyed).Some? ==>
      RefsIn(DEFS_PREFIX, RewriteIn(items, keyed).value, keyed) == RefsIn(COMPONENT_PREFIX, items, keyed)
    decreases items
  {
    if items.Item? {
      RewriteInIsExact(items.rest, keyed);
      if keyed && items.key == REF {
        if PointInside(items.value).Some? { Repointed(items.value); }
      } else {
        RewriteIsExact(items.value);
      }
    }
  }

  // ---- reachable names --------------------------------------------------------

  ghost predicate Edge(schemas: Schemas, from: string, to: string) {
    from in schemas && Points(COMPONENT_PREFIX, schemas[from], to)
  }

  ghost predicate Path(schemas: Schemas, roots: seq<string>, path: seq<string>) {
    && path != [] && path[0] in roots
    && forall i | 0 < i < |path| :: Edge(schemas, path[i - 1], path[i])
  }

  ghost predicate Reachable(schemas: Schemas, roots: seq<string>, name: string) {
    exists path :: Path(schemas, roots, path) && path[|path| - 1] == name
  }

  predicate Readable(schemas: Schemas, name: string) {
    name in schemas && Refs(COMPONENT_PREFIX, schemas[name]).Some?
  }

  lemma RootReachable(schemas: Schemas, roots: seq<string>, name: string)
    requires name in roots
    ensures Reachable(schemas, roots, name)
  {
    assert Path(schemas, roots, [name]);
  }

  lemma EdgeReachable(schemas: Schemas, roots: seq<string>, from: string, to: string)
    requires Reachable(schemas, roots, from) && Edge(schemas, from, to)
    ensures Reachable(schemas, roots, to)
  {
    var path :| Path(schemas, roots, path) && path[|path| - 1] == from;
    var longer := path + [to];
    assert Path(schemas, roots, longer) by {
      forall i | 0 < i < |longer|
        ensures Edge(schemas, longer[i - 1], longer[i])
      {
        if i < |path| { assert longer[i] == path[i] && longer[i - 1] == path[i - 1]; }
      }
    }
    assert longer[|longer| - 1] == to;
  }

  ghost predicate Covers(schemas: Schemas, roots: seq<string>, names: set<string>, pending: seq<string>) {
    && (forall r | r in roots :: r in names || r in pending)
    && (forall n | n in names :: Readable(schemas, n))
    && (forall n, r | n in names && r in Refs(COMPONENT_PREFIX, schemas[n]).value :: r in names || r in pending)
  }

  lemma {:induction false} ClosedHoldsPath(schemas: Schemas, roots: seq<string>, names: set<string>, path: seq<string>)
    requires Covers(schemas, roots, names, []) && Path(schemas, roots, path)
    ensures path[|path| - 1] in names
    decreases |path|
  {
    if |path| > 1 {
      var front := path[..|path| - 1];
      assert Path(schemas, roots, front) by {
        forall i | 0 < i < |front|
          ensures Edge(schemas, front[i - 1], front[i])
        {
          assert front[i] == path[i] && front[i - 1] == path[i - 1];
        }
      }
      ClosedHoldsPath(schemas, roots, names, front);
      assert Edge(schemas, path[|path| - 2], path[|path| - 1]);
      RefsExact(COMPONENT_PREFIX, schemas[path[|path| - 2]], path[|path| - 1]);
    }
  }

  lemma Visit(schemas: Schemas, roots: seq<string>, name: string)
    requires Reachable(schemas, roots, name) && Readable(schemas, name)
    ensures forall r | r in Refs(COMPONENT_PREFIX, schemas[name]).value :: Reachable(schemas, roots, r)
  {
    forall r | r in Refs(COMPONENT_PREFIX, schemas[name]).value
      ensures Reachable(schemas, roots, r)
    {
      RefsExact(COMPONENT_PREFIX, schemas[name], r);
      EdgeReachable(schemas, roots, name, r);
    }
  }

  ghost predicate AllReachable(schemas: Schemas, roots: seq<string>, names: set<string>, pending: seq<string>) {
    && (forall n | n in names :: Reachable(schemas, roots, n))
    && (forall n | n in pending :: Reachable(schemas, roots, n))
  }

  ghost predicate SomeUnreadable(schemas: Schemas, roots: seq<string>) {
    exists n :: Reachable(schemas, roots, n) && !Readable(schemas, n)
  }

  /** What the loop keeps: readable reachable names, and nothing overlooked. */
  ghost predicate Searching(schemas: Schemas, roots: seq<string>, names: set<string>, pending: seq<string>) {
    Covers(schemas, roots, names, pending) && AllReachable(schemas, roots, names, pending)
  }

  lemma Begin(schemas: Schemas, roots: seq<string>)
    ensures Searching(schemas, roots, {}, roots)
  {
    forall n | n in roots
      ensures Reachable(schemas, roots, n)
    {
      RootReachable(schemas, roots, n);
    }
  }

  lemma PopSeen(schemas: Schemas, roots: seq<string>, names: set<string>, less: seq<string>, name: string)
    requires Searching(schemas, roots, names, less + [name]) && name in names
    ensures Searching(schemas, roots, names, less)
  {
    assert forall r | r in less + [name] :: r in less || r == name;
    assert forall r | r in less :: r in less + [name];
  }

  lemma NewCovered(schemas: Schemas, roots: seq<string>, names: set<string>, less: seq<string>, name: string,
                   refs: seq<string>)
    requires Covers(schemas, roots, names, less + [name])
    requires Readable(schemas, name) && refs == Refs(COMPONENT_PREFIX, schemas[name]).value
    ensures Covers(schemas, roots, names + {name}, less + refs)
  {
  }

  lemma NewReachable(schemas: Schemas, roots: seq<string>, names: set<string>, less: seq<string>, name: string,
                     refs: seq<string>)
    requires AllReachable(schemas, roots, names, less + [name])
    requires Readable(schemas, name) && refs == Refs(COMPONENT_PREFIX, schemas[name]).value
    ensures AllReachable(schemas, roots, names + {name}, less + refs)
  {
    assert name in less + [name];
    Visit(schemas, roots, name);
    forall n | n in less + refs
      ensures Reachable(schemas, roots, n)
    {
      if n in less { assert n in less + [name]; }
    }
  }

  lemma PopNew(schemas: Schemas, roots: seq<string>, names: set<string>, less: seq<string>, name: string)
    requires Searching(schemas, roots, names, less + [name])
    ensures if Readable(schemas, name)
            then Searching(schemas, roots, names + {name}, less + Refs(COMPONENT_PREFIX, schemas[name]).value)
            else SomeUnreadable(schemas, roots)
  {
    if Readable(schemas, name) {
      var refs := Refs(COMPONENT_PREFIX, schemas[name]).value;
      NewCovered(schemas, roots, names, less, name, refs);
      NewReachable(schemas, roots, names, less, name, refs);
    } else {
      assert name in less + [name];
    }
  }

  lemma Finished(schemas: Schemas, roots: seq<string>, names: set<string>)
    requires Searching(schemas, roots, names, [])
    ensures forall n :: n in names <==> Reachable(schemas, roots, n)
    ensures !SomeUnreadable(schemas, roots)
  {
    forall n | Reachable(schemas, roots, n)
      ensures n in names
    {
      var path :| Path(schemas, roots, path) && path[|path| - 1] == n;
      ClosedHoldsPath(schemas, roots, names, path);
    }
  }

  /** The worklist finds exactly the reachable names, and fails exactly when
      one of them is absent or holds a malformed reference. */
  method RuntimeSchemaNames(schemas: Schemas, roots: seq<string>) returns (r: Option<set<string>>)
    ensures r.None? <==> SomeUnreadable(schemas, roots)
    ensures r.Some? ==> forall n :: n in r.value <==> Reachable(schemas, roots, n)
  {
    var names: set<string> := {};
    var pending := roots;
    Begin(schemas, roots);
    while pending != []
      invariant names <= schemas.Keys && Searching(schemas, roots, names, pending)
      decreases schemas.Keys - names, |pending|
    {
      var less, name := pending[..|pending| - 1], pending[|pending| - 1];
      assert pending == less + [name];
      if name in names {
        PopSeen(schemas, roots, names, less, name);
        pending := less;
      } else {
        PopNew(schemas, roots, names, less, name);
        if name !in schemas { return None; }
        var refs := Refs(COMPONENT_PREFIX, schemas[name]);
        if refs.None? { return None; }
        names := names + {name};
        pending := less + refs.value;
      }
    }
    Finished(schemas, roots, names);
    return Some(names);
  }

  // ---- the bundle -------------------------------------------------------------

  ghost predicate Resolves(bundle: Schemas) {
    forall n, x | n in bundle && Occurs(bundle[n], x) ::
      Target(DEFS_PREFIX, x).Some? && Target(DEFS_PREFIX, x).value in bundle
  }

  lemma DefinitionResolves(schemas: Schemas, roots: seq<string>, n: string, x: Value)
    requires Reachable(schemas, roots, n) && Readable(schemas, n) && Rewrite(schemas[n]).Some?
    requires Occurs(Rewrite(schemas[n]).value, x)
    ensures Target(DEFS_PREFIX, x).Some? && Reachable(schemas, roots, Target(DEFS_PREFIX, x).value)
  {
    var w := Rewrite(schemas[n]).value;
    RewriteIsExact(schemas[n]);
    RefsFail(DEFS_PREFIX, w);
    var name := Target(DEFS_PREFIX, x).value;
    assert Points(DEFS_PREFIX, w, name);
    RefsExact(DEFS_PREFIX, w, name);
    Visit(schemas, roots, n);
  }

  /** The bundle holds exactly the reachable schemas, each changed in its
      references only, and every reference in it resolves inside it. */
  method RuntimeSchema(schemas: Schemas, roots: seq<string>) returns (r: Option<Schemas>)
    ensures r.None? <==> SomeUnreadable(schemas, roots)
    ensures r.Some? ==> forall n :: n in r.value <==> Reachable(schemas, roots, n)
    ensures r.Some? ==> forall n | n in r.value :: n in schemas && Restore(r.value[n]) == schemas[n]
    ensures r.Some? ==> Resolves(r.value)
  {
    var found := RuntimeSchemaNames(schemas, roots);
    if found.None? { return None; }
    var names, bundle: Schemas := found.value, map[];
    while names != {}
      invariant names <= found.value && bundle.Keys == found.value - names
      invariant forall n | n in bundle :: n in schemas && Rewrite(schemas[n]) == Some(bundle[n])
      decreases names
    {
      var name :| name in names;
      assert Readable(schemas, name);
      RewriteIsExact(schemas[name]);
      var rewritten := Rewrite(schemas[name]);
      bundle := bundle[name := rewritten.value];
      names := names - {name};
    }
    forall n | n in bundle
      ensures Restore(bundle[n]) == schemas[n]
    {
      RewriteIsExact(schemas[n]);
    }
    forall n, x | n in bundle && Occurs(bundle[n], x)
      ensures Target(DEFS_PREFIX, x).Some? && Target(DEFS_PREFIX, x).value in bundle
    {
      DefinitionResolves(schemas, roots, n, x);
    }
    return Some(bundle);
  }
}
