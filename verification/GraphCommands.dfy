/** Graph deltas as commands: a delta is keyed by its own digest, its first
    outcome is stored with the command, and a repeated call answers from the
    record. */
module GraphCommands {
  import opened Bytes
  import opened GraphDelta
  import R = GraphReplay

  /** The stable digest of a graph and the idempotency key of a delta. */
  datatype Env = Env(digest: Graph -> Digest, key: Delta -> Buf)

  datatype Refusal = Evaluation(error: Error) | GraphMissing | Idempotency | OtherMission | NotAResult
  datatype Outcome = Done(graph: Graph) | Refused(why: Refusal)

  /** `stored` is absent while the command is pending. */
  datatype Command = Command(delta: Delta, stored: Option<Outcome>)

  /** `events` holds the key of every applied delta, in order. */
  datatype Ledger = Ledger(graphs: map<Buf, Graph>, commands: map<Buf, Command>, events: seq<Buf>)

  function Evaluated(e: Env, l: Ledger, mission: Buf, delta: Delta): Outcome {
    if mission !in l.graphs then Refused(GraphMissing)
    else match Evaluate(e.digest, l.graphs[mission], delta)
      case Ok(next) => Done(next)
      case Err(error) => Refused(Evaluation(error))
  }

  /** The first outcome and everything committed with it. */
  function Commit(e: Env, l: Ledger, mission: Buf, delta: Delta): Ledger {
    var key, o := e.key(delta), Evaluated(e, l, mission, delta);
    Ledger(if o.Done? then l.graphs[mission := o.graph] else l.graphs,
           l.commands[key := Command(delta, Some(o))],
           if o.Done? then l.events + [key] else l.events)
  }

  function ApplyDelta(e: Env, l: Ledger, mission: Buf, delta: Delta): (Outcome, Ledger) {
    var key := e.key(delta);
    if key in l.commands && l.commands[key].delta != delta then (Refused(Idempotency), l)
    else if key in l.commands && l.commands[key].stored.Some? then
      var o := l.commands[key].stored.value;
      (if o.Done? && o.graph.mission != mission then Refused(OtherMission) else o, l)
    else (Evaluated(e, l, mission, delta), Commit(e, l, mission, delta))
  }

  class GraphLedger {
    const e: Env
    var graphs: map<Buf, Graph>
    var commands: map<Buf, Command>
    var events: seq<Buf>

    constructor (e: Env)
      ensures this.e == e && State() == Ledger(map[], map[], [])
    {
      this.e := e;
      graphs, commands, events := map[], map[], [];
    }

    function State(): Ledger
      reads this
    {
      Ledger(graphs, commands, events)
    }

    method ApplyGraphDelta(mission: Buf, delta: Delta) returns (o: Outcome)
      modifies this
      ensures (o, State()) == ApplyDelta(e, old(State()), mission, delta)
      ensures e.key(delta) !in old(commands) ==> (o == Refused(GraphMissing) <==> mission !in old(graphs))
    {
      var key := e.key(delta);
      if key in commands {
        if commands[key].delta != delta { return Refused(Idempotency); }
        if commands[key].stored.Some? {
          o := commands[key].stored.value;
          if o.Done? && o.graph.mission != mission { return Refused(OtherMission); }
          return;
        }
      }
      if mission !in graphs {
        o := Refused(GraphMissing);
      } else {
        var r := EvaluateGraphDelta(e.digest, graphs[mission], delta);
        if r.Err? {
          o := Refused(Evaluation(r.error));
        } else {
          o := Done(r.value);
          graphs := graphs[mission := r.value];
          events := events + [key];
        }
      }
      commands := commands[key := Command(delta, Some(o))];
    }
  }

  // ---- runs -------------------------------------------------------------------

  /** Delta commands; commands recorded and left pending; pending commands
      settled by the offline worker, whose answer is no delta result; records
      overwritten by key; and graphs written by anything else. */
  datatype Step =
    | DoApply(mission: Buf, delta: Delta)
    | DoRecord(pending: Delta)
    | DoReconcile(key: Buf)
    | SetPhase(key: Buf, stored: Option<Outcome>)
    | SetGraph(graph: Graph)

  function Do(e: Env, l: Ledger, step: Step): Ledger {
    match step
    case DoApply(mission, delta) => ApplyDelta(e, l, mission, delta).1
    case DoRecord(delta) =>
      if e.key(delta) in l.commands then l
      else l.(commands := l.commands[e.key(delta) := Command(delta, None)])
    case DoReconcile(key) =>
      if key in l.commands && l.commands[key].stored == None
      then l.(commands := l.commands[key := l.commands[key].(stored := Some(Refused(NotAResult)))]) else l
    case SetPhase(key, stored) =>
      if key in l.commands then l.(commands := l.commands[key := l.commands[key].(stored := stored)]) else l
    case SetGraph(graph) => l.(graphs := l.graphs[graph.mission := graph])
  }

  function Run(e: Env, l: Ledger, steps: seq<Step>): Ledger
    decreases |steps|
  {
    if steps == [] then l else Do(e, Run(e, l, steps[..|steps| - 1]), steps[|steps| - 1])
  }

  /** No step of the run overwrites this key's record. */
  ghost predicate Untouched(steps: seq<Step>, key: Buf) {
    forall i | 0 <= i < |steps| :: !(steps[i].SetPhase? && steps[i].key == key)
  }

  ghost predicate GraphsOk(graphs: map<Buf, Graph>) { forall m | m in graphs :: graphs[m].mission == m }

  /** An applied delta has its outcome on record and is logged once. */
  ghost predicate LoggedOnce(commands: map<Buf, Command>, events: seq<Buf>, key: Buf) {
    && (key in events ==> key in commands && commands[key].stored.Some? && commands[key].stored.value.Done?)
    && (forall i, j | 0 <= i < j < |events| && events[i] == key :: events[j] != key)
  }

  /** A record keeps its delta, and its outcome once it has one. */
  ghost predicate Kept(l: Ledger, m: Ledger, key: Buf) {
    key in l.commands ==>
      && key in m.commands && m.commands[key].delta == l.commands[key].delta
      && (l.commands[key].stored.Some? ==> m.commands[key].stored == l.commands[key].stored)
  }

  lemma MissionStays(digest: Graph -> Digest, g: Graph, delta: Delta)
    requires Evaluate(digest, g, delta).Ok?
    ensures Evaluate(digest, g, delta).value.mission == g.mission
  {
    if !AlreadyApplied(g, delta.ops) { R.IdsStay(g, delta.ops); }
  }

  lemma DoKeepsGraphs(e: Env, l: Ledger, step: Step)
    requires GraphsOk(l.graphs)
    ensures GraphsOk(Do(e, l, step).graphs)
  {
    if step.DoApply? && Evaluated(e, l, step.mission, step.delta).Done? {
      MissionStays(e.digest, l.graphs[step.mission], step.delta);
    }
  }

  lemma DoKeeps(e: Env, l: Ledger, step: Step, key: Buf)
    requires !(step.SetPhase? && step.key == key)
    ensures Kept(l, Do(e, l, step), key)
    ensures LoggedOnce(l.commands, l.events, key) ==> LoggedOnce(Do(e, l, step).commands, Do(e, l, step).events, key)
  {
    if step.DoApply? && Do(e, l, step).events != l.events {
      var m, k := Do(e, l, step), e.key(step.delta);
      assert m.events == l.events + [k];
      if key == k && LoggedOnce(l.commands, l.events, key) { assert key !in l.events; }
    }
  }

  lemma {:induction false} RunKeeps(e: Env, l: Ledger, steps: seq<Step>, key: Buf)
    requires GraphsOk(l.graphs) && Untouched(steps, key)
    ensures GraphsOk(Run(e, l, steps).graphs) && Kept(l, Run(e, l, steps), key)
    ensures LoggedOnce(l.commands, l.events, key) ==>
      LoggedOnce(Run(e, l, steps).commands, Run(e, l, steps).events, key)
    decreases |steps|
  {
    if steps != [] {
      var mid := Run(e, l, steps[..|steps| - 1]);
      RunKeeps(e, l, steps[..|steps| - 1], key);
      DoKeepsGraphs(e, mid, steps[|steps| - 1]);
      DoKeeps(e, mid, steps[|steps| - 1], key);
    }
  }

  /** Whatever a call answered, applied or refused, the same call answers again
      after any run of other deltas, pending and reconciled commands, graph
      writes and overwrites of other records, and changes nothing; an applied
      delta is refused to every other mission. */
  lemma RepeatReturnsTheFirst(e: Env, l: Ledger, mission: Buf, delta: Delta, steps: seq<Step>)
    requires GraphsOk(l.graphs) && Untouched(steps, e.key(delta))
    ensures var (first, l1) := ApplyDelta(e, l, mission, delta);
            var l2 := Run(e, l1, steps);
            && ApplyDelta(e, l2, mission, delta) == (first, l2)
            && forall other | first.Done? && other != mission ::
                 ApplyDelta(e, l2, other, delta) == (Refused(OtherMission), l2)
  {
    var (first, l1) := ApplyDelta(e, l, mission, delta);
    DoKeepsGraphs(e, l, DoApply(mission, delta));
    RunKeeps(e, l1, steps, e.key(delta));
    if first.Done? && l1 != l { MissionStays(e.digest, l.graphs[mission], delta); }
  }

  /** So no delta is applied twice along any run that does not overwrite its
      record. */
  lemma AppliedAtMostOnce(e: Env, graphs: map<Buf, Graph>, steps: seq<Step>, i: nat, j: nat)
    requires GraphsOk(graphs)
    requires var m := Run(e, Ledger(graphs, map[], []), steps); i < j < |m.events| && Untouched(steps, m.events[i])
    ensures var m := Run(e, Ledger(graphs, map[], []), steps); m.events[i] != m.events[j]
  {
    RunKeeps(e, Ledger(graphs, map[], []), steps, Run(e, Ledger(graphs, map[], []), steps).events[i]);
  }

  // ---- the graphs are the log ---------------------------------------------------

  /** The step evaluates its delta afresh and applies it. */
  predicate Applies(e: Env, l: Ledger, step: Step) {
    && step.DoApply? && Evaluated(e, l, step.mission, step.delta).Done?
    && var key := e.key(step.delta);
    key in l.commands ==> l.commands[key].delta == step.delta && l.commands[key].stored == None
  }

  /** The deltas a run applies, with their missions, in order. */
  function Applied(e: Env, l: Ledger, steps: seq<Step>): seq<(Buf, Delta)>
    decreases |steps|
  {
    if steps == [] then []
    else
      var front, last := steps[..|steps| - 1], steps[|steps| - 1];
      Applied(e, l, front) + if Applies(e, Run(e, l, front), last) then [(last.mission, last.delta)] else []
  }

  function Keys(e: Env, applied: seq<(Buf, Delta)>): seq<Buf> {
    if applied == [] then [] else Keys(e, applied[..|applied| - 1]) + [e.key(applied[|applied| - 1].1)]
  }

  function DeltasOf(applied: seq<(Buf, Delta)>, mission: Buf): seq<Delta> {
    if applied == [] then []
    else DeltasOf(applied[..|applied| - 1], mission) +
         if applied[|applied| - 1].0 == mission then [applied[|applied| - 1].1] else []
  }

  ghost predicate NotWritten(steps: seq<Step>, mission: Buf) {
    forall i | 0 <= i < |steps| :: !(steps[i].SetGraph? && steps[i].graph.mission == mission)
  }

  lemma DoApplies(e: Env, l: Ledger, step: Step, mission: Buf)
    requires mission in l.graphs && !(step.SetGraph? && step.graph.mission == mission)
    ensures var m := Do(e, l, step);
      && m.events == l.events + (if Applies(e, l, step) then [e.key(step.delta)] else [])
      && mission in m.graphs
      && m.graphs[mission] ==
         if Applies(e, l, step) && step.mission == mission then R.Step(e.digest, l.graphs[mission], step.delta)
         else l.graphs[mission]
  {
  }

  /** The event log and the graphs say the same: a run logs exactly the deltas it
      applies, and a mission's graph is the first one with that mission's logged
      deltas evaluated on it in order. */
  lemma {:induction false} GraphIsTheFold(e: Env, l: Ledger, steps: seq<Step>, mission: Buf)
    requires mission in l.graphs && NotWritten(steps, mission)
    ensures var m, applied := Run(e, l, steps), Applied(e, l, steps);
      && m.events == l.events + Keys(e, applied)
      && mission in m.graphs && m.graphs[mission] == R.Run(e.digest, l.graphs[mission], DeltasOf(applied, mission))
    decreases |steps|
  {
    if steps != [] {
      var front, last := steps[..|steps| - 1], steps[|steps| - 1];
      GraphIsTheFold(e, l, front, mission);
      DoApplies(e, Run(e, l, front), last, mission);
      if Applies(e, Run(e, l, front), last) {
        FoldOn(e, Applied(e, l, front), last, mission, l.graphs[mission]);
      } else {
        assert Applied(e, l, steps) == Applied(e, l, front);
      }
    }
  }

  lemma FoldOn(e: Env, applied: seq<(Buf, Delta)>, step: Step, mission: Buf, g: Graph)
    requires step.DoApply?
    ensures var more := applied + [(step.mission, step.delta)];
      && Keys(e, more) == Keys(e, applied) + [e.key(step.delta)]
      && R.Run(e.digest, g, DeltasOf(more, mission)) ==
         if step.mission == mission then R.Step(e.digest, R.Run(e.digest, g, DeltasOf(applied, mission)), step.delta)
         else R.Run(e.digest, g, DeltasOf(applied, mission))
  {
    var more := applied + [(step.mission, step.delta)];
    assert more[..|more| - 1] == applied;
    if step.mission == mission {
      var ds := DeltasOf(applied, mission) + [step.delta];
      assert ds[..|ds| - 1] == DeltasOf(applied, mission);
    } else {
      assert DeltasOf(more, mission) == DeltasOf(applied, mission);
    }
  }

  /** So no run of commands lowers a fence of a graph that nothing else writes. */
  lemma LedgerFencesNeverDrop(e: Env, l: Ledger, steps: seq<Step>, mission: Buf, v: Buf, fence: nat)
    requires mission in l.graphs && NotWritten(steps, mission)
    requires Get(l.graphs[mission], Variant(v)) == Some(Count(fence)) && fence <= U64_MAX
    ensures var m := Run(e, l, steps);
      && mission in m.graphs
      && var after := Get(m.graphs[mission], Variant(v)); after.Some? && after.value.Count? && fence <= after.value.fence
  {
    GraphIsTheFold(e, l, steps, mission);
    R.FencesNeverDrop(e.digest, l.graphs[mission], DeltasOf(Applied(e, l, steps), mission), v, fence);
  }

  /** An overwrite is what it takes: put back to pending, an applied delta of
      one bump is answered and logged a second time. */
  lemma OverwriteReapplies(e: Env, v: Buf, mission: Buf, g: Graph)
    requires g.mission == mission && g.variants == [Row(v, 1)]
    ensures var delta := Delta(e.digest(g), [BumpFence(v, 0, 1)]);
      var l := Ledger(map[mission := g], map[e.key(delta) := Command(delta, Some(Done(g)))], [e.key(delta)]);
      var m := Do(e, Do(e, l, SetPhase(e.key(delta), None)), DoApply(mission, delta));
      m.events == [e.key(delta), e.key(delta)]
  {
    var op := BumpFence(v, 0, 1);
    assert g.variants[0] == Row(v, 1);
    assert Present(g, op);
  }
}
