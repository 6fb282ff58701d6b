/** The deploy strategies of packages/cli/src/fleet-deploy-cli.ts as functions of the adapters' answers. */
module FleetDeploy {
  import opened Wrappers

  type Id = string

  /** A call an adapter receives; `Soak` is the canary's wait. */
  datatype Call = Deploy(id: Id) | HealthCheck(id: Id) | Rollback(id: Id) | Soak

  /** The calls made so far, latest outermost. */
  datatype History = Nothing | Then(before: History, call: Call)

  datatype Outcome = Deployed(artifact: string) | NotDeployed(error: string)
  datatype Probe = Healthy | Unhealthy(message: Option<string>)

  /** Arbitrary adapters: answers may depend on every call made before. `rollback` is false when it throws. */
  datatype World = World(
    deploy: (History, Id) -> Outcome,
    probe: (History, Id) -> Probe,
    rollback: (History, Id) -> bool)

  /** Which optional methods an adapter has. */
  datatype Adapter = Adapter(hasProbe: bool, hasRollback: bool)

  datatype PlanEntry = PlanEntry(id: Id, targetKey: string, kind: string)

  datatype AgentRecord = AgentRecord(target: string, ok: bool, artifact: Option<string>, error: Option<string>)

  type Targets = map<string, Adapter>

  /** The executor's variables, the calls made so far, and whether it threw (no adapter for a target). */
  datatype Run = Run(
    trace: History,
    deployed: seq<Id>,
    rolledBack: seq<Id>,
    outcomes: map<Id, AgentRecord>,
    failed: Option<Id>,
    threw: bool)

  const Start := Run(Nothing, [], [], map[], None, false)

  function Pick(targets: Targets, e: PlanEntry): Option<Adapter> {
    if e.targetKey in targets then Some(targets[e.targetKey])
    else if e.kind in targets then Some(targets[e.kind])
    else None
  }

  function Good(e: PlanEntry, artifact: string): AgentRecord {
    AgentRecord(e.targetKey, true, Some(artifact), None)
  }

  function Bad(e: PlanEntry, error: string): AgentRecord {
    AgentRecord(e.targetKey, false, None, Some(error))
  }

  function MessageOf(p: Probe): string {
    match p
    case Unhealthy(Some(m)) => m
    case _ => "failed"
  }

  function Fail(r: Run, e: PlanEntry, error: string): Run {
    r.(failed := Some(e.id), outcomes := r.outcomes[e.id := Bad(e, error)])
  }

  function RecordDeploy(r: Run, e: PlanEntry, artifact: string): Run {
    r.(deployed := r.deployed + [e.id], outcomes := r.outcomes[e.id := Good(e, artifact)])
  }

  /** Deploy one agent and probe it; the canary soaks before the probe and labels its error differently. */
  function DeployOne(w: World, targets: Targets, e: PlanEntry, r: Run, canary: bool): Run {
    match Pick(targets, e)
    case None => r.(threw := true)
    case Some(adapter) =>
      var r1 := r.(trace := Then(r.trace, Deploy(e.id)));
      match w.deploy(r.trace, e.id)
      case NotDeployed(error) => Fail(r1, e, error)
      case Deployed(artifact) =>
        var r2 := RecordDeploy(r1, e, artifact);
        var r3 := if canary then r2.(trace := Then(r2.trace, Soak)) else r2;
        if adapter.hasProbe then ProbeOne(w, e, r3, canary) else r3
  }

  function ProbeOne(w: World, e: PlanEntry, r: Run, canary: bool): Run {
    var r1 := r.(trace := Then(r.trace, HealthCheck(e.id)));
    var p := w.probe(r.trace, e.id);
    if p.Healthy? then r1
    else Fail(r1, e, (if canary then "canary-soak-health: " else "health-probe: ") + MessageOf(p))
  }

  predicate Stopped(r: Run) {
    r.failed.Some? || r.threw
  }

  /** The sequential roll-out loop. */
  function RollOut(w: World, targets: Targets, plan: seq<PlanEntry>, r: Run): Run {
    if plan == [] || Stopped(r) then r
    else RollOut(w, targets, plan[1..], DeployOne(w, targets, plan[0], r, false))
  }

  /** `plan.find((p) => p.agent.id === id)`. */
  function FindEntry(plan: seq<PlanEntry>, id: Id): (e: Option<PlanEntry>)
    ensures e.Some? ==> e.value in plan && e.value.id == id
    ensures e.None? ==> forall x | x in plan :: x.id != id
  {
    if plan == [] then None
    else if plan[0].id == id then Some(plan[0])
    else FindEntry(plan[1..], id)
  }

  function Reverse<T>(s: seq<T>): (r: seq<T>)
    ensures |r| == |s| && forall i | 0 <= i < |s| :: r[i] == s[|s| - 1 - i]
  {
    if s == [] then [] else Reverse(s[1..]) + [s[0]]
  }

  /** The rollback cascade over the given ids. */
  function RollBack(w: World, targets: Targets, plan: seq<PlanEntry>, ids: seq<Id>, r: Run): Run {
    if ids == [] || r.threw then r
    else RollBack(w, targets, plan, ids[1..], RollBackOne(w, targets, plan, ids[0], r))
  }

  function RollBackOne(w: World, targets: Targets, plan: seq<PlanEntry>, id: Id, r: Run): Run {
    match FindEntry(plan, id)
    case None => r
    case Some(e) =>
      match Pick(targets, e)
      case None => r.(threw := true)
      case Some(adapter) =>
        if !adapter.hasRollback then r
        else
          var r1 := r.(trace := Then(r.trace, Rollback(id)));
          if w.rollback(r.trace, id) then r1.(rolledBack := r1.rolledBack + [id]) else r1
  }

  function Cascade(w: World, targets: Targets, plan: seq<PlanEntry>, r: Run): Run {
    if r.failed.Some? && !r.threw then RollBack(w, targets, plan, Reverse(r.deployed), r) else r
  }

  function Rolling(w: World, targets: Targets, plan: seq<PlanEntry>): Run {
    Cascade(w, targets, plan, RollOut(w, targets, plan, Start))
  }

  function Canary(w: World, targets: Targets, plan: seq<PlanEntry>): Run {
    if plan == [] then Start
    else Cascade(w, targets, plan, RollOut(w, targets, plan[1..], DeployOne(w, targets, plan[0], Start, true)))
  }

  // ---------- all-or-nothing and per-agent ----------

  /** `Promise.all` over the plan: every resolvable entry is started in plan order. */
  function LaunchAll(w: World, targets: Targets, plan: seq<PlanEntry>, r: Run): Run {
    if plan == [] then r
    else
      var e := plan[0];
      LaunchAll(w, targets, plan[1..],
        if Pick(targets, e).None? then r.(threw := true) else r.(trace := Then(r.trace, Deploy(e.id))))
  }

  /** The answers the started deploys settle with, in plan order. */
  function Answers(w: World, plan: seq<PlanEntry>, trace: History): (a: seq<Outcome>)
    ensures |a| == |plan|
  {
    if plan == [] then []
    else [w.deploy(trace, plan[0].id)] + Answers(w, plan[1..], Then(trace, Deploy(plan[0].id)))
  }

  /** The bookkeeping loop over the settled deploys. */
  function Collect(plan: seq<PlanEntry>, answers: seq<Outcome>, r: Run): Run
    requires |answers| == |plan|
  {
    if plan == [] then r else Collect(plan[1..], answers[1..], CollectOne(plan[0], answers[0], r))
  }

  function CollectOne(e: PlanEntry, a: Outcome, r: Run): Run {
    match a
    case Deployed(artifact) => RecordDeploy(r, e, artifact)
    case NotDeployed(error) =>
      if r.failed.None? then Fail(r, e, error) else r.(outcomes := r.outcomes[e.id := Bad(e, error)])
  }

  function AllOrNothing(w: World, targets: Targets, plan: seq<PlanEntry>): Run {
    var r := LaunchAll(w, targets, plan, Start);
    if r.threw then r
    else Cascade(w, targets, plan, Collect(plan, Answers(w, plan, Nothing), r))
  }

  /** `per-agent`: outcomes are recorded as the deploys settle, in the order given by `order`. */
  function PerAgent(w: World, targets: Targets, plan: seq<PlanEntry>, order: seq<nat>): Run
    requires InRange(order, |plan|)
  {
    var r := LaunchAll(w, targets, plan, Start);
    if r.threw then r else SettleEach(plan, Answers(w, plan, Nothing), order, r)
  }

  predicate InRange(order: seq<nat>, n: nat) {
    forall k | 0 <= k < |order| :: order[k] < n
  }

  function SettleEach(plan: seq<PlanEntry>, answers: seq<Outcome>, order: seq<nat>, r: Run): Run
    requires |answers| == |plan| && InRange(order, |plan|)
  {
    if order == [] then r
    else SettleEach(plan, answers, order[1..], SettleOne(plan[order[0]], answers[order[0]], r))
  }

  function SettleOne(e: PlanEntry, a: Outcome, r: Run): Run {
    match a
    case Deployed(artifact) => RecordDeploy(r, e, artifact)
    case NotDeployed(error) => r.(outcomes := r.outcomes[e.id := Bad(e, error)])
  }

  /** The `ok` field of the result. */
  predicate Ok(r: Run) {
    r.failed.None? && forall id | id in r.outcomes :: r.outcomes[id].ok
  }

  // ---------- plans ----------

  function Ids(plan: seq<PlanEntry>): (r: seq<Id>)
    ensures |r| == |plan| && forall i | 0 <= i < |plan| :: r[i] == plan[i].id
  {
    seq(|plan|, i requires 0 <= i < |plan| => plan[i].id)
  }

  predicate Distinct(ids: seq<Id>) {
    forall i, j | 0 <= i < j < |ids| :: ids[i] != ids[j]
  }

  /** Every entry has an adapter. */
  predicate Resolves(targets: Targets, plan: seq<PlanEntry>) {
    forall e | e in plan :: Pick(targets, e).Some?
  }
}
