/** The in-memory adapter of packages/cli/src/fleet-deploy-cli.ts, and what the rolling strategy does with it. */
module MemoryTarget {
  import opened Wrappers
  import opened FleetDeploy
  import opened FleetDeployProperties
  import opened FleetDeployAtomic

  /** The agents with a health entry after these calls. */
  function Health(failFor: Id -> bool, t: History): set<Id> {
    match t
    case Nothing => {}
    case Then(before, Deploy(id)) => if failFor(id) then Health(failFor, before) else Health(failFor, before) + {id}
    case Then(before, Rollback(id)) => Health(failFor, before) - {id}
    case Then(before, _) => Health(failFor, before)
  }

  function DeployAnswer(failFor: Id -> bool, version: string, id: Id): Outcome {
    if failFor(id) then NotDeployed("memory-target: injected failure for " + id)
    else Deployed("memory://" + id + "@" + version)
  }

  function ProbeAnswer(health: set<Id>, id: Id): Probe {
    if id in health then Healthy else Unhealthy(Some("no health for " + id))
  }

  /** The adapter as the executor sees it, while nobody else changes its health map. */
  function Memory(failFor: Id -> bool, version: string): World {
    World((_, id) => DeployAnswer(failFor, version, id),
          (t, id) => ProbeAnswer(Health(failFor, t), id),
          (_, _) => true)
  }

  /** Its health map is exactly the set of agents on the new version. */
  lemma {:induction false} HealthIsLive(failFor: Id -> bool, version: string, t: History)
    ensures Health(failFor, t) == NewLive(Memory(failFor, version), t)
  {
    if t.Then? { HealthIsLive(failFor, version, t.before); }
  }

  /** The first entry the adapter is told to fail. */
  function FirstFailing(failFor: Id -> bool, plan: seq<PlanEntry>): Option<Id> {
    if plan == [] then None
    else if failFor(plan[0].id) then Some(plan[0].id)
    else FirstFailing(failFor, plan[1..])
  }

  lemma {:induction false} MemoryRollOut(
    failFor: Id -> bool, version: string, targets: Targets, plan: seq<PlanEntry>, r: Run)
    requires Resolves(targets, plan) && !Stopped(r)
    ensures var r' := RollOut(Memory(failFor, version), targets, plan, r);
      !r'.threw && r'.failed == FirstFailing(failFor, plan)
  {
    if plan != [] {
      var w := Memory(failFor, version);
      assert plan[0] in plan;
      var r1 := DeployOne(w, targets, plan[0], r, false);
      if failFor(plan[0].id) {
        assert RollOut(w, targets, plan[1..], r1) == r1;
      } else {
        MemoryRollOut(failFor, version, targets, plan[1..], r1);
      }
    }
  }

  /** With the memory adapter the only failures of `rolling` are the injected ones, and at the end either all agents of
      the plan have a health entry or none has. */
  lemma MemoryRolling(failFor: Id -> bool, version: string, targets: Targets, plan: seq<PlanEntry>)
    requires Resolves(targets, plan) && forall key | key in targets :: targets[key] == Adapter(true, true)
    ensures var r := Rolling(Memory(failFor, version), targets, plan);
      && !r.threw && r.failed == FirstFailing(failFor, plan)
      && Health(failFor, r.trace) == (if FirstFailing(failFor, plan).None? then SetOf(Ids(plan)) else {})
  {
    var w := Memory(failFor, version);
    MemoryRollOut(failFor, version, targets, plan, Start);
    var r1 := RollOut(w, targets, plan, Start);
    NoThrow(w, targets, plan, Reverse(r1.deployed), r1);
    assert TotalRollback(w, targets, plan);
    RollingAtomic(w, targets, plan);
    HealthIsLive(failFor, version, Rolling(w, targets, plan).trace);
  }

  /** The object `createMemoryDeployTarget` returns. */
  class Target {
    const failFor: Id -> bool
    const version: string
    var deployed: seq<Id>
    var rolledBack: seq<Id>
    var health: set<Id>
    // The calls so far.
    ghost var calls: History

    ghost predicate Valid()
      reads this
    {
      && health == Health(failFor, calls)
      && rolledBack == UndoneOk(Memory(failFor, version), calls)
      && health <= SetOf(deployed)
    }

    constructor (failFor: Id -> bool, version: string)
      ensures Valid() && calls == Nothing && this.failFor == failFor && this.version == version
    {
      this.failFor, this.version := failFor, version;
      deployed, rolledBack, health, calls := [], [], {}, Nothing;
    }

    method CallDeploy(id: Id) returns (outcome: Outcome)
      requires Valid()
      modifies this
      ensures Valid() && calls == Then(old(calls), Deploy(id))
      ensures outcome == Memory(failFor, version).deploy(old(calls), id)
      ensures deployed == if outcome.Deployed? then old(deployed) + [id] else old(deployed)
    {
      calls := Then(calls, Deploy(id));
      if failFor(id) { return NotDeployed("memory-target: injected failure for " + id); }
      deployed := deployed + [id];
      health := health + {id};
      outcome := Deployed("memory://" + id + "@" + version);
    }

    method CallHealthCheck(id: Id) returns (probe: Probe)
      requires Valid()
      modifies this
      ensures Valid() && calls == Then(old(calls), HealthCheck(id)) && deployed == old(deployed)
      ensures probe == Memory(failFor, version).probe(old(calls), id)
    {
      calls := Then(calls, HealthCheck(id));
      probe := if id in health then Healthy else Unhealthy(Some("no health for " + id));
    }

    method CallRollback(id: Id)
      requires Valid()
      modifies this
      ensures Valid() && calls == Then(old(calls), Rollback(id)) && deployed == old(deployed)
      ensures rolledBack == old(rolledBack) + [id]
    {
      calls := Then(calls, Rollback(id));
      rolledBack := rolledBack + [id];
      health := health - {id};
    }
  }
}
