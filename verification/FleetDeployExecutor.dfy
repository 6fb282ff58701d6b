/** `executeDeploy` in its own form: loops that push onto `deployed`, `rolledBack` and `outcomes`. */
module FleetDeployExecutor {
  import opened Wrappers
  import opened FleetDeploy

  method ExecuteRolling(w: World, targets: Targets, plan: seq<PlanEntry>) returns (r: Run)
    ensures r == Rolling(w, targets, plan)
  {
    r := Start;
    r := RollOutFrom(w, targets, plan, r);
    r := RollBackAll(w, targets, plan, r);
  }

  method ExecuteCanary(w: World, targets: Targets, plan: seq<PlanEntry>) returns (r: Run)
    ensures r == Canary(w, targets, plan)
  {
    r := Start;
    if plan == [] { return; }
    r := DeployEntry(w, targets, plan[0], r, true);
    r := RollOutFrom(w, targets, plan[1..], r);
    r := RollBackAll(w, targets, plan, r);
  }

  method DeployEntry(w: World, targets: Targets, e: PlanEntry, start: Run, canary: bool) returns (r: Run)
    ensures r == DeployOne(w, targets, e, start, canary)
  {
    r := start;
    var picked := Pick(targets, e);
    if picked.None? { return r.(threw := true); }
    var outcome := w.deploy(r.trace, e.id);
    r := r.(trace := Then(r.trace, Deploy(e.id)));
    match outcome {
      case NotDeployed(error) =>
        r := r.(failed := Some(e.id), outcomes := r.outcomes[e.id := Bad(e, error)]);
      case Deployed(artifact) =>
        r := r.(deployed := r.deployed + [e.id], outcomes := r.outcomes[e.id := Good(e, artifact)]);
        if canary { r := r.(trace := Then(r.trace, Soak)); }
        if picked.value.hasProbe {
          var probe := w.probe(r.trace, e.id);
          r := r.(trace := Then(r.trace, HealthCheck(e.id)));
          if !probe.Healthy? {
            var prefix := if canary then "canary-soak-health: " else "health-probe: ";
            r := r.(failed := Some(e.id), outcomes := r.outcomes[e.id := Bad(e, prefix + MessageOf(probe))]);
          }
        }
    }
  }

  method RollOutFrom(w: World, targets: Targets, plan: seq<PlanEntry>, start: Run) returns (r: Run)
    ensures r == RollOut(w, targets, plan, start)
  {
    r := start;
    var i := 0;
    while i < |plan| && !Stopped(r)
      invariant i <= |plan| && RollOut(w, targets, plan[i..], r) == RollOut(w, targets, plan, start)
    {
      assert plan[i..][1..] == plan[i + 1..];
      r := DeployEntry(w, targets, plan[i], r, false);
      i := i + 1;
    }
  }

  /** The rollback loop that runs when an agent has failed. */
  method RollBackAll(w: World, targets: Targets, plan: seq<PlanEntry>, start: Run) returns (r: Run)
    ensures r == Cascade(w, targets, plan, start)
  {
    r := start;
    if r.failed.None? || r.threw { return; }
    var ids, i := Reverse(r.deployed), 0;
    while i < |ids| && !r.threw
      invariant i <= |ids| && RollBack(w, targets, plan, ids[i..], r) == RollBack(w, targets, plan, ids, start)
    {
      assert ids[i..][1..] == ids[i + 1..];
      var id := ids[i];
      i := i + 1;
      var entry := FindEntry(plan, id);
      if entry.None? { continue; }
      var picked := Pick(targets, entry.value);
      if picked.None? {
        r := r.(threw := true);
        continue;
      }
      if !picked.value.hasRollback { continue; }
      var done := w.rollback(r.trace, id);
      r := r.(trace := Then(r.trace, Rollback(id)));
      if done { r := r.(rolledBack := r.rolledBack + [id]); }
    }
  }

  method ExecuteAllOrNothing(w: World, targets: Targets, plan: seq<PlanEntry>) returns (r: Run)
    ensures r == AllOrNothing(w, targets, plan)
  {
    r := Start;
    for i := 0 to |plan|
      invariant LaunchAll(w, targets, plan[i..], r) == LaunchAll(w, targets, plan, Start)
    {
      assert plan[i..][1..] == plan[i + 1..];
      r := if Pick(targets, plan[i]).None? then r.(threw := true) else r.(trace := Then(r.trace, Deploy(plan[i].id)));
    }
    if r.threw { return; }
    ghost var launched := r;
    var answers := Answers(w, plan, Nothing);
    for i := 0 to |plan|
      invariant Collect(plan[i..], answers[i..], r) == Collect(plan, answers, launched)
    {
      assert plan[i..][1..] == plan[i + 1..] && answers[i..][1..] == answers[i + 1..];
      var e := plan[i];
      match answers[i] {
        case Deployed(artifact) => r := RecordDeploy(r, e, artifact);
        case NotDeployed(error) =>
          if r.failed.None? { r := r.(failed := Some(e.id)); }
          r := r.(outcomes := r.outcomes[e.id := Bad(e, error)]);
      }
    }
    r := RollBackAll(w, targets, plan, r);
  }

  method ExecutePerAgent(w: World, targets: Targets, plan: seq<PlanEntry>, order: seq<nat>) returns (r: Run)
    requires InRange(order, |plan|)
    ensures r == PerAgent(w, targets, plan, order)
  {
    r := Start;
    for i := 0 to |plan|
      invariant LaunchAll(w, targets, plan[i..], r) == LaunchAll(w, targets, plan, Start)
    {
      assert plan[i..][1..] == plan[i + 1..];
      r := if Pick(targets, plan[i]).None? then r.(threw := true) else r.(trace := Then(r.trace, Deploy(plan[i].id)));
    }
    if r.threw { return; }
    ghost var launched := r;
    var answers := Answers(w, plan, Nothing);
    for i := 0 to |order|
      invariant SettleEach(plan, answers, order[i..], r) == SettleEach(plan, answers, order, launched)
    {
      assert order[i..][1..] == order[i + 1..];
      var e := plan[order[i]];
      match answers[order[i]] {
        case Deployed(artifact) => r := RecordDeploy(r, e, artifact);
        case NotDeployed(error) => r := r.(outcomes := r.outcomes[e.id := Bad(e, error)]);
      }
    }
  }
}
