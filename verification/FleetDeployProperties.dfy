/** What the strategies guarantee for every plan and every adapter behaviour. */
module FleetDeployProperties {
  import opened Wrappers
  import opened Sequences
  import opened FleetDeploy

  // ---------- canary refines rolling ----------

  function NoSoak(t: History): History {
    match t
    case Nothing => Nothing
    case Then(before, c) => if c.Soak? then NoSoak(before) else Then(NoSoak(before), c)
  }

  /** Answers do not depend on whether a canary soaked before. */
  ghost predicate SoakBlind(w: World) {
    && (forall t, u, id | NoSoak(t) == NoSoak(u) :: w.deploy(t, id) == w.deploy(u, id))
    && (forall t, u, id | NoSoak(t) == NoSoak(u) :: w.probe(t, id) == w.probe(u, id))
    && (forall t, u, id | NoSoak(t) == NoSoak(u) :: w.rollback(t, id) == w.rollback(u, id))
  }

  predicate SameUpToError(a: AgentRecord, b: AgentRecord) {
    a.target == b.target && a.ok == b.ok && a.artifact == b.artifact && (a.error.None? <==> b.error.None?)
  }

  predicate OutcomesAlike(a: map<Id, AgentRecord>, b: map<Id, AgentRecord>) {
    a.Keys == b.Keys && forall id | id in a :: SameUpToError(a[id], b[id])
  }

  /** The same calls and the same result, up to the soak and to error text. */
  predicate Alike(a: Run, b: Run) {
    && NoSoak(a.trace) == NoSoak(b.trace) && a.deployed == b.deployed && a.rolledBack == b.rolledBack
    && a.failed == b.failed && a.threw == b.threw && OutcomesAlike(a.outcomes, b.outcomes)
  }

  lemma AlikeUpdate(a: map<Id, AgentRecord>, b: map<Id, AgentRecord>, id: Id, x: AgentRecord, y: AgentRecord)
    requires OutcomesAlike(a, b) && SameUpToError(x, y)
    ensures OutcomesAlike(a[id := x], b[id := y])
  {
  }

  lemma DeployOneAlike(w: World, targets: Targets, e: PlanEntry, a: Run, b: Run, ca: bool, cb: bool)
    requires SoakBlind(w) && Alike(a, b)
    ensures Alike(DeployOne(w, targets, e, a, ca), DeployOne(w, targets, e, b, cb))
  {
    var x := w.deploy(a.trace, e.id);
    assert x == w.deploy(b.trace, e.id);
    if Pick(targets, e).Some? {
      var a1, b1 := a.(trace := Then(a.trace, Deploy(e.id))), b.(trace := Then(b.trace, Deploy(e.id)));
      match x {
        case NotDeployed(error) => AlikeUpdate(a.outcomes, b.outcomes, e.id, Bad(e, error), Bad(e, error));
        case Deployed(artifact) =>
          AlikeUpdate(a.outcomes, b.outcomes, e.id, Good(e, artifact), Good(e, artifact));
          var a2, b2 := RecordDeploy(a1, e, artifact), RecordDeploy(b1, e, artifact);
          var a3 := if ca then a2.(trace := Then(a2.trace, Soak)) else a2;
          var b3 := if cb then b2.(trace := Then(b2.trace, Soak)) else b2;
          assert Alike(a3, b3);
          ProbeOneAlike(w, e, a3, b3, ca, cb);
      }
    }
  }

  lemma ProbeOneAlike(w: World, e: PlanEntry, a: Run, b: Run, ca: bool, cb: bool)
    requires SoakBlind(w) && Alike(a, b)
    ensures Alike(ProbeOne(w, e, a, ca), ProbeOne(w, e, b, cb))
  {
    assert w.probe(a.trace, e.id) == w.probe(b.trace, e.id);
  }

  lemma {:induction false} RollOutAlike(w: World, targets: Targets, plan: seq<PlanEntry>, a: Run, b: Run)
    requires SoakBlind(w) && Alike(a, b)
    ensures Alike(RollOut(w, targets, plan, a), RollOut(w, targets, plan, b))
  {
    if plan != [] && !Stopped(a) {
      DeployOneAlike(w, targets, plan[0], a, b, false, false);
      var e := plan[0];
      RollOutAlike(w, targets, plan[1..], DeployOne(w, targets, e, a, false), DeployOne(w, targets, e, b, false));
    }
  }

  lemma {:induction false} RollBackAlike(w: World, targets: Targets, plan: seq<PlanEntry>, ids: seq<Id>, a: Run, b: Run)
    requires SoakBlind(w) && Alike(a, b)
    ensures Alike(RollBack(w, targets, plan, ids, a), RollBack(w, targets, plan, ids, b))
  {
    if ids != [] && !a.threw {
      assert w.rollback(a.trace, ids[0]) == w.rollback(b.trace, ids[0]);
      RollBackAlike(w, targets, plan, ids[1..],
        RollBackOne(w, targets, plan, ids[0], a), RollBackOne(w, targets, plan, ids[0], b));
    }
  }

  /** For every plan, `canary` makes the calls of `rolling` in the same order and returns the same result up to
      error text, if the adapters' answers do not depend on the soak. */
  lemma CanaryIsRolling(w: World, targets: Targets, plan: seq<PlanEntry>)
    requires SoakBlind(w)
    ensures Alike(Canary(w, targets, plan), Rolling(w, targets, plan))
    ensures Ok(Canary(w, targets, plan)) <==> Ok(Rolling(w, targets, plan))
  {
    if plan != [] {
      DeployOneAlike(w, targets, plan[0], Start, Start, true, false);
      var a, b := DeployOne(w, targets, plan[0], Start, true), DeployOne(w, targets, plan[0], Start, false);
      RollOutAlike(w, targets, plan[1..], a, b);
      var ra, rb := RollOut(w, targets, plan[1..], a), RollOut(w, targets, plan[1..], b);
      RollBackAlike(w, targets, plan, Reverse(ra.deployed), ra, rb);
    }
  }

  // ---------- how far a roll-out gets ----------

  /** The ids handed to `deploy`, in call order. */
  function Contacted(t: History): seq<Id> {
    match t
    case Nothing => []
    case Then(before, c) => if c.Deploy? then Contacted(before) + [c.id] else Contacted(before)
  }

  /** The ids handed to `rollback`, in call order. */
  function Undone(t: History): seq<Id> {
    match t
    case Nothing => []
    case Then(before, c) => if c.Rollback? then Undone(before) + [c.id] else Undone(before)
  }

  /** Of these, the ones whose rollback did not throw. */
  function UndoneOk(w: World, t: History): seq<Id> {
    match t
    case Nothing => []
    case Then(before, c) =>
      if c.Rollback? && w.rollback(before, c.id) then UndoneOk(w, before) + [c.id] else UndoneOk(w, before)
  }

  /** The agents running the new version after these calls: a successful deploy adds one, a successful rollback
      restores its old version, nothing else has an effect. */
  function NewLive(w: World, t: History): set<Id> {
    match t
    case Nothing => {}
    case Then(before, c) =>
      if c.Deploy? && w.deploy(before, c.id).Deployed? then NewLive(w, before) + {c.id}
      else if c.Rollback? && w.rollback(before, c.id) then NewLive(w, before) - {c.id}
      else NewLive(w, before)
  }

  function SetOf(ids: seq<Id>): (r: set<Id>)
    ensures forall x :: x in r <==> x in ids
  {
    set x | x in ids
  }

  /** Bookkeeping agrees with the calls made: nothing undone yet, and exactly the deployed agents run the new
      version. */
  predicate Booked(w: World, r: Run) {
    && Undone(r.trace) == [] && UndoneOk(w, r.trace) == [] && r.rolledBack == []
    && NewLive(w, r.trace) == SetOf(r.deployed)
  }

  /** How one turn of the loop ends. */
  datatype Turn = Passed | DeployFailed | ProbeFailed | NoAdapter

  function TurnOf(w: World, targets: Targets, e: PlanEntry, r: Run, canary: bool): Turn {
    match Pick(targets, e)
    case None => NoAdapter
    case Some(a) =>
      if w.deploy(r.trace, e.id).NotDeployed? then DeployFailed
      else if a.hasProbe && w.probe(AfterDeploy(r.trace, e.id, canary), e.id).Unhealthy? then ProbeFailed
      else Passed
  }

  function AfterDeploy(t: History, id: Id, canary: bool): History {
    if canary then Then(Then(t, Deploy(id)), Soak) else Then(t, Deploy(id))
  }

  predicate TurnResult(w: World, targets: Targets, e: PlanEntry, r: Run, r': Run, t: Turn) {
    && r'.deployed == r.deployed + (if t.Passed? || t.ProbeFailed? then [e.id] else [])
    && Contacted(r'.trace) == Contacted(r.trace) + (if t.NoAdapter? then [] else [e.id])
    && r'.failed == (if t.DeployFailed? || t.ProbeFailed? then Some(e.id) else None)
    && (r'.threw <==> t.NoAdapter?) && (t.NoAdapter? <==> Pick(targets, e).None?)
    && (t.ProbeFailed? ==> Pick(targets, e).value.hasProbe)
  }

  lemma DeployOneTurn(w: World, targets: Targets, e: PlanEntry, r: Run, canary: bool)
    requires !Stopped(r) && Booked(w, r)
    ensures var r' := DeployOne(w, targets, e, r, canary);
      Booked(w, r') && TurnResult(w, targets, e, r, r', TurnOf(w, targets, e, r, canary))
  {
    assert SetOf(r.deployed + [e.id]) == SetOf(r.deployed) + {e.id};
    var r' := DeployOne(w, targets, e, r, canary);
    match TurnOf(w, targets, e, r, canary) {
      case NoAdapter => assert r' == r.(threw := true);
      case DeployFailed => assert r'.trace == Then(r.trace, Deploy(e.id)) && r'.deployed == r.deployed;
      case _ =>
        var after := AfterDeploy(r.trace, e.id, canary);
        NoEffect(w, Then(r.trace, Deploy(e.id)), Soak);
        NoEffect(w, after, HealthCheck(e.id));
        assert r'.trace == after || r'.trace == Then(after, HealthCheck(e.id));
    }
  }

  /** A probe or a soak changes no version. */
  lemma NoEffect(w: World, t: History, c: Call)
    requires c.HealthCheck? || c.Soak?
    ensures var t' := Then(t, c);
      && Contacted(t') == Contacted(t) && Undone(t') == Undone(t) && UndoneOk(w, t') == UndoneOk(w, t)
      && NewLive(w, t') == NewLive(w, t)
  {
  }

  /** A roll-out contacts exactly a prefix of the plan and stops at the first trouble. `k` agents are deployed, all of
      them with an adapter; a failed deploy leaves the failing agent, the `k`-th, out of `deployed`, a failed probe
      includes it as the last. */
  predicate StoppedAt(targets: Targets, plan: seq<PlanEntry>, r: Run, r': Run, k: nat, t: Turn) {
    && k <= |plan| && r'.deployed == r.deployed + Ids(plan[..k])
    && (forall i | 0 <= i < k :: Pick(targets, plan[i]).Some?)
    && match t
       case Passed => k == |plan| && !Stopped(r') && Contacted(r'.trace) == Contacted(r.trace) + Ids(plan)
       case DeployFailed =>
         && k < |plan| && !r'.threw && r'.failed == Some(plan[k].id) && Pick(targets, plan[k]).Some?
         && Contacted(r'.trace) == Contacted(r.trace) + Ids(plan[..k + 1])
       case ProbeFailed =>
         && k > 0 && !r'.threw && r'.failed == Some(plan[k - 1].id) && Pick(targets, plan[k - 1]).value.hasProbe
         && Contacted(r'.trace) == Contacted(r.trace) + Ids(plan[..k])
       case NoAdapter =>
         && k < |plan| && r'.threw && r'.failed.None? && Pick(targets, plan[k]).None?
         && Contacted(r'.trace) == Contacted(r.trace) + Ids(plan[..k])
  }

  lemma IdsCons(plan: seq<PlanEntry>, m: nat)
    requires plan != [] && m < |plan|
    ensures Ids(plan[..m + 1]) == [plan[0].id] + Ids(plan[1..][..m]) && plan[..0] == [] && plan[..|plan|] == plan
  {
    assert plan[..m + 1] == [plan[0]] + plan[1..][..m];
  }

  lemma {:induction false} RollOutStops(w: World, targets: Targets, plan: seq<PlanEntry>, r: Run)
    returns (k: nat, t: Turn)
    requires !Stopped(r) && Booked(w, r)
    ensures var r' := RollOut(w, targets, plan, r); Booked(w, r') && StoppedAt(targets, plan, r, r', k, t)
    decreases plan, 1
  {
    if plan == [] {
      k, t := 0, Passed;
      assert plan[..0] == plan && Ids(plan) == [];
    } else {
      k, t := TurnThenStops(w, targets, plan, r, false);
    }
  }

  /** One turn, the canary's or an ordinary one, followed by the loop over the rest. */
  lemma TurnThenStops(w: World, targets: Targets, plan: seq<PlanEntry>, r: Run, canary: bool) returns (k: nat, t: Turn)
    requires !Stopped(r) && Booked(w, r) && plan != []
    ensures var r' := RollOut(w, targets, plan[1..], DeployOne(w, targets, plan[0], r, canary));
      Booked(w, r') && StoppedAt(targets, plan, r, r', k, t)
    decreases plan, 0
  {
    var e, more := plan[0], plan[1..];
    var r1 := DeployOne(w, targets, e, r, canary);
    t := TurnOf(w, targets, e, r, canary);
    DeployOneTurn(w, targets, e, r, canary);
    IdsCons(plan, 0);
    if t == Passed {
      k, t := RollOutStops(w, targets, more, r1);
      StopsCons(targets, plan, r, r1, RollOut(w, targets, more, r1), k, t);
      k := k + 1;
    } else {
      k := if t == ProbeFailed then 1 else 0;
      assert RollOut(w, targets, more, r1) == r1;
    }
  }

  lemma StopsCons(targets: Targets, plan: seq<PlanEntry>, r: Run, r1: Run, r': Run, m: nat, t: Turn)
    requires plan != [] && StoppedAt(targets, plan[1..], r1, r', m, t) && Pick(targets, plan[0]).Some?
    requires r1.deployed == r.deployed + [plan[0].id] && Contacted(r1.trace) == Contacted(r.trace) + [plan[0].id]
    ensures StoppedAt(targets, plan, r, r', m + 1, t)
  {
    var x, more, c := plan[0].id, plan[1..], Contacted(r.trace);
    IdsCons(plan, m);
    Regroup(r.deployed, [x], Ids(more[..m]));
    match t {
      case Passed =>
        assert more[..m] == more && plan[..m + 1] == plan;
        Regroup(c, [x], Ids(more));
      case DeployFailed =>
        IdsCons(plan, m + 1);
        Regroup(c, [x], Ids(more[..m + 1]));
      case _ =>
        Regroup(c, [x], Ids(more[..m]));
    }
  }
}
