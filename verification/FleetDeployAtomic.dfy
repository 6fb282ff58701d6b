/** What is left running after a fleet deploy: rollback order, and all-or-nothing over the whole plan. */
module FleetDeployAtomic {
  import opened Wrappers
  import opened Sequences
  import opened FleetDeploy
  import opened FleetDeployProperties

  /** The adapter `rollback` is looked up on for an id. */
  function AdapterOf(targets: Targets, plan: seq<PlanEntry>, id: Id): Option<Adapter> {
    match FindEntry(plan, id)
    case None => None
    case Some(e) => Pick(targets, e)
  }

  /** The ids, in order, whose adapter can roll back. */
  function WithRollback(targets: Targets, plan: seq<PlanEntry>, ids: seq<Id>): seq<Id> {
    if ids == [] then []
    else
      (match AdapterOf(targets, plan, ids[0])
       case Some(a) => if a.hasRollback then [ids[0]] else []
       case None => [])
      + WithRollback(targets, plan, ids[1..])
  }

  /** Everything but the calls and `rolledBack` stays as it is. */
  predicate OnlyRollsBack(r: Run, r': Run) {
    !r'.threw && r'.deployed == r.deployed && r'.failed == r.failed && r'.outcomes == r.outcomes
  }

  lemma WithRollbackCons(targets: Targets, plan: seq<PlanEntry>, ids: seq<Id>)
    requires ids != []
    ensures WithRollback(targets, plan, ids)
         == WithRollback(targets, plan, [ids[0]]) + WithRollback(targets, plan, ids[1..])
  {
    assert [ids[0]][1..] == [];
  }

  lemma RollBackOneUndoes(w: World, targets: Targets, plan: seq<PlanEntry>, id: Id, r: Run)
    requires !r.threw && AdapterOf(targets, plan, id).Some?
    ensures var r' := RollBackOne(w, targets, plan, id, r);
      && OnlyRollsBack(r, r') && Contacted(r'.trace) == Contacted(r.trace)
      && Undone(r'.trace) == Undone(r.trace) + WithRollback(targets, plan, [id])
      && (r.rolledBack == UndoneOk(w, r.trace) ==> r'.rolledBack == UndoneOk(w, r'.trace))
  {
  }

  /** What rolling back some ids does to a run. */
  predicate UndoesThese(w: World, targets: Targets, plan: seq<PlanEntry>, ids: seq<Id>, r: Run, r': Run) {
    && OnlyRollsBack(r, r') && Contacted(r'.trace) == Contacted(r.trace)
    && Undone(r'.trace) == Undone(r.trace) + WithRollback(targets, plan, ids)
    && r'.rolledBack == UndoneOk(w, r'.trace)
  }

  lemma UndoesMore(w: World, targets: Targets, plan: seq<PlanEntry>, ids: seq<Id>, r: Run, r1: Run, r2: Run)
    requires ids != []
    requires UndoesThese(w, targets, plan, [ids[0]], r, r1) && UndoesThese(w, targets, plan, ids[1..], r1, r2)
    ensures UndoesThese(w, targets, plan, ids, r, r2)
  {
    WithRollbackCons(targets, plan, ids);
  }

  lemma {:induction false} RollBackUndoes(w: World, targets: Targets, plan: seq<PlanEntry>, ids: seq<Id>, r: Run)
    requires !r.threw && r.rolledBack == UndoneOk(w, r.trace)
    requires forall id | id in ids :: AdapterOf(targets, plan, id).Some?
    ensures UndoesThese(w, targets, plan, ids, r, RollBack(w, targets, plan, ids, r))
  {
    if ids == [] {
      assert Undone(r.trace) + [] == Undone(r.trace);
    } else {
      assert ids[0] in ids;
      var r1 := RollBackOne(w, targets, plan, ids[0], r);
      RollBackOneUndoes(w, targets, plan, ids[0], r);
      RollBackUndoes(w, targets, plan, ids[1..], r1);
      UndoesMore(w, targets, plan, ids, r, r1, RollBack(w, targets, plan, ids[1..], r1));
    }
  }

  /** With an adapter for every entry nothing throws. */
  lemma {:induction false} NoThrowRollOut(w: World, targets: Targets, plan: seq<PlanEntry>, r: Run)
    requires Resolves(targets, plan) && !r.threw
    ensures !RollOut(w, targets, plan, r).threw
  {
    if plan != [] && !Stopped(r) {
      assert plan[0] in plan;
      NoThrowRollOut(w, targets, plan[1..], DeployOne(w, targets, plan[0], r, false));
    }
  }

  lemma {:induction false} NoThrow(w: World, targets: Targets, plan: seq<PlanEntry>, ids: seq<Id>, r: Run)
    requires !r.threw && Resolves(targets, plan)
    ensures OnlyRollsBack(r, RollBack(w, targets, plan, ids, r))
  {
    if ids != [] { NoThrow(w, targets, plan, ids[1..], RollBackOne(w, targets, plan, ids[0], r)); }
  }

  lemma FindInPlan(plan: seq<PlanEntry>, k: nat, targets: Targets)
    requires k <= |plan| && Resolves(targets, plan)
    ensures forall id | id in Ids(plan[..k]) :: AdapterOf(targets, plan, id).Some?
  {
    forall id | id in Ids(plan[..k]) ensures AdapterOf(targets, plan, id).Some? {
      var i :| 0 <= i < k && Ids(plan[..k])[i] == id;
      assert plan[i] in plan && plan[i].id == id;
    }
  }

  lemma ReverseElements(ids: seq<Id>)
    ensures forall x :: x in Reverse(ids) <==> x in ids
  {
    forall x ensures x in Reverse(ids) <==> x in ids {
      if x in ids {
        var i :| 0 <= i < |ids| && ids[i] == x;
        assert Reverse(ids)[|ids| - 1 - i] == x;
      }
    }
  }

  /** `rolling` from start to end: `deployed` is the prefix of the plan that was deployed; without a failure it is the
      whole plan and nothing is rolled back; after one the rollback calls are `deployed` in reverse, as far as the
      adapters can roll back, and `rolledBack` holds exactly the ones that succeeded. */
  lemma RollingOutcome(w: World, targets: Targets, plan: seq<PlanEntry>) returns (k: nat, t: Turn)
    requires Resolves(targets, plan)
    ensures var r := Rolling(w, targets, plan);
      && !r.threw && k <= |plan| && r.deployed == Ids(plan[..k])
      && StoppedAt(targets, plan, Start, r, k, t)
      && r.rolledBack == UndoneOk(w, r.trace)
      && Undone(r.trace) == (if r.failed.None? then [] else WithRollback(targets, plan, Reverse(r.deployed)))
      && (r.failed.None? ==> k == |plan| && r.rolledBack == [])
  {
    k, t := RollOutStops(w, targets, plan, Start);
    NoThrowRollOut(w, targets, plan, Start);
    var r1 := RollOut(w, targets, plan, Start);
    assert r1.deployed == Ids(plan[..k]);
    if r1.failed.Some? {
      FindInPlan(plan, k, targets);
      ReverseElements(r1.deployed);
      RollBackUndoes(w, targets, plan, Reverse(r1.deployed), r1);
    }
  }

  // ---------- what is live at the end ----------

  /** Rollback never throws and every adapter of the plan has one. */
  ghost predicate TotalRollback(w: World, targets: Targets, plan: seq<PlanEntry>) {
    && (forall t, id :: w.rollback(t, id))
    && forall e | e in plan && Pick(targets, e).Some? :: Pick(targets, e).value.hasRollback
  }

  lemma RollBackOneEmpties(w: World, targets: Targets, plan: seq<PlanEntry>, id: Id, r: Run)
    requires TotalRollback(w, targets, plan) && !r.threw && AdapterOf(targets, plan, id).Some?
    ensures var r' := RollBackOne(w, targets, plan, id, r);
      OnlyRollsBack(r, r') && r'.rolledBack == r.rolledBack + [id] && NewLive(w, r'.trace) == NewLive(w, r.trace) - {id}
  {
  }

  lemma {:induction false} RollBackEmpties(w: World, targets: Targets, plan: seq<PlanEntry>, ids: seq<Id>, r: Run)
    requires TotalRollback(w, targets, plan) && !r.threw
    requires forall id | id in ids :: AdapterOf(targets, plan, id).Some?
    ensures var r' := RollBack(w, targets, plan, ids, r);
      && OnlyRollsBack(r, r') && r'.rolledBack == r.rolledBack + ids
      && NewLive(w, r'.trace) == NewLive(w, r.trace) - SetOf(ids)
  {
    if ids == [] {
      assert r.rolledBack + [] == r.rolledBack;
    } else {
      assert ids[0] in ids;
      RollBackOneEmpties(w, targets, plan, ids[0], r);
      RollBackEmpties(w, targets, plan, ids[1..], RollBackOne(w, targets, plan, ids[0], r));
      assert r.rolledBack + ids == r.rolledBack + [ids[0]] + ids[1..];
      assert SetOf(ids) == {ids[0]} + SetOf(ids[1..]);
    }
  }

  lemma CascadeEmpties(w: World, targets: Targets, plan: seq<PlanEntry>, r: Run)
    requires TotalRollback(w, targets, plan) && !r.threw && r.failed.Some?
    requires NewLive(w, r.trace) == SetOf(r.deployed)
    requires forall id | id in r.deployed :: AdapterOf(targets, plan, id).Some?
    ensures var r' := Cascade(w, targets, plan, r);
      OnlyRollsBack(r, r') && NewLive(w, r'.trace) == {} && r'.rolledBack == r.rolledBack + Reverse(r.deployed)
  {
    ReverseElements(r.deployed);
    RollBackEmpties(w, targets, plan, Reverse(r.deployed), r);
    assert SetOf(Reverse(r.deployed)) == SetOf(r.deployed);
  }

  /** With rollbacks that always succeed, `rolling` ends with the whole plan on the new version, or with nothing on
      it and every deployed agent rolled back in reverse order. */
  lemma RollingAtomic(w: World, targets: Targets, plan: seq<PlanEntry>)
    requires Resolves(targets, plan) && TotalRollback(w, targets, plan)
    ensures var r := Rolling(w, targets, plan);
      && NewLive(w, r.trace) == (if r.failed.None? then SetOf(Ids(plan)) else {})
      && r.rolledBack == (if r.failed.None? then [] else Reverse(r.deployed))
  {
    NoThrowRollOut(w, targets, plan, Start);
    var k := RolledOut(w, targets, plan);
    var r1 := RollOut(w, targets, plan, Start);
    if r1.failed.Some? {
      FindInPlan(plan, k, targets);
      CascadeEmpties(w, targets, plan, r1);
      assert [] + Reverse(r1.deployed) == Reverse(r1.deployed);
    }
  }

  /** The roll-out from the start, as far as it concerns what is live. */
  lemma RolledOut(w: World, targets: Targets, plan: seq<PlanEntry>) returns (k: nat)
    ensures var r := RollOut(w, targets, plan, Start);
      && k <= |plan| && r.deployed == Ids(plan[..k]) && NewLive(w, r.trace) == SetOf(r.deployed) && r.rolledBack == []
      && (!Stopped(r) ==> r.deployed == Ids(plan)) && (r.threw ==> k < |plan| && r.failed.None?)
  {
    var t: Turn;
    k, t := RollOutStops(w, targets, plan, Start);
    assert [] + Ids(plan[..k]) == Ids(plan[..k]);
    assert plan[..|plan|] == plan;
  }

  // ---------- canary ----------

  lemma {:induction false} NoSoakTwice(t: History)
    ensures NoSoak(NoSoak(t)) == NoSoak(t)
  {
    if t.Then? { NoSoakTwice(t.before); }
  }

  lemma {:induction false} NewLiveNoSoak(w: World, t: History)
    requires SoakBlind(w)
    ensures NewLive(w, t) == NewLive(w, NoSoak(t))
  {
    if t.Then? {
      NewLiveNoSoak(w, t.before);
      NoSoakTwice(t.before);
      assert t.call.Deploy? ==> w.deploy(t.before, t.call.id) == w.deploy(NoSoak(t.before), t.call.id);
      assert t.call.Rollback? ==> w.rollback(t.before, t.call.id) == w.rollback(NoSoak(t.before), t.call.id);
    }
  }

  /** `canary` ends like `rolling`: with the same agents live, thrown or not, and all-or-nothing on the same plans. */
  lemma CanaryAtomic(w: World, targets: Targets, plan: seq<PlanEntry>)
    requires SoakBlind(w)
    ensures var r, s := Canary(w, targets, plan), Rolling(w, targets, plan);
      && NewLive(w, r.trace) == NewLive(w, s.trace) && r.threw == s.threw && r.rolledBack == s.rolledBack
      && (Resolves(targets, plan) && TotalRollback(w, targets, plan) ==>
            NewLive(w, r.trace) == if r.failed.None? then SetOf(Ids(plan)) else {})
  {
    CanaryIsRolling(w, targets, plan);
    NewLiveNoSoak(w, Canary(w, targets, plan).trace);
    NewLiveNoSoak(w, Rolling(w, targets, plan).trace);
    if Resolves(targets, plan) && TotalRollback(w, targets, plan) { RollingAtomic(w, targets, plan); }
  }

  // ---------- all-or-nothing and per-agent ----------

  /** The history after starting every deploy of the plan in order. */
  function DeployAll(plan: seq<PlanEntry>, t: History): History {
    if plan == [] then t else DeployAll(plan[1..], Then(t, Deploy(plan[0].id)))
  }

  /** The history after starting every deploy that has an adapter. */
  function StartAll(targets: Targets, plan: seq<PlanEntry>, t: History): History {
    if plan == [] then t
    else StartAll(targets, plan[1..], if Pick(targets, plan[0]).Some? then Then(t, Deploy(plan[0].id)) else t)
  }

  lemma {:induction false} LaunchStarts(w: World, targets: Targets, plan: seq<PlanEntry>, r: Run)
    ensures LaunchAll(w, targets, plan, r)
      == r.(trace := StartAll(targets, plan, r.trace), threw := r.threw || !Resolves(targets, plan))
  {
    if plan != [] {
      var e := plan[0];
      var r1 := if Pick(targets, e).None? then r.(threw := true) else r.(trace := Then(r.trace, Deploy(e.id)));
      LaunchStarts(w, targets, plan[1..], r1);
      assert plan == [e] + plan[1..];
      assert Resolves(targets, plan) <==> Pick(targets, e).Some? && Resolves(targets, plan[1..]);
    }
  }

  lemma {:induction false} LaunchTrace(w: World, targets: Targets, plan: seq<PlanEntry>, r: Run)
    requires Resolves(targets, plan)
    ensures LaunchAll(w, targets, plan, r) == r.(trace := DeployAll(plan, r.trace))
  {
    if plan != [] {
      assert plan[0] in plan;
      LaunchTrace(w, targets, plan[1..], r.(trace := Then(r.trace, Deploy(plan[0].id))));
    }
  }

  /** The bookkeeping loop touches nothing but `deployed`, `failed` and `outcomes`. */
  predicate Books(r: Run, r': Run) {
    r'.trace == r.trace && r'.threw == r.threw && r'.rolledBack == r.rolledBack
  }

  /** The settled deploys, booked in plan order, are the agents the calls brought live. */
  lemma {:induction false} CollectLive(w: World, plan: seq<PlanEntry>, t: History, r: Run)
    requires NewLive(w, t) == SetOf(r.deployed)
    ensures NewLive(w, DeployAll(plan, t)) == SetOf(Collect(plan, Answers(w, plan, t), r).deployed)
  {
    if plan != [] {
      var e := plan[0];
      var next := Then(t, Deploy(e.id));
      var answers := Answers(w, plan, t);
      assert answers[0] == w.deploy(t, e.id) && answers[1..] == Answers(w, plan[1..], next);
      var r1 := CollectOne(e, answers[0], r);
      assert SetOf(r.deployed + [e.id]) == SetOf(r.deployed) + {e.id};
      CollectLive(w, plan[1..], next, r1);
    }
  }

  lemma {:induction false} CollectBooks(plan: seq<PlanEntry>, answers: seq<Outcome>, r: Run)
    requires |answers| == |plan|
    ensures var r' := Collect(plan, answers, r);
      && Books(r, r') && (r'.failed.None? ==> r.failed.None? && r'.deployed == r.deployed + Ids(plan))
  {
    if plan == [] {
      assert r.deployed + [] == r.deployed;
    } else {
      CollectBooks(plan[1..], answers[1..], CollectOne(plan[0], answers[0], r));
      Regroup(r.deployed, [plan[0].id], Ids(plan[1..]));
      assert Ids(plan) == [plan[0].id] + Ids(plan[1..]);
    }
  }

  lemma {:induction false} CollectSubset(plan: seq<PlanEntry>, answers: seq<Outcome>, r: Run, id: Id)
    requires |answers| == |plan| && id in Collect(plan, answers, r).deployed
    ensures id in r.deployed || id in Ids(plan)
  {
    if plan != [] {
      CollectSubset(plan[1..], answers[1..], CollectOne(plan[0], answers[0], r), id);
      assert Ids(plan) == [plan[0].id] + Ids(plan[1..]);
    }
  }

  /** `all-or-nothing` starts every agent that has an adapter. When all have one, and with rollbacks that always
      succeed, it ends like its name; otherwise it throws with whatever was deployed left as it is. */
  lemma AllOrNothingOutcome(w: World, targets: Targets, plan: seq<PlanEntry>)
    ensures var r := AllOrNothing(w, targets, plan);
      && (r.threw <==> !Resolves(targets, plan))
      && (r.threw ==> r.deployed == [] && r.rolledBack == [] && r.trace == StartAll(targets, plan, Nothing))
      && (!r.threw && TotalRollback(w, targets, plan) ==>
            && NewLive(w, r.trace) == (if r.failed.None? then SetOf(Ids(plan)) else {})
            && r.rolledBack == (if r.failed.None? then [] else Reverse(r.deployed)))
  {
    LaunchStarts(w, targets, plan, Start);
    if Resolves(targets, plan) {
      CollectBooks(plan, Answers(w, plan, Nothing), LaunchAll(w, targets, plan, Start));
      var collected := Collect(plan, Answers(w, plan, Nothing), LaunchAll(w, targets, plan, Start));
      NoThrow(w, targets, plan, Reverse(collected.deployed), collected);
      if TotalRollback(w, targets, plan) { AllOrNothingAtomic(w, targets, plan); }
    }
  }

  lemma AllOrNothingAtomic(w: World, targets: Targets, plan: seq<PlanEntry>)
    requires Resolves(targets, plan) && TotalRollback(w, targets, plan)
    ensures var r := AllOrNothing(w, targets, plan);
      && !r.threw && NewLive(w, r.trace) == (if r.failed.None? then SetOf(Ids(plan)) else {})
      && r.rolledBack == (if r.failed.None? then [] else Reverse(r.deployed))
  {
    LaunchTrace(w, targets, plan, Start);
    var launched := LaunchAll(w, targets, plan, Start);
    CollectLive(w, plan, Nothing, launched);
    CollectBooks(plan, Answers(w, plan, Nothing), launched);
    var r1 := Collect(plan, Answers(w, plan, Nothing), launched);
    if r1.failed.Some? {
      assert plan[..|plan|] == plan;
      FindInPlan(plan, |plan|, targets);
      forall id | id in r1.deployed ensures id in Ids(plan) {
        CollectSubset(plan, Answers(w, plan, Nothing), launched, id);
      }
      CascadeEmpties(w, targets, plan, r1);
      assert [] + Reverse(r1.deployed) == Reverse(r1.deployed);
    } else {
      assert [] + Ids(plan) == Ids(plan);
    }
  }
}
