/** Exactly which plans are all-or-nothing whatever the adapters answer, for each strategy that promises it. */
module FleetDeployExact {
  import opened Wrappers
  import opened FleetDeploy
  import opened FleetDeployProperties
  import opened FleetDeployAtomic

  ghost predicate RollbackSucceeds(w: World) {
    forall t, id :: w.rollback(t, id)
  }

  /** After a run without trouble the whole plan is on the new version, after any other nothing is. */
  predicate Atomic(w: World, r: Run, plan: seq<PlanEntry>) {
    NewLive(w, r.trace) == if Stopped(r) then {} else SetOf(Ids(plan))
  }

  predicate CanUndo(targets: Targets, e: PlanEntry) {
    Pick(targets, e).Some? && Pick(targets, e).value.hasRollback
  }

  // ---------- what a cascade leaves ----------

  lemma {:induction false} RollBackLeaves(w: World, targets: Targets, plan: seq<PlanEntry>, ids: seq<Id>, r: Run)
    requires RollbackSucceeds(w) && !r.threw && forall id | id in ids :: AdapterOf(targets, plan, id).Some?
    ensures var r' := RollBack(w, targets, plan, ids, r);
      OnlyRollsBack(r, r') && NewLive(w, r'.trace) == NewLive(w, r.trace) - SetOf(WithRollback(targets, plan, ids))
  {
    if ids != [] {
      assert ids[0] in ids;
      var r1 := RollBackOne(w, targets, plan, ids[0], r);
      RollBackOneLeaves(w, targets, plan, ids[0], r);
      RollBackLeaves(w, targets, plan, ids[1..], r1);
      WithRollbackCons(targets, plan, ids);
    }
  }

  lemma RollBackOneLeaves(w: World, targets: Targets, plan: seq<PlanEntry>, id: Id, r: Run)
    requires RollbackSucceeds(w) && !r.threw && AdapterOf(targets, plan, id).Some?
    ensures var r' := RollBackOne(w, targets, plan, id, r);
      OnlyRollsBack(r, r') && NewLive(w, r'.trace) == NewLive(w, r.trace) - SetOf(WithRollback(targets, plan, [id]))
  {
    assert [id][1..] == [];
  }

  lemma {:induction false} WithRollbackIs(targets: Targets, plan: seq<PlanEntry>, ids: seq<Id>, id: Id)
    ensures id in WithRollback(targets, plan, ids) <==>
      id in ids && AdapterOf(targets, plan, id).Some? && AdapterOf(targets, plan, id).value.hasRollback
  {
    if ids != [] {
      WithRollbackIs(targets, plan, ids[1..], id);
      assert ids == [ids[0]] + ids[1..];
    }
  }

  /** With distinct ids the entry found for an id is its own. */
  lemma OwnAdapter(targets: Targets, plan: seq<PlanEntry>, i: nat)
    requires Distinct(Ids(plan)) && i < |plan|
    ensures AdapterOf(targets, plan, plan[i].id) == Pick(targets, plan[i])
  {
    assert plan[i] in plan;
    var e := FindEntry(plan, plan[i].id).value;
    var j :| 0 <= j < |plan| && plan[j] == e;
    assert Ids(plan)[i] == Ids(plan)[j];
  }

  /** A cascade over some deployed agents of the plan leaves exactly those that cannot be rolled back. */
  lemma CascadeLeaves(w: World, targets: Targets, plan: seq<PlanEntry>, r: Run)
    requires RollbackSucceeds(w) && Distinct(Ids(plan)) && !r.threw && r.failed.Some?
    requires NewLive(w, r.trace) == SetOf(r.deployed)
    requires forall id | id in r.deployed ::
      exists i :: 0 <= i < |plan| && plan[i].id == id && Pick(targets, plan[i]).Some?
    ensures var r' := Cascade(w, targets, plan, r);
      && OnlyRollsBack(r, r')
      && forall i | 0 <= i < |plan| && plan[i].id in r.deployed ::
           plan[i].id in NewLive(w, r'.trace) <==> !CanUndo(targets, plan[i])
    ensures NewLive(w, Cascade(w, targets, plan, r).trace) <= SetOf(r.deployed)
  {
    ReverseElements(r.deployed);
    var ids := Reverse(r.deployed);
    forall id | id in ids ensures AdapterOf(targets, plan, id).Some? {
      var i :| 0 <= i < |plan| && plan[i].id == id && Pick(targets, plan[i]).Some?;
      OwnAdapter(targets, plan, i);
    }
    RollBackLeaves(w, targets, plan, ids, r);
    forall i | 0 <= i < |plan| && plan[i].id in r.deployed
      ensures plan[i].id in WithRollback(targets, plan, ids) <==> CanUndo(targets, plan[i])
    {
      OwnAdapter(targets, plan, i);
      WithRollbackIs(targets, plan, ids, plan[i].id);
    }
  }

  // ---------- rolling and canary ----------

  /** Both strategies up to the cascade. */
  function Front(w: World, targets: Targets, plan: seq<PlanEntry>, canary: bool): Run {
    if plan == [] then Start else RollOut(w, targets, plan[1..], DeployOne(w, targets, plan[0], Start, canary))
  }

  function Sequential(w: World, targets: Targets, plan: seq<PlanEntry>, canary: bool): Run {
    Cascade(w, targets, plan, Front(w, targets, plan, canary))
  }

  lemma SequentialIs(w: World, targets: Targets, plan: seq<PlanEntry>)
    ensures Sequential(w, targets, plan, false) == Rolling(w, targets, plan)
    ensures Sequential(w, targets, plan, true) == Canary(w, targets, plan)
  {
  }

  lemma FrontStops(w: World, targets: Targets, plan: seq<PlanEntry>, canary: bool) returns (k: nat, t: Turn)
    ensures var r := Front(w, targets, plan, canary); Booked(w, r) && StoppedAt(targets, plan, Start, r, k, t)
  {
    if plan == [] {
      k, t := RollOutStops(w, targets, plan, Start);
    } else {
      k, t := TurnThenStops(w, targets, plan, Start, canary);
    }
  }

  /** How a run that stopped at `k` with turn `t` ends. */
  predicate EndsWell(targets: Targets, plan: seq<PlanEntry>, k: nat, t: Turn)
    requires k <= |plan|
  {
    match t
    case Passed => true
    case NoAdapter => k == 0
    case _ => forall i | 0 <= i < k :: CanUndo(targets, plan[i])
  }

  lemma IdsOf(plan: seq<PlanEntry>, k: nat)
    requires k <= |plan| && Distinct(Ids(plan))
    ensures Ids(plan[..k]) == Ids(plan)[..k]
    ensures forall i | 0 <= i < |plan| :: plan[i].id in Ids(plan[..k]) <==> i < k
  {
    forall i | 0 <= i < |plan| ensures plan[i].id in Ids(plan[..k]) <==> i < k {
      assert i < k ==> Ids(plan[..k])[i] == plan[i].id;
      if plan[i].id in Ids(plan[..k]) {
        var j :| 0 <= j < k && Ids(plan[..k])[j] == plan[i].id;
        assert Ids(plan)[j] == Ids(plan)[i];
      }
    }
  }

  lemma DeployedOnes(targets: Targets, plan: seq<PlanEntry>, k: nat)
    requires k <= |plan| && forall i | 0 <= i < k :: Pick(targets, plan[i]).Some?
    ensures forall id | id in Ids(plan[..k]) ::
      exists i :: 0 <= i < |plan| && plan[i].id == id && Pick(targets, plan[i]).Some?
  {
    forall id | id in Ids(plan[..k])
      ensures exists i :: 0 <= i < |plan| && plan[i].id == id && Pick(targets, plan[i]).Some?
    {
      var i :| 0 <= i < k && Ids(plan[..k])[i] == id;
      assert plan[i].id == id;
    }
  }

  lemma FailedAt(w: World, targets: Targets, plan: seq<PlanEntry>, r: Run, k: nat)
    requires RollbackSucceeds(w) && Distinct(Ids(plan)) && !r.threw && r.failed.Some?
    requires k <= |plan| && r.deployed == Ids(plan[..k]) && NewLive(w, r.trace) == SetOf(r.deployed)
    requires forall i | 0 <= i < k :: Pick(targets, plan[i]).Some?
    ensures var r' := Cascade(w, targets, plan, r);
      r'.failed.Some? && (NewLive(w, r'.trace) == {} <==> forall i | 0 <= i < k :: CanUndo(targets, plan[i]))
  {
    IdsOf(plan, k);
    DeployedOnes(targets, plan, k);
    CascadeLeaves(w, targets, plan, r);
    LeftOver(NewLive(w, Cascade(w, targets, plan, r).trace), targets, plan, k);
  }

  lemma AtomicAt(w: World, targets: Targets, plan: seq<PlanEntry>, canary: bool, k: nat, t: Turn)
    requires RollbackSucceeds(w) && Distinct(Ids(plan))
    requires var r := Front(w, targets, plan, canary); Booked(w, r) && StoppedAt(targets, plan, Start, r, k, t)
    ensures Atomic(w, Sequential(w, targets, plan, canary), plan) <==> EndsWell(targets, plan, k, t)
    ensures t.NoAdapter? ==> var r := Sequential(w, targets, plan, canary);
      r.threw && r.rolledBack == [] && NewLive(w, r.trace) == SetOf(Ids(plan[..k]))
  {
    var r := Front(w, targets, plan, canary);
    assert r.deployed == Ids(plan[..k]) by { assert [] + Ids(plan[..k]) == Ids(plan[..k]); }
    match t {
      case Passed => assert plan[..|plan|] == plan;
      case NoAdapter =>
        IdsOf(plan, k);
        assert k > 0 ==> plan[0].id in SetOf(r.deployed);
      case _ => FailedAt(w, targets, plan, r, k);
    }
  }

  lemma LeftOver(live: set<Id>, targets: Targets, plan: seq<PlanEntry>, k: nat)
    requires k <= |plan| && live <= SetOf(Ids(plan[..k]))
    requires forall i | 0 <= i < k :: plan[i].id in live <==> !CanUndo(targets, plan[i])
    ensures live == {} <==> forall i | 0 <= i < k :: CanUndo(targets, plan[i])
  {
    if live != {} {
      var id :| id in live;
      assert id in Ids(plan[..k]);
      var i :| 0 <= i < k && Ids(plan[..k])[i] == id;
      assert plan[i].id in live;
    }
  }

  /** What a caller can check of a plan: its first entry has no adapter, so that nothing is ever started; or all have
      one, and every agent that can be live when another step fails can be rolled back, which is all but the last and,
      if it is probed, the last. */
  predicate Undoable(targets: Targets, plan: seq<PlanEntry>) {
    || (plan != [] && Pick(targets, plan[0]).None?)
    || (Resolves(targets, plan)
        && forall i | 0 <= i < |plan| && Exposed(targets, plan, i) :: CanUndo(targets, plan[i]))
  }

  predicate Exposed(targets: Targets, plan: seq<PlanEntry>, i: nat)
    requires i < |plan|
  {
    i + 1 < |plan| || (Pick(targets, plan[i]).Some? && Pick(targets, plan[i]).value.hasProbe)
  }

  lemma UndoableIsAtomic(w: World, targets: Targets, plan: seq<PlanEntry>, canary: bool)
    requires RollbackSucceeds(w) && Distinct(Ids(plan)) && Undoable(targets, plan)
    ensures Atomic(w, Sequential(w, targets, plan, canary), plan)
  {
    var k, t := FrontStops(w, targets, plan, canary);
    assert Resolves(targets, plan) ==> forall i | 0 <= i < |plan| :: Pick(targets, plan[i]).Some? by {
      assert forall i | 0 <= i < |plan| :: plan[i] in plan;
    }
    assert EndsWell(targets, plan, k, t) by {
      if plan != [] && Pick(targets, plan[0]).None? { assert k == 0; }
    }
    AtomicAt(w, targets, plan, canary, k, t);
  }

  // ---------- the runs that break it ----------

  /** Adapters of which one deploy or one probe fails, at most. */
  function Failing(deploy: Option<Id>, probe: Option<Id>): World {
    World((_, id) => if Some(id) == deploy then NotDeployed("") else Deployed(""),
          (_, id) => if Some(id) == probe then Unhealthy(None) else Healthy,
          (_, _) => true)
  }

  function TurnIn(deploy: Option<Id>, probe: Option<Id>, targets: Targets, e: PlanEntry): Turn {
    match Pick(targets, e)
    case None => NoAdapter
    case Some(a) =>
      if Some(e.id) == deploy then DeployFailed else if a.hasProbe && Some(e.id) == probe then ProbeFailed else Passed
  }

  lemma {:induction false} StopsIn(
    deploy: Option<Id>, probe: Option<Id>, targets: Targets, plan: seq<PlanEntry>, r: Run, n: nat, canary: bool)
    requires n < |plan| && (forall i | 0 <= i < n :: TurnIn(deploy, probe, targets, plan[i]).Passed?)
    requires !TurnIn(deploy, probe, targets, plan[n]).Passed?
    requires !Stopped(r) && Booked(Failing(deploy, probe), r)
    ensures var w := Failing(deploy, probe); var t := TurnIn(deploy, probe, targets, plan[n]);
      var r' := RollOut(w, targets, plan[1..], DeployOne(w, targets, plan[0], r, canary));
      Booked(w, r') && StoppedAt(targets, plan, r, r', if t.ProbeFailed? then n + 1 else n, t)
    decreases plan
  {
    if n == 0 {
      StopsFirst(deploy, probe, targets, plan, r, canary);
    } else {
      var w := Failing(deploy, probe);
      var t := TurnIn(deploy, probe, targets, plan[n]);
      var r1 := DeployOne(w, targets, plan[0], r, canary);
      PassesFirst(deploy, probe, targets, plan[0], r, canary);
      assert forall i | 0 <= i < n - 1 :: plan[1..][i] == plan[i + 1];
      StopsIn(deploy, probe, targets, plan[1..], r1, n - 1, false);
      StopsCons(targets, plan, r, r1, RollOut(w, targets, plan[1..], r1), if t.ProbeFailed? then n else n - 1, t);
    }
  }

  lemma PassesFirst(deploy: Option<Id>, probe: Option<Id>, targets: Targets, e: PlanEntry, r: Run, canary: bool)
    requires TurnIn(deploy, probe, targets, e).Passed? && !Stopped(r) && Booked(Failing(deploy, probe), r)
    ensures var w := Failing(deploy, probe); var r1 := DeployOne(w, targets, e, r, canary);
      && !Stopped(r1) && Booked(w, r1) && r1.deployed == r.deployed + [e.id]
      && Contacted(r1.trace) == Contacted(r.trace) + [e.id] && Pick(targets, e).Some?
  {
    DeployOneTurn(Failing(deploy, probe), targets, e, r, canary);
  }

  lemma StopsFirst(
    deploy: Option<Id>, probe: Option<Id>, targets: Targets, plan: seq<PlanEntry>, r: Run, canary: bool)
    requires plan != [] && !TurnIn(deploy, probe, targets, plan[0]).Passed?
    requires !Stopped(r) && Booked(Failing(deploy, probe), r)
    ensures var w := Failing(deploy, probe); var t := TurnIn(deploy, probe, targets, plan[0]);
      var r' := RollOut(w, targets, plan[1..], DeployOne(w, targets, plan[0], r, canary));
      Booked(w, r') && StoppedAt(targets, plan, r, r', if t.ProbeFailed? then 1 else 0, t)
  {
    var w := Failing(deploy, probe);
    var r1 := DeployOne(w, targets, plan[0], r, canary);
    assert TurnOf(w, targets, plan[0], r, canary) == TurnIn(deploy, probe, targets, plan[0]);
    DeployOneTurn(w, targets, plan[0], r, canary);
    IdsCons(plan, 0);
    assert RollOut(w, targets, plan[1..], r1) == r1;
  }

  lemma {:induction false} FirstMissing(targets: Targets, plan: seq<PlanEntry>) returns (m: nat)
    requires !Resolves(targets, plan)
    ensures m < |plan| && Pick(targets, plan[m]).None? && forall i | 0 <= i < m :: Pick(targets, plan[i]).Some?
  {
    if Pick(targets, plan[0]).None? {
      m := 0;
    } else {
      assert plan == [plan[0]] + plan[1..];
      m := FirstMissing(targets, plan[1..]);
      m := m + 1;
    }
  }

  /** For every plan that is not `Undoable` there are adapters whose rollbacks all succeed and that still leave it half
      deployed: either none of them fails, or a single deploy or probe does. */
  lemma Breaks(targets: Targets, plan: seq<PlanEntry>, canary: bool) returns (deploy: Option<Id>, probe: Option<Id>)
    requires Distinct(Ids(plan)) && !Undoable(targets, plan)
    ensures var w := Failing(deploy, probe);
      RollbackSucceeds(w) && !Atomic(w, Sequential(w, targets, plan, canary), plan)
  {
    if !Resolves(targets, plan) {
      deploy, probe := None, None;
      var m := FirstMissing(targets, plan);
      StopsIn(None, None, targets, plan, Start, m, canary);
      AtomicAt(Failing(None, None), targets, plan, canary, m, NoAdapter);
    } else {
      var i :| 0 <= i < |plan| && Exposed(targets, plan, i) && !CanUndo(targets, plan[i]);
      if i + 1 < |plan| {
        deploy, probe := Some(plan[i + 1].id), None;
        FailsAt(deploy, probe, targets, plan, canary, i, i + 1);
      } else {
        deploy, probe := None, Some(plan[i].id);
        FailsAt(deploy, probe, targets, plan, canary, i, i);
      }
    }
  }

  /** A deploy or probe that fails at the `n`-th agent leaves the `i`-th live if that cannot be rolled back. */
  lemma FailsAt(
    deploy: Option<Id>, probe: Option<Id>, targets: Targets, plan: seq<PlanEntry>, canary: bool, i: nat, n: nat)
    requires Distinct(Ids(plan)) && Resolves(targets, plan) && i <= n < |plan| && !CanUndo(targets, plan[i])
    requires if i < n then deploy == Some(plan[n].id) && probe == None
             else deploy == None && probe == Some(plan[n].id) && Exposed(targets, plan, n) && n + 1 == |plan|
    ensures !Atomic(Failing(deploy, probe), Sequential(Failing(deploy, probe), targets, plan, canary), plan)
  {
    assert forall j | 0 <= j < |plan| :: plan[j] in plan && Pick(targets, plan[j]).Some?;
    assert forall j | 0 <= j < n :: Ids(plan)[j] != Ids(plan)[n];
    StopsIn(deploy, probe, targets, plan, Start, n, canary);
    var t := TurnIn(deploy, probe, targets, plan[n]);
    AtomicAt(Failing(deploy, probe), targets, plan, canary, if t.ProbeFailed? then n + 1 else n, t);
  }

  /** `rolling` is all-or-nothing against all adapters whose rollbacks succeed exactly for undoable plans. */
  lemma RollingAtomicIff(targets: Targets, plan: seq<PlanEntry>)
    requires Distinct(Ids(plan))
    ensures (forall w | RollbackSucceeds(w) :: Atomic(w, Rolling(w, targets, plan), plan)) <==> Undoable(targets, plan)
  {
    if Undoable(targets, plan) {
      forall w | RollbackSucceeds(w) ensures Atomic(w, Rolling(w, targets, plan), plan) {
        UndoableIsAtomic(w, targets, plan, false);
        SequentialIs(w, targets, plan);
      }
    } else {
      var deploy, probe := Breaks(targets, plan, false);
      SequentialIs(Failing(deploy, probe), targets, plan);
    }
  }

  /** The same for `canary`, whether or not the answers depend on the soak. */
  lemma CanaryAtomicIff(targets: Targets, plan: seq<PlanEntry>)
    requires Distinct(Ids(plan))
    ensures (forall w | RollbackSucceeds(w) :: Atomic(w, Canary(w, targets, plan), plan)) <==> Undoable(targets, plan)
  {
    if Undoable(targets, plan) {
      forall w | RollbackSucceeds(w) ensures Atomic(w, Canary(w, targets, plan), plan) {
        UndoableIsAtomic(w, targets, plan, true);
        SequentialIs(w, targets, plan);
      }
    } else {
      var deploy, probe := Breaks(targets, plan, true);
      SequentialIs(Failing(deploy, probe), targets, plan);
    }
  }

  /** A missing adapter behind the first entry: the exception leaves exactly the agents before it on the new version,
      and nothing is rolled back, whichever of the two strategies runs, when no deploy or probe fails. */
  lemma MissingAdapterLeaves(targets: Targets, plan: seq<PlanEntry>, m: nat, canary: bool)
    requires Distinct(Ids(plan)) && m < |plan| && Pick(targets, plan[m]).None?
    requires forall i | 0 <= i < m :: Pick(targets, plan[i]).Some?
    ensures var w := Failing(None, None); var r := Sequential(w, targets, plan, canary);
      r.threw && r.rolledBack == [] && NewLive(w, r.trace) == SetOf(Ids(plan[..m]))
  {
    StopsIn(None, None, targets, plan, Start, m, canary);
    AtomicAt(Failing(None, None), targets, plan, canary, m, NoAdapter);
  }

  // ---------- all-or-nothing ----------

  lemma {:induction false} StartedLive(
    deploy: Option<Id>, targets: Targets, plan: seq<PlanEntry>, t: History, e: PlanEntry)
    requires e in plan && Pick(targets, e).Some? && Some(e.id) != deploy
    ensures e.id in NewLive(Failing(deploy, None), StartAll(targets, plan, t))
    decreases plan
  {
    var t1 := if Pick(targets, plan[0]).Some? then Then(t, Deploy(plan[0].id)) else t;
    if e == plan[0] {
      StaysLive(deploy, targets, plan[1..], t1, e.id);
    } else {
      assert e in plan[1..];
      StartedLive(deploy, targets, plan[1..], t1, e);
    }
  }

  lemma {:induction false} StaysLive(deploy: Option<Id>, targets: Targets, plan: seq<PlanEntry>, t: History, id: Id)
    requires id in NewLive(Failing(deploy, None), t)
    ensures id in NewLive(Failing(deploy, None), StartAll(targets, plan, t))
    decreases plan
  {
    if plan != [] {
      var next := if Pick(targets, plan[0]).Some? then Then(t, Deploy(plan[0].id)) else t;
      StaysLive(deploy, targets, plan[1..], next, id);
    }
  }

  lemma {:induction false} OnlyStarted(targets: Targets, plan: seq<PlanEntry>, t: History, id: Id)
    requires id in NewLive(Failing(None, None), StartAll(targets, plan, t)) && id !in NewLive(Failing(None, None), t)
    ensures exists e :: e in plan && e.id == id && Pick(targets, e).Some?
    decreases plan
  {
    if plan != [] {
      var t1 := if Pick(targets, plan[0]).Some? then Then(t, Deploy(plan[0].id)) else t;
      if id in NewLive(Failing(None, None), t1) {
        assert plan[0] in plan && plan[0].id == id;
      } else {
        OnlyStarted(targets, plan[1..], t1, id);
        var e :| e in plan[1..] && e.id == id && Pick(targets, e).Some?;
        assert e in plan;
      }
    }
  }

  /** A missing adapter anywhere: when no deploy fails, the exception leaves exactly the agents that have an adapter on
      the new version, and nothing is rolled back. */
  lemma MissingAdapterInParallel(targets: Targets, plan: seq<PlanEntry>)
    requires !Resolves(targets, plan)
    ensures var w := Failing(None, None); var r := AllOrNothing(w, targets, plan);
      && r.threw && r.rolledBack == []
      && forall id :: id in NewLive(w, r.trace) <==> exists e :: e in plan && e.id == id && Pick(targets, e).Some?
  {
    var w := Failing(None, None);
    AllOrNothingOutcome(w, targets, plan);
    var r := AllOrNothing(w, targets, plan);
    forall id ensures id in NewLive(w, r.trace) <==> exists e :: e in plan && e.id == id && Pick(targets, e).Some? {
      if e :| e in plan && e.id == id && Pick(targets, e).Some? { StartedLive(None, targets, plan, Nothing, e); }
      if id in NewLive(w, r.trace) { OnlyStarted(targets, plan, Nothing, id); }
    }
  }

  lemma {:induction false} NeverLive(deploy: Option<Id>, t: History)
    requires deploy.Some?
    ensures deploy.value !in NewLive(Failing(deploy, None), t)
  {
    if t.Then? { NeverLive(deploy, t.before); }
  }

  lemma {:induction false} NothingStarts(targets: Targets, plan: seq<PlanEntry>, t: History)
    requires forall e | e in plan :: Pick(targets, e).None?
    ensures StartAll(targets, plan, t) == t
  {
    if plan != [] {
      assert plan[0] in plan;
      NothingStarts(targets, plan[1..], t);
    }
  }

  /** The bookkeeping after all deploys of a plan have settled. */
  function Settled(w: World, targets: Targets, plan: seq<PlanEntry>): Run {
    Collect(plan, Answers(w, plan, Nothing), LaunchAll(w, targets, plan, Start))
  }

  lemma SettledIds(w: World, targets: Targets, plan: seq<PlanEntry>)
    requires Resolves(targets, plan)
    ensures forall id | id in Settled(w, targets, plan).deployed ::
      exists i :: 0 <= i < |plan| && plan[i].id == id && Pick(targets, plan[i]).Some?
  {
    LaunchStarts(w, targets, plan, Start);
    forall id | id in Settled(w, targets, plan).deployed
      ensures exists i :: 0 <= i < |plan| && plan[i].id == id && Pick(targets, plan[i]).Some?
    {
      CollectSubset(plan, Answers(w, plan, Nothing), LaunchAll(w, targets, plan, Start), id);
      var i :| 0 <= i < |plan| && Ids(plan)[i] == id;
      assert plan[i] in plan && plan[i].id == id;
    }
  }

  lemma SettledIs(w: World, targets: Targets, plan: seq<PlanEntry>)
    requires Resolves(targets, plan)
    ensures var r := Settled(w, targets, plan);
      && !r.threw && NewLive(w, r.trace) == SetOf(r.deployed)
      && (r.failed.None? ==> r.deployed == Ids(plan)) && r.trace == DeployAll(plan, Nothing)
      && AllOrNothing(w, targets, plan) == Cascade(w, targets, plan, r)
    ensures forall id | id in Settled(w, targets, plan).deployed ::
      exists i :: 0 <= i < |plan| && plan[i].id == id && Pick(targets, plan[i]).Some?
  {
    LaunchTrace(w, targets, plan, Start);
    var launched := LaunchAll(w, targets, plan, Start);
    CollectLive(w, plan, Nothing, launched);
    CollectBooks(plan, Answers(w, plan, Nothing), launched);
    assert [] + Ids(plan) == Ids(plan);
    SettledIds(w, targets, plan);
  }

  /** What a caller can check: no entry has an adapter, or all have one and, if there are two or more, can roll back. */
  predicate UndoableInParallel(targets: Targets, plan: seq<PlanEntry>) {
    || (forall e | e in plan :: Pick(targets, e).None?)
    || (Resolves(targets, plan) && (|plan| <= 1 || forall i | 0 <= i < |plan| :: CanUndo(targets, plan[i])))
  }

  lemma ParallelIsAtomic(w: World, targets: Targets, plan: seq<PlanEntry>)
    requires RollbackSucceeds(w) && Distinct(Ids(plan)) && UndoableInParallel(targets, plan)
    ensures Atomic(w, AllOrNothing(w, targets, plan), plan)
  {
    if plan != [] && forall e | e in plan :: Pick(targets, e).None? {
      assert plan[0] in plan;
      AllOrNothingOutcome(w, targets, plan);
      NothingStarts(targets, plan, Nothing);
    } else {
      SettledIs(w, targets, plan);
      var r := Settled(w, targets, plan);
      if r.failed.Some? {
        CascadeLeaves(w, targets, plan, r);
        if |plan| <= 1 { SingleFails(w, targets, plan); }
        NoneLeft(NewLive(w, Cascade(w, targets, plan, r).trace), targets, plan, r.deployed);
      }
    }
  }

  lemma NoneLeft(live: set<Id>, targets: Targets, plan: seq<PlanEntry>, deployed: seq<Id>)
    requires live <= SetOf(deployed) && (deployed == [] || forall i | 0 <= i < |plan| :: CanUndo(targets, plan[i]))
    requires forall id | id in deployed ::
      exists i :: 0 <= i < |plan| && plan[i].id == id && Pick(targets, plan[i]).Some?
    requires forall i | 0 <= i < |plan| && plan[i].id in deployed :: plan[i].id in live <==> !CanUndo(targets, plan[i])
    ensures live == {}
  {
    assert forall id | id in live :: id in deployed;
  }

  lemma SingleFails(w: World, targets: Targets, plan: seq<PlanEntry>)
    requires |plan| <= 1 && Resolves(targets, plan) && Settled(w, targets, plan).failed.Some?
    ensures Settled(w, targets, plan).deployed == []
  {
    LaunchStarts(w, targets, plan, Start);
    if plan != [] {
      var answers := Answers(w, plan, Nothing);
      var launched := LaunchAll(w, targets, plan, Start);
      assert plan[1..] == [] && answers[1..] == [];
      assert Settled(w, targets, plan) == Collect([], [], CollectOne(plan[0], answers[0], launched));
    }
  }

  lemma BreaksInParallel(targets: Targets, plan: seq<PlanEntry>) returns (deploy: Option<Id>)
    requires Distinct(Ids(plan)) && !UndoableInParallel(targets, plan)
    ensures var w := Failing(deploy, None); RollbackSucceeds(w) && !Atomic(w, AllOrNothing(w, targets, plan), plan)
  {
    if !Resolves(targets, plan) {
      deploy := None;
      var e :| e in plan && Pick(targets, e).Some?;
      AllOrNothingOutcome(Failing(deploy, None), targets, plan);
      StartedLive(deploy, targets, plan, Nothing, e);
    } else {
      var i :| 0 <= i < |plan| && !CanUndo(targets, plan[i]);
      var j: nat := if i == 0 then 1 else 0;
      deploy := Some(plan[j].id);
      LeavesOneLive(targets, plan, i, j);
    }
  }

  lemma LeavesOneLive(targets: Targets, plan: seq<PlanEntry>, i: nat, j: nat)
    requires Distinct(Ids(plan)) && Resolves(targets, plan)
    requires i < |plan| && j < |plan| && i != j && !CanUndo(targets, plan[i])
    ensures var w := Failing(Some(plan[j].id), None); !Atomic(w, AllOrNothing(w, targets, plan), plan)
  {
    var deploy := Some(plan[j].id);
    var w := Failing(deploy, None);
    assert Ids(plan)[i] != Ids(plan)[j] && plan[i] in plan;
    SettledIs(w, targets, plan);
    var r := Settled(w, targets, plan);
    LaunchStarts(w, targets, plan, Start);
    LaunchTrace(w, targets, plan, Start);
    StartedLive(deploy, targets, plan, Nothing, plan[i]);
    NeverLive(deploy, r.trace);
    assert Ids(plan)[j] == plan[j].id;
    CascadeLeaves(w, targets, plan, r);
  }

  /** `all-or-nothing` lives up to its name against all adapters whose rollbacks succeed exactly for these plans. */
  lemma AllOrNothingAtomicIff(targets: Targets, plan: seq<PlanEntry>)
    requires Distinct(Ids(plan))
    ensures (forall w | RollbackSucceeds(w) :: Atomic(w, AllOrNothing(w, targets, plan), plan))
      <==> UndoableInParallel(targets, plan)
  {
    if UndoableInParallel(targets, plan) {
      forall w | RollbackSucceeds(w) ensures Atomic(w, AllOrNothing(w, targets, plan), plan) {
        ParallelIsAtomic(w, targets, plan);
      }
    } else {
      var deploy := BreaksInParallel(targets, plan);
    }
  }
}
