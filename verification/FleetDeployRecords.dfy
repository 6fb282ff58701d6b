/** What the strategies record about each agent: the answer of its own deploy and of its own probe, and nothing else. */
module FleetDeployRecords {
  import opened Wrappers
  import opened FleetDeploy
  import opened FleetDeployProperties
  import opened FleetDeployAtomic
  import opened FleetDeployPerAgent

  // ---------- one agent after the other ----------

  /** The calls made before the `i`-th agent is deployed, when all before it have passed. */
  function Before(targets: Targets, plan: seq<PlanEntry>, canary: bool, i: nat): History
    requires i <= |plan|
  {
    if i == 0 then Nothing
    else
      var e := plan[i - 1];
      var after := AfterDeploy(Before(targets, plan, canary, i - 1), e.id, canary && i == 1);
      if Pick(targets, e).Some? && Pick(targets, e).value.hasProbe then Then(after, HealthCheck(e.id)) else after
  }

  function ProbeLabel(canary: bool, i: nat): string {
    if canary && i == 0 then "canary-soak-health: " else "health-probe: "
  }

  /** What is to be recorded about the `i`-th agent: the error of its deploy, else that of its probe, else its
      artifact. */
  function OwnRecord(w: World, targets: Targets, plan: seq<PlanEntry>, canary: bool, i: nat): AgentRecord
    requires i < |plan| && Pick(targets, plan[i]).Some?
  {
    var e, h := plan[i], Before(targets, plan, canary, i);
    match w.deploy(h, e.id)
    case NotDeployed(error) => AgentRecord(e.targetKey, false, None, Some(error))
    case Deployed(artifact) =>
      var ok := AgentRecord(e.targetKey, true, Some(artifact), None);
      if !Pick(targets, e).value.hasProbe then ok
      else match w.probe(AfterDeploy(h, e.id, canary && i == 0), e.id)
        case Healthy => ok
        case Unhealthy(message) =>
          var text := if message.Some? then message.value else "failed";
          AgentRecord(e.targetKey, false, None, Some(ProbeLabel(canary, i) + text))
  }

  /** Exactly the first `m` agents are recorded, each with its own record. */
  predicate Recorded(w: World, targets: Targets, plan: seq<PlanEntry>, canary: bool, r: Run, m: nat) {
    && m <= |plan| && (forall i | 0 <= i < m :: Pick(targets, plan[i]).Some?)
    && r.outcomes.Keys == SetOf(Ids(plan[..m]))
    && forall i {:trigger OwnRecord(w, targets, plan, canary, i)} | 0 <= i < m ::
         plan[i].id in r.outcomes && r.outcomes[plan[i].id] == OwnRecord(w, targets, plan, canary, i)
  }

  /** Before the `m`-th turn: all before it have passed. */
  predicate Passing(w: World, targets: Targets, plan: seq<PlanEntry>, canary: bool, r: Run, m: nat) {
    && Recorded(w, targets, plan, canary, r, m) && r.trace == Before(targets, plan, canary, m) && !Stopped(r)
    && forall i {:trigger OwnRecord(w, targets, plan, canary, i)} | 0 <= i < m ::
           OwnRecord(w, targets, plan, canary, i).ok
  }

  /** The end: `m` agents were contacted, and all are ok but the last one if something failed. */
  predicate Finished(w: World, targets: Targets, plan: seq<PlanEntry>, canary: bool, r: Run, m: nat) {
    && Recorded(w, targets, plan, canary, r, m)
    && match r.failed
       case Some(id) =>
         && m > 0 && id == plan[m - 1].id && !OwnRecord(w, targets, plan, canary, m - 1).ok
         && forall i {:trigger OwnRecord(w, targets, plan, canary, i)} | 0 <= i < m - 1 ::
              OwnRecord(w, targets, plan, canary, i).ok
       case None =>
         && (m < |plan| ==> Pick(targets, plan[m]).None?)
         && forall i {:trigger OwnRecord(w, targets, plan, canary, i)} | 0 <= i < m ::
           OwnRecord(w, targets, plan, canary, i).ok
  }

  lemma IdsSnoc(plan: seq<PlanEntry>, m: nat)
    requires m < |plan|
    ensures SetOf(Ids(plan[..m + 1])) == SetOf(Ids(plan[..m])) + {plan[m].id}
  {
    assert plan[..m + 1] == plan[..m] + [plan[m]];
    assert Ids(plan[..m + 1]) == Ids(plan[..m]) + [plan[m].id];
  }

  lemma OtherAgents(plan: seq<PlanEntry>, m: nat)
    requires m < |plan| && Distinct(Ids(plan))
    ensures forall i | 0 <= i < m :: plan[i].id != plan[m].id
  {
    forall i | 0 <= i < m ensures plan[i].id != plan[m].id { assert Ids(plan)[i] != Ids(plan)[m]; }
  }

  /** What one turn does to the records. */
  lemma TurnRecords(w: World, targets: Targets, plan: seq<PlanEntry>, canary: bool, r: Run, m: nat)
    requires m < |plan| && Pick(targets, plan[m]).Some? && r.trace == Before(targets, plan, canary, m) && !Stopped(r)
    ensures var r' := DeployOne(w, targets, plan[m], r, canary && m == 0);
      var own := OwnRecord(w, targets, plan, canary, m);
      && r'.outcomes == r.outcomes[plan[m].id := own] && !r'.threw
      && r'.failed == (if own.ok then None else Some(plan[m].id))
      && (own.ok ==> r'.trace == Before(targets, plan, canary, m + 1))
  {
    var e := plan[m];
    if w.deploy(r.trace, e.id).Deployed? && Pick(targets, e).value.hasProbe {
      var artifact := w.deploy(r.trace, e.id).artifact;
      assert r.outcomes[e.id := Good(e, artifact)][e.id := Bad(e, "")] == r.outcomes[e.id := Bad(e, "")];
    }
  }

  lemma RecordAdded(w: World, targets: Targets, plan: seq<PlanEntry>, canary: bool, r: Run, r': Run, m: nat)
    requires Distinct(Ids(plan)) && m < |plan| && Pick(targets, plan[m]).Some?
    requires Recorded(w, targets, plan, canary, r, m)
    requires r'.outcomes == r.outcomes[plan[m].id := OwnRecord(w, targets, plan, canary, m)]
    ensures Recorded(w, targets, plan, canary, r', m + 1)
  {
    IdsSnoc(plan, m);
    OtherAgents(plan, m);
  }

  /** After a turn that leaves the agent's own record, and stops if it is not ok. */
  lemma TurnEnds(w: World, targets: Targets, plan: seq<PlanEntry>, canary: bool, r: Run, r': Run, m: nat)
    requires Distinct(Ids(plan)) && m < |plan| && Pick(targets, plan[m]).Some?
    requires Passing(w, targets, plan, canary, r, m)
    requires var own := OwnRecord(w, targets, plan, canary, m);
      && r'.outcomes == r.outcomes[plan[m].id := own] && !r'.threw
      && r'.failed == (if own.ok then None else Some(plan[m].id))
      && (own.ok ==> r'.trace == Before(targets, plan, canary, m + 1))
    ensures Stopped(r') ==> Finished(w, targets, plan, canary, r', m + 1)
    ensures !Stopped(r') ==> Passing(w, targets, plan, canary, r', m + 1)
  {
    RecordAdded(w, targets, plan, canary, r, r', m);
  }

  lemma StoppedStays(w: World, targets: Targets, plan: seq<PlanEntry>, r: Run)
    requires Stopped(r)
    ensures RollOut(w, targets, plan, r) == r
  {
  }

  /** A turn that finds no adapter, or fails, is the last. */
  lemma LastTurn(w: World, targets: Targets, plan: seq<PlanEntry>, canary: bool, r: Run, m: nat) returns (n: nat)
    requires Distinct(Ids(plan)) && Passing(w, targets, plan, canary, r, m) && m < |plan|
    ensures var r' := DeployOne(w, targets, plan[m], r, canary && m == 0);
      if Stopped(r') then Finished(w, targets, plan, canary, r', n) else Passing(w, targets, plan, canary, r', m + 1)
  {
    if Pick(targets, plan[m]).None? {
      n := m;
    } else {
      n := m + 1;
      TurnRecords(w, targets, plan, canary, r, m);
      TurnEnds(w, targets, plan, canary, r, DeployOne(w, targets, plan[m], r, canary && m == 0), m);
    }
  }

  lemma RollOutStep(w: World, targets: Targets, plan: seq<PlanEntry>, r: Run, m: nat)
    requires m < |plan| && !Stopped(r)
    ensures RollOut(w, targets, plan[m..], r)
      == RollOut(w, targets, plan[m + 1..], DeployOne(w, targets, plan[m], r, false))
  {
    assert plan[m..][0] == plan[m] && plan[m..][1..] == plan[m + 1..];
  }

  lemma {:induction false} RollOutRecords(
    w: World, targets: Targets, plan: seq<PlanEntry>, canary: bool, r: Run, m: nat) returns (n: nat)
    requires Distinct(Ids(plan)) && Passing(w, targets, plan, canary, r, m) && (canary ==> m > 0)
    ensures Finished(w, targets, plan, canary, RollOut(w, targets, plan[m..], r), n)
    decreases |plan| - m
  {
    if m == |plan| {
      n := m;
      AllPassed(w, targets, plan, canary, r);
    } else {
      var r' := DeployOne(w, targets, plan[m], r, false);
      n := RollOutTurn(w, targets, plan, canary, r, r', m);
      if !Stopped(r') { n := RollOutRecords(w, targets, plan, canary, r', m + 1); }
    }
  }

  lemma AllPassed(w: World, targets: Targets, plan: seq<PlanEntry>, canary: bool, r: Run)
    requires Passing(w, targets, plan, canary, r, |plan|)
    ensures Finished(w, targets, plan, canary, RollOut(w, targets, plan[|plan|..], r), |plan|)
  {
  }

  lemma RollOutTurn(w: World, targets: Targets, plan: seq<PlanEntry>, canary: bool, r: Run, r': Run, m: nat)
    returns (n: nat)
    requires Distinct(Ids(plan)) && Passing(w, targets, plan, canary, r, m) && (canary ==> m > 0)
    requires m < |plan| && r' == DeployOne(w, targets, plan[m], r, false)
    ensures Stopped(r') ==> Finished(w, targets, plan, canary, RollOut(w, targets, plan[m..], r), n)
    ensures !Stopped(r') ==> Passing(w, targets, plan, canary, r', m + 1)
    ensures !Stopped(r') ==> RollOut(w, targets, plan[m..], r) == RollOut(w, targets, plan[m + 1..], r')
  {
    RollOutStep(w, targets, plan, r, m);
    n := LastTurn(w, targets, plan, canary, r, m);
    if Stopped(r') { StoppedStays(w, targets, plan[m + 1..], r'); }
  }

  lemma {:induction false} RollBackKeepsRecords(w: World, targets: Targets, plan: seq<PlanEntry>, ids: seq<Id>, r: Run)
    ensures var r' := RollBack(w, targets, plan, ids, r); r'.outcomes == r.outcomes && r'.failed == r.failed
  {
    if ids != [] && !r.threw {
      RollBackKeepsRecords(w, targets, plan, ids[1..], RollBackOne(w, targets, plan, ids[0], r));
    }
  }

  lemma CascadeKeepsRecords(w: World, targets: Targets, plan: seq<PlanEntry>, r: Run)
    ensures var r' := Cascade(w, targets, plan, r); r'.outcomes == r.outcomes && r'.failed == r.failed
  {
    RollBackKeepsRecords(w, targets, plan, Reverse(r.deployed), r);
  }

  /** Every agent recorded is ok exactly when nothing failed. */
  lemma OkIffNothingFailed(w: World, targets: Targets, plan: seq<PlanEntry>, canary: bool, r: Run, m: nat)
    requires Finished(w, targets, plan, canary, r, m)
    ensures Ok(r) <==> r.failed.None?
  {
    if r.failed.None? {
      forall id | id in r.outcomes ensures r.outcomes[id].ok {
        assert id in Ids(plan[..m]);
        var i :| 0 <= i < m && Ids(plan[..m])[i] == id;
        assert plan[i].id == id && OwnRecord(w, targets, plan, canary, i).ok;
      }
    }
  }

  lemma NothingPassed(w: World, targets: Targets, plan: seq<PlanEntry>, canary: bool)
    ensures Passing(w, targets, plan, canary, Start, 0)
  {
    assert plan[..0] == [] && Ids([]) == [];
  }

  lemma FinishedAlike(w: World, targets: Targets, plan: seq<PlanEntry>, canary: bool, r: Run, r': Run, m: nat)
    requires Finished(w, targets, plan, canary, r, m) && r'.outcomes == r.outcomes && r'.failed == r.failed
    ensures Finished(w, targets, plan, canary, r', m) && (Ok(r') <==> r'.failed.None?)
  {
    OkIffNothingFailed(w, targets, plan, canary, r', m);
  }

  /** Exactly the agents handed to `deploy` are recorded. */
  predicate RecordsContacted(r: Run) {
    r.outcomes.Keys == SetOf(Contacted(r.trace))
  }

  lemma DeployOneContacts(w: World, targets: Targets, e: PlanEntry, r: Run, canary: bool)
    requires RecordsContacted(r)
    ensures RecordsContacted(DeployOne(w, targets, e, r, canary))
  {
    var c := Contacted(r.trace);
    var t := Then(r.trace, Deploy(e.id));
    var after := AfterDeploy(r.trace, e.id, canary);
    var r' := DeployOne(w, targets, e, r, canary);
    assert SetOf(c + [e.id]) == SetOf(c) + {e.id};
    NoEffect(w, t, Soak);
    NoEffect(w, after, HealthCheck(e.id));
    if Pick(targets, e).Some? {
      assert r'.trace in {t, after, Then(after, HealthCheck(e.id))};
      assert r'.outcomes.Keys == r.outcomes.Keys + {e.id};
    }
  }

  lemma {:induction false} RollOutContacts(w: World, targets: Targets, plan: seq<PlanEntry>, r: Run)
    requires RecordsContacted(r)
    ensures RecordsContacted(RollOut(w, targets, plan, r))
  {
    if plan != [] && !Stopped(r) {
      DeployOneContacts(w, targets, plan[0], r, false);
      RollOutContacts(w, targets, plan[1..], DeployOne(w, targets, plan[0], r, false));
    }
  }

  lemma {:induction false} RollBackContacts(w: World, targets: Targets, plan: seq<PlanEntry>, ids: seq<Id>, r: Run)
    requires RecordsContacted(r)
    ensures RecordsContacted(RollBack(w, targets, plan, ids, r))
  {
    if ids != [] && !r.threw {
      RollBackContacts(w, targets, plan, ids[1..], RollBackOne(w, targets, plan, ids[0], r));
    }
  }

  lemma CascadeContacts(w: World, targets: Targets, plan: seq<PlanEntry>, r: Run)
    requires RecordsContacted(r)
    ensures RecordsContacted(Cascade(w, targets, plan, r))
  {
    RollBackContacts(w, targets, plan, Reverse(r.deployed), r);
  }

  /** `rolling`: the keys of the result are exactly the agents contacted, a prefix of the plan; the failed one, the last
      of them, has the error of its own deploy or probe, every other one its own artifact; and the deploy is ok exactly
      when none failed. */
  lemma RollingRecords(w: World, targets: Targets, plan: seq<PlanEntry>) returns (m: nat)
    requires Distinct(Ids(plan))
    ensures var r := Rolling(w, targets, plan);
      Finished(w, targets, plan, false, r, m) && RecordsContacted(r) && (Ok(r) <==> r.failed.None?)
  {
    RollOutContacts(w, targets, plan, Start);
    CascadeContacts(w, targets, plan, RollOut(w, targets, plan, Start));
    NothingPassed(w, targets, plan, false);
    assert plan[0..] == plan;
    m := RollOutRecords(w, targets, plan, false, Start, 0);
    var r1 := RollOut(w, targets, plan, Start);
    CascadeKeepsRecords(w, targets, plan, r1);
    FinishedAlike(w, targets, plan, false, r1, Rolling(w, targets, plan), m);
  }

  lemma CanaryRollOutRecords(w: World, targets: Targets, plan: seq<PlanEntry>) returns (m: nat)
    requires Distinct(Ids(plan)) && plan != []
    ensures var r1 := DeployOne(w, targets, plan[0], Start, true);
      Finished(w, targets, plan, true, RollOut(w, targets, plan[1..], r1), m)
  {
    var r1 := DeployOne(w, targets, plan[0], Start, true);
    NothingPassed(w, targets, plan, true);
    m := LastTurn(w, targets, plan, true, Start, 0);
    if Stopped(r1) {
      StoppedStays(w, targets, plan[1..], r1);
    } else {
      m := RollOutRecords(w, targets, plan, true, r1, 1);
    }
  }

  /** `canary`: the same, with the first agent's probe after the soak. */
  lemma CanaryRecords(w: World, targets: Targets, plan: seq<PlanEntry>) returns (m: nat)
    requires Distinct(Ids(plan))
    ensures var r := Canary(w, targets, plan);
      Finished(w, targets, plan, true, r, m) && RecordsContacted(r) && (Ok(r) <==> r.failed.None?)
  {
    if plan == [] {
      m := 0;
      NothingPassed(w, targets, plan, true);
      FinishedAlike(w, targets, plan, true, Start, Start, 0);
    } else {
      m := CanaryRollOutRecords(w, targets, plan);
      var r1 := RollOut(w, targets, plan[1..], DeployOne(w, targets, plan[0], Start, true));
      DeployOneContacts(w, targets, plan[0], Start, true);
      RollOutContacts(w, targets, plan[1..], DeployOne(w, targets, plan[0], Start, true));
      CascadeContacts(w, targets, plan, r1);
      CascadeKeepsRecords(w, targets, plan, r1);
      FinishedAlike(w, targets, plan, true, r1, Canary(w, targets, plan), m);
    }
  }

  // ---------- all at once ----------

  /** The answer of the `i`-th agent, all deploys having been started in plan order. */
  function OwnAnswer(w: World, plan: seq<PlanEntry>, i: nat): Outcome
    requires i < |plan|
  {
    w.deploy(DeployAll(plan[..i], Nothing), plan[i].id)
  }

  function AnswerRecord(e: PlanEntry, a: Outcome): AgentRecord {
    match a
    case Deployed(artifact) => AgentRecord(e.targetKey, true, Some(artifact), None)
    case NotDeployed(error) => AgentRecord(e.targetKey, false, None, Some(error))
  }

  /** The first `m` agents are recorded, each with its own answer. */
  predicate AnswersRecorded(plan: seq<PlanEntry>, answers: seq<Outcome>, r: Run, m: nat)
    requires m <= |answers| == |plan|
  {
    && r.outcomes.Keys == SetOf(Ids(plan[..m]))
    && forall i | 0 <= i < m ::
         plan[i].id in r.outcomes && r.outcomes[plan[i].id] == AnswerRecord(plan[i], answers[i])
  }

  /** `failed` is the first of the first `m` that did not deploy. */
  predicate FailureRecorded(plan: seq<PlanEntry>, answers: seq<Outcome>, r: Run, m: nat)
    requires m <= |answers| == |plan|
  {
    match r.failed
    case None => forall i | 0 <= i < m :: answers[i].Deployed?
    case Some(id) => exists k :: 0 <= k < m && FirstFailure(plan, answers, k) && plan[k].id == id
  }

  predicate FirstFailure(plan: seq<PlanEntry>, answers: seq<Outcome>, k: nat)
    requires k < |answers| == |plan|
  {
    answers[k].NotDeployed? && forall i | 0 <= i < k :: answers[i].Deployed?
  }

  lemma AnswerTurn(plan: seq<PlanEntry>, answers: seq<Outcome>, r: Run, m: nat)
    requires m < |answers| == |plan| && Distinct(Ids(plan)) && AnswersRecorded(plan, answers, r, m)
    ensures AnswersRecorded(plan, answers, CollectOne(plan[m], answers[m], r), m + 1)
  {
    IdsSnoc(plan, m);
    OtherAgents(plan, m);
    var r' := CollectOne(plan[m], answers[m], r);
    assert r'.outcomes == r.outcomes[plan[m].id := AnswerRecord(plan[m], answers[m])];
  }

  lemma FailureTurn(plan: seq<PlanEntry>, answers: seq<Outcome>, r: Run, m: nat)
    requires m < |answers| == |plan| && FailureRecorded(plan, answers, r, m)
    ensures FailureRecorded(plan, answers, CollectOne(plan[m], answers[m], r), m + 1)
  {
    if r.failed.Some? {
      var k :| 0 <= k < m && FirstFailure(plan, answers, k) && plan[k].id == r.failed.value;
    } else if answers[m].NotDeployed? {
      assert FirstFailure(plan, answers, m);
    }
  }

  lemma CollectTurn(plan: seq<PlanEntry>, answers: seq<Outcome>, r: Run, m: nat)
    requires m < |answers| == |plan| && Distinct(Ids(plan))
    requires AnswersRecorded(plan, answers, r, m) && FailureRecorded(plan, answers, r, m)
    ensures var r' := CollectOne(plan[m], answers[m], r);
      AnswersRecorded(plan, answers, r', m + 1) && FailureRecorded(plan, answers, r', m + 1)
  {
    AnswerTurn(plan, answers, r, m);
    FailureTurn(plan, answers, r, m);
  }

  lemma CollectUnfolds(plan: seq<PlanEntry>, answers: seq<Outcome>, r: Run, m: nat)
    requires m < |answers| == |plan|
    ensures Collect(plan[m..], answers[m..], r)
      == Collect(plan[m + 1..], answers[m + 1..], CollectOne(plan[m], answers[m], r))
  {
    assert plan[m..][1..] == plan[m + 1..] && answers[m..][1..] == answers[m + 1..];
  }

  lemma {:induction false} CollectRecords(plan: seq<PlanEntry>, answers: seq<Outcome>, r: Run, m: nat)
    requires m <= |answers| == |plan| && Distinct(Ids(plan))
    requires AnswersRecorded(plan, answers, r, m) && FailureRecorded(plan, answers, r, m)
    ensures var r' := Collect(plan[m..], answers[m..], r);
      AnswersRecorded(plan, answers, r', |plan|) && FailureRecorded(plan, answers, r', |plan|)
    decreases |plan| - m
  {
    if m < |plan| {
      CollectTurn(plan, answers, r, m);
      CollectUnfolds(plan, answers, r, m);
      CollectRecords(plan, answers, CollectOne(plan[m], answers[m], r), m + 1);
    }
  }

  predicate FailsFirst(w: World, plan: seq<PlanEntry>, k: nat)
    requires k < |plan|
  {
    OwnAnswer(w, plan, k).NotDeployed? && forall i | 0 <= i < k :: OwnAnswer(w, plan, i).Deployed?
  }

  /** `all-or-nothing`, all agents having an adapter: every agent is recorded with its own answer, `failed` is the first
      in plan order that did not deploy, and the deploy is ok exactly when all did. */
  lemma AllOrNothingRecords(w: World, targets: Targets, plan: seq<PlanEntry>)
    requires Resolves(targets, plan) && Distinct(Ids(plan))
    ensures var r := AllOrNothing(w, targets, plan);
      && r.outcomes.Keys == SetOf(Ids(plan))
      && (forall i | 0 <= i < |plan| ::
            plan[i].id in r.outcomes && r.outcomes[plan[i].id] == AnswerRecord(plan[i], OwnAnswer(w, plan, i)))
      && (r.failed.None? <==> forall i | 0 <= i < |plan| :: OwnAnswer(w, plan, i).Deployed?)
      && (r.failed.Some? ==> exists k :: 0 <= k < |plan| && FailsFirst(w, plan, k) && plan[k].id == r.failed.value)
      && (Ok(r) <==> r.failed.None?)
  {
    var answers := Answers(w, plan, Nothing);
    LaunchTrace(w, targets, plan, Start);
    var launched := LaunchAll(w, targets, plan, Start);
    assert plan[..0] == [] && Ids([]) == [] && plan[0..] == plan && answers[0..] == answers && plan[..|plan|] == plan;
    CollectRecords(plan, answers, launched, 0);
    var collected := Collect(plan, answers, launched);
    CascadeKeepsRecords(w, targets, plan, collected);
    forall i: nat | i < |plan| ensures answers[i] == OwnAnswer(w, plan, i) { AnswerAt(w, plan, Nothing, i); }
    AllCollected(plan, answers, AllOrNothing(w, targets, plan));
  }

  lemma AllCollected(plan: seq<PlanEntry>, answers: seq<Outcome>, r: Run)
    requires |answers| == |plan|
    requires AnswersRecorded(plan, answers, r, |plan|) && FailureRecorded(plan, answers, r, |plan|)
    ensures Ok(r) <==> r.failed.None?
  {
    if r.failed.None? {
      forall id | id in r.outcomes ensures r.outcomes[id].ok {
        assert id in Ids(plan[..|plan|]) && plan[..|plan|] == plan;
        var i :| 0 <= i < |plan| && Ids(plan)[i] == id;
        assert plan[i].id == id;
      }
    }
  }
}
