/** The per-agent strategy: no coordination, whatever order the deploys settle in. */
module FleetDeployPerAgent {
  import opened Sequences
  import opened FleetDeploy
  import opened FleetDeployProperties
  import opened FleetDeployAtomic

  lemma {:induction false} AnswerAt(w: World, plan: seq<PlanEntry>, t: History, i: nat)
    requires i < |plan|
    ensures Answers(w, plan, t)[i] == w.deploy(DeployAll(plan[..i], t), plan[i].id)
  {
    if i > 0 {
      AnswerAt(w, plan[1..], Then(t, Deploy(plan[0].id)), i - 1);
      assert plan[..i][1..] == plan[1..][..i - 1];
    }
  }

  /** The record an answer leaves. */
  function RecordOf(e: PlanEntry, a: Outcome): AgentRecord {
    match a
    case Deployed(artifact) => Good(e, artifact)
    case NotDeployed(error) => Bad(e, error)
  }

  /** An order in which a plan of `n` entries may settle: every index once. */
  predicate Permutation(order: seq<nat>, n: nat) {
    InRange(order, n) && NoRepeats(order) && forall i: nat | i < n :: i in order
  }

  predicate NoRepeats(order: seq<nat>) {
    forall k, m | 0 <= k < m < |order| :: order[k] != order[m]
  }

  /** The agents deployed by the answers, in settle order. */
  function DeployedIn(plan: seq<PlanEntry>, answers: seq<Outcome>, order: seq<nat>): seq<Id>
    requires |answers| == |plan| && InRange(order, |plan|)
  {
    if order == [] then []
    else (if answers[order[0]].Deployed? then [plan[order[0]].id] else []) + DeployedIn(plan, answers, order[1..])
  }

  lemma {:induction false} SettleDeploys(plan: seq<PlanEntry>, answers: seq<Outcome>, order: seq<nat>, r: Run)
    requires |answers| == |plan| && InRange(order, |plan|)
    ensures var r' := SettleEach(plan, answers, order, r);
      && r'.trace == r.trace && r'.rolledBack == r.rolledBack && r'.failed == r.failed && r'.threw == r.threw
      && r'.deployed == r.deployed + DeployedIn(plan, answers, order)
  {
    if order == [] {
      assert r.deployed + [] == r.deployed;
    } else {
      var e, a := plan[order[0]], answers[order[0]];
      SettleDeploys(plan, answers, order[1..], SettleOne(e, a, r));
      Regroup(r.deployed, if a.Deployed? then [e.id] else [], DeployedIn(plan, answers, order[1..]));
      assert r.deployed + [] == r.deployed;
    }
  }

  /** An agent's record is touched only by its own entries. */
  lemma {:induction false} SettleKeeps(plan: seq<PlanEntry>, answers: seq<Outcome>, order: seq<nat>, r: Run, id: Id)
    requires |answers| == |plan| && InRange(order, |plan|) && forall k | 0 <= k < |order| :: plan[order[k]].id != id
    ensures var r' := SettleEach(plan, answers, order, r);
      && (id in r'.outcomes <==> id in r.outcomes) && (id in r.outcomes ==> r'.outcomes[id] == r.outcomes[id])
  {
    if order != [] { SettleKeeps(plan, answers, order[1..], SettleOne(plan[order[0]], answers[order[0]], r), id); }
  }

  lemma {:induction false} SettleOwn(plan: seq<PlanEntry>, answers: seq<Outcome>, order: seq<nat>, r: Run, k: nat)
    requires |answers| == |plan| && InRange(order, |plan|) && NoRepeats(order) && Distinct(Ids(plan)) && k < |order|
    ensures var r' := SettleEach(plan, answers, order, r); var e := plan[order[k]];
      e.id in r'.outcomes && r'.outcomes[e.id] == RecordOf(e, answers[order[k]])
    decreases k
  {
    var i, rest := order[0], order[1..];
    var r1 := SettleOne(plan[i], answers[i], r);
    if k == 0 {
      forall m | 0 <= m < |rest| ensures plan[rest[m]].id != plan[i].id {
        assert rest[m] == order[m + 1] && Ids(plan)[rest[m]] != Ids(plan)[i];
      }
      SettleKeeps(plan, answers, rest, r1, plan[i].id);
    } else {
      SettleOwn(plan, answers, rest, r1, k - 1);
    }
  }

  predicate DeployedAt(plan: seq<PlanEntry>, answers: seq<Outcome>, order: seq<nat>, id: Id)
    requires |answers| == |plan| && InRange(order, |plan|)
  {
    exists k | 0 <= k < |order| :: plan[order[k]].id == id && answers[order[k]].Deployed?
  }

  lemma {:induction false} DeployedIs(plan: seq<PlanEntry>, answers: seq<Outcome>, order: seq<nat>, id: Id)
    requires |answers| == |plan| && InRange(order, |plan|)
    ensures id in DeployedIn(plan, answers, order) <==> DeployedAt(plan, answers, order, id)
  {
    if order != [] {
      DeployedIs(plan, answers, order[1..], id);
      assert forall k | 0 <= k < |order| - 1 :: order[1..][k] == order[k + 1];
      assert forall k | 0 < k < |order| :: order[1..][k - 1] == order[k];
    }
  }

  lemma {:induction false} DeployedOnce(plan: seq<PlanEntry>, answers: seq<Outcome>, order: seq<nat>)
    requires |answers| == |plan| && InRange(order, |plan|) && NoRepeats(order) && Distinct(Ids(plan))
    ensures Distinct(DeployedIn(plan, answers, order))
  {
    if order != [] {
      var i, rest := order[0], order[1..];
      DeployedOnce(plan, answers, rest);
      DeployedIs(plan, answers, rest, plan[i].id);
      forall m | 0 <= m < |rest| ensures plan[rest[m]].id != plan[i].id {
        assert rest[m] == order[m + 1] && Ids(plan)[rest[m]] != Ids(plan)[i];
      }
      assert !DeployedAt(plan, answers, rest, plan[i].id);
    }
  }

  /** Nothing but the plan's own agents is recorded. */
  lemma {:induction false} SettleOnly(plan: seq<PlanEntry>, answers: seq<Outcome>, order: seq<nat>, r: Run, id: Id)
    requires |answers| == |plan| && InRange(order, |plan|) && id in SettleEach(plan, answers, order, r).outcomes
    ensures id in r.outcomes || id in Ids(plan)
  {
    if order != [] {
      assert Ids(plan)[order[0]] == plan[order[0]].id;
      SettleOnly(plan, answers, order[1..], SettleOne(plan[order[0]], answers[order[0]], r), id);
    }
  }

  /** The `i`-th agent's own answer decides everything that is recorded about it. */
  predicate OwnRecord(w: World, plan: seq<PlanEntry>, r: Run, i: nat)
    requires i < |plan|
  {
    var answer := w.deploy(DeployAll(plan[..i], Nothing), plan[i].id);
    && plan[i].id in r.outcomes && r.outcomes[plan[i].id] == RecordOf(plan[i], answer)
    && (plan[i].id in r.deployed <==> answer.Deployed?)
  }

  /** In any settle order: every agent is contacted once in plan order, nothing is rolled back, failures do not cascade,
      each agent's record is that of its own answer, `deployed` lists exactly the successes, each once, and the deploy
      is ok exactly when all succeed. */
  lemma PerAgentIndependent(w: World, targets: Targets, plan: seq<PlanEntry>, order: seq<nat>)
    requires Resolves(targets, plan) && Distinct(Ids(plan)) && Permutation(order, |plan|)
    ensures var r := PerAgent(w, targets, plan, order);
      && r.trace == DeployAll(plan, Nothing) && r.rolledBack == [] && r.failed.None? && !r.threw
      && r.outcomes.Keys == SetOf(Ids(plan)) && Distinct(r.deployed) && SetOf(r.deployed) <= SetOf(Ids(plan))
      && (forall i | 0 <= i < |plan| :: OwnRecord(w, plan, r, i))
      && (Ok(r) <==> forall i | 0 <= i < |plan| :: plan[i].id in r.deployed)
  {
    var answers := Answers(w, plan, Nothing);
    LaunchTrace(w, targets, plan, Start);
    var launched := LaunchAll(w, targets, plan, Start);
    var r := PerAgent(w, targets, plan, order);
    SettleDeploys(plan, answers, order, launched);
    assert [] + DeployedIn(plan, answers, order) == DeployedIn(plan, answers, order);
    DeployedOnce(plan, answers, order);
    forall i: nat | i < |plan| ensures
      OwnRecord(w, plan, r, i) && r.outcomes[plan[i].id] == RecordOf(plan[i], answers[i])
      && (plan[i].id in r.deployed <==> answers[i].Deployed?)
    {
      OwnRecordAt(w, targets, plan, order, i);
    }
    forall id | id in r.outcomes ensures id in Ids(plan) { SettleOnly(plan, answers, order, launched, id); }
    forall id | id in r.deployed ensures id in Ids(plan) {
      DeployedIs(plan, answers, order, id);
      var k :| 0 <= k < |order| && plan[order[k]].id == id;
      assert Ids(plan)[order[k]] == id;
    }
    AllOk(plan, answers, r);
  }

  lemma OwnRecordAt(w: World, targets: Targets, plan: seq<PlanEntry>, order: seq<nat>, i: nat)
    requires Resolves(targets, plan) && Distinct(Ids(plan)) && Permutation(order, |plan|) && i < |plan|
    ensures var r := PerAgent(w, targets, plan, order); var answer := Answers(w, plan, Nothing)[i];
      && OwnRecord(w, plan, r, i) && r.outcomes[plan[i].id] == RecordOf(plan[i], answer)
      && (plan[i].id in r.deployed <==> answer.Deployed?)
  {
    var answers := Answers(w, plan, Nothing);
    AnswerAt(w, plan, Nothing, i);
    LaunchTrace(w, targets, plan, Start);
    var launched := LaunchAll(w, targets, plan, Start);
    SettleDeploys(plan, answers, order, launched);
    assert [] + DeployedIn(plan, answers, order) == DeployedIn(plan, answers, order);
    assert i in order;
    var k :| 0 <= k < |order| && order[k] == i;
    SettleOwn(plan, answers, order, launched, k);
    DeployedIs(plan, answers, order, plan[i].id);
    if m :| 0 <= m < |order| && plan[order[m]].id == plan[i].id && answers[order[m]].Deployed? {
      assert Ids(plan)[order[m]] == Ids(plan)[i];
    }
  }

  lemma AllOk(plan: seq<PlanEntry>, answers: seq<Outcome>, r: Run)
    requires |answers| == |plan| && r.failed.None? && !r.threw
    requires forall id | id in r.outcomes :: id in Ids(plan)
    requires forall i | 0 <= i < |plan| ::
      plan[i].id in r.outcomes && r.outcomes[plan[i].id] == RecordOf(plan[i], answers[i])
    ensures r.outcomes.Keys == SetOf(Ids(plan))
    ensures Ok(r) <==> forall i | 0 <= i < |plan| :: answers[i].Deployed?
  {
    forall id ensures id in r.outcomes <==> id in Ids(plan) {
      if id in Ids(plan) {
        var i :| 0 <= i < |plan| && Ids(plan)[i] == id;
        assert plan[i].id == id;
      }
    }
    forall id | id in r.outcomes ensures exists i :: 0 <= i < |plan| && plan[i].id == id {
      var i :| 0 <= i < |plan| && Ids(plan)[i] == id;
      assert plan[i].id == id;
    }
  }
}
