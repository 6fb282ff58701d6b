/** Long polling of packages/channel-telegram/src/instance.ts against a server that keeps updates until they are
    confirmed by a later offset. Every stretch of code between two `await`s is one step. */
module Telegram {
  import opened Wrappers

  /** Where a poll loop is suspended: about to test the `while` condition, in `getUpdates`, in `ingestUpdate` with the
      rest of the batch still to do, or in a `delay`. */
  datatype Pc = Top | Polling(offset: nat) | InBatch(rest: seq<nat>) | Delaying

  /** One call of `runLongPoll` with its own abort signal. */
  datatype Loop = Loop(pc: Pc, aborted: bool)

  /** `lastUpdateId`, `longPollRunning` and `longPollAbort` (the index of the loop whose controller it is) are fields of
      the instance; `loops` are the calls of `runLongPoll` so far, None when returned; `ingested` the ids handed to
      `ingestUpdate`. `issued` are the server's update ids in order, `confirmed` the offset below which it discarded. */
  datatype State = State(
    lastUpdateId: nat,
    longPollRunning: bool,
    longPollAbort: Option<nat>,
    loops: seq<Option<Loop>>,
    ingested: seq<nat>,
    issued: seq<nat>,
    confirmed: nat)

  datatype Event =
    | Start
    | Abort
    | Loop_(i: nat)
    | Answer(i: nat, count: nat)
    | PollError(i: nat)
    | IngestFails(i: nat)
    | Issue(id: nat)

  const Initial := State(0, false, None, [], [], [], 0)

  predicate Alive(s: State, i: nat) {
    i < |s.loops| && s.loops[i].Some?
  }

  /** The server's pending updates from an offset on. */
  function PendingFrom(issued: seq<nat>, offset: nat): seq<nat> {
    if issued == [] then []
    else if issued[0] >= offset then issued
    else PendingFrom(issued[1..], offset)
  }

  predicate Enabled(s: State, e: Event) {
    match e
    case Start => true
    case Abort => true
    case Loop_(i) => Alive(s, i) && !s.loops[i].value.pc.Polling?
    case Answer(i, count) =>
      Alive(s, i) && s.loops[i].value.pc.Polling? && count <= |PendingFrom(s.issued, s.loops[i].value.pc.offset)|
    case PollError(i) => Alive(s, i) && s.loops[i].value.pc.Polling?
    case IngestFails(i) => Alive(s, i) && s.loops[i].value.pc.InBatch?
    case Issue(id) => id > 0 && (s.issued == [] || id > s.issued[|s.issued| - 1])
  }

  function Max(a: nat, b: nat): nat {
    if a >= b then a else b
  }

  function At(s: State, i: nat, pc: Pc): State
    requires Alive(s, i)
  {
    s.(loops := s.loops[i := Some(s.loops[i].value.(pc := pc))])
  }

  /** The `finally` of `runLongPoll`. */
  function Exit(s: State, i: nat): State
    requires Alive(s, i)
  {
    s.(loops := s.loops[i := None], longPollRunning := false)
  }

  /** `startLongPolling()`: start, resume. */
  function OnStart(s: State): State {
    if s.longPollRunning then s
    else s.(longPollRunning := true, longPollAbort := Some(|s.loops|), loops := s.loops + [Some(Loop(Top, false))])
  }

  /** `doPause()` and `doStop()`. */
  function OnAbort(s: State): State {
    match s.longPollAbort
    case Some(i) =>
      if Alive(s, i) then s.(longPollAbort := None, loops := s.loops[i := Some(s.loops[i].value.(aborted := true))])
      else s.(longPollAbort := None)
    case None => s
  }

  /** One turn of the `for` loop over a batch, or its end. */
  function OnBatch(s: State, i: nat, rest: seq<nat>): State
    requires Alive(s, i)
  {
    if rest == [] || s.loops[i].value.aborted then At(s, i, Top)
    else
      At(s.(lastUpdateId := Max(s.lastUpdateId, rest[0]), ingested := s.ingested + [rest[0]]), i, InBatch(rest[1..]))
  }

  /** The loop runs on to its next `await`. */
  function OnLoop(s: State, i: nat): State
    requires Alive(s, i) && !s.loops[i].value.pc.Polling?
  {
    var l := s.loops[i].value;
    if l.pc.InBatch? then OnBatch(s, i, l.pc.rest)
    else if l.aborted then Exit(s, i)
    else At(s.(confirmed := Max(s.confirmed, s.lastUpdateId + 1)), i, Polling(s.lastUpdateId + 1))
  }

  /** `getUpdates` resolves with the first `count` pending updates; an empty batch is followed by a delay. */
  function OnAnswer(s: State, i: nat, count: nat): State
    requires Enabled(s, Answer(i, count))
  {
    var batch := PendingFrom(s.issued, s.loops[i].value.pc.offset)[..count];
    if batch == [] then At(s, i, Delaying) else OnBatch(s, i, batch)
  }

  function Step(s: State, e: Event): State
    requires Enabled(s, e)
  {
    match e
    case Start => OnStart(s)
    case Abort => OnAbort(s)
    case Loop_(i) => OnLoop(s, i)
    case Answer(i, count) => OnAnswer(s, i, count)
    case PollError(i) => At(s, i, Delaying)
    case IngestFails(i) => Exit(s, i)
    case Issue(id) => s.(issued := s.issued + [id])
  }

  // ---------- the invariant ----------

  predicate Increasing(ids: seq<nat>) {
    forall i, j | 0 <= i < j < |ids| :: ids[i] < ids[j]
  }

  /** At most one loop is alive, and `longPollRunning` tells whether there is one. */
  predicate OneLoop(s: State) {
    && (forall i, j | 0 <= i < |s.loops| && 0 <= j < |s.loops| && s.loops[i].Some? && s.loops[j].Some? :: i == j)
    && (s.longPollRunning <==> exists i | 0 <= i < |s.loops| :: s.loops[i].Some?)
  }

  /** Every issued id up to `last` has been ingested. */
  predicate AllIngested(s: State, last: nat) {
    forall id | id in s.issued && id <= last :: id in s.ingested
  }

  /** A batch in progress is what the server has next, without gaps. */
  predicate NextBatch(s: State, rest: seq<nat>) {
    && rest <= PendingFrom(s.issued, s.lastUpdateId + 1)
  }

  predicate LoopOk(s: State, l: Loop) {
    match l.pc
    case Polling(offset) => offset == s.lastUpdateId + 1
    case InBatch(rest) => NextBatch(s, rest)
    case _ => true
  }

  predicate Inv(s: State) {
    && OneLoop(s) && Increasing(s.issued) && Increasing(s.ingested)
    && (forall id | id in s.issued :: id > 0)
    && (forall id | id in s.ingested :: id <= s.lastUpdateId && id in s.issued)
    && (s.lastUpdateId == 0 || s.lastUpdateId in s.issued)
    && AllIngested(s, s.lastUpdateId) && s.confirmed <= s.lastUpdateId + 1
    && (forall i | 0 <= i < |s.loops| && s.loops[i].Some? :: LoopOk(s, s.loops[i].value))
    && (s.longPollAbort.Some? ==> s.longPollAbort.value < |s.loops|)
    && (forall i | 0 <= i < |s.loops| && s.loops[i].Some? && !s.loops[i].value.aborted :: s.longPollAbort == Some(i))
  }

  lemma {:induction false} PendingSuffix(issued: seq<nat>, offset: nat)
    requires Increasing(issued)
    ensures var p := PendingFrom(issued, offset);
      && |p| <= |issued| && p == issued[|issued| - |p|..]
      && (forall id | id in p :: id >= offset)
      && (forall k | 0 <= k < |issued| - |p| :: issued[k] < offset)
  {
    if issued != [] && issued[0] < offset {
      PendingSuffix(issued[1..], offset);
      var p := PendingFrom(issued[1..], offset);
      assert p == issued[1..][|issued| - 1 - |p|..] == issued[|issued| - |p|..];
      forall k | 0 <= k < |issued| - |p| ensures issued[k] < offset {
        if k > 0 { assert issued[1..][k - 1] == issued[k]; }
      }
    }
  }

  /** The pending list is determined by where the offset cuts the issued ids. */
  lemma PendingIs(issued: seq<nat>, offset: nat, n: nat)
    requires Increasing(issued) && n <= |issued|
    requires forall k | 0 <= k < n :: issued[k] < offset
    requires n < |issued| ==> issued[n] >= offset
    ensures PendingFrom(issued, offset) == issued[n..]
  {
    PendingSuffix(issued, offset);
    var m := |issued| - |PendingFrom(issued, offset)|;
    var p := PendingFrom(issued, offset);
    assert p != [] ==> p[0] == issued[m] && p[0] in p;
  }

  lemma PendingIssue(issued: seq<nat>, offset: nat, id: nat)
    requires Increasing(issued + [id]) && Increasing(issued)
    ensures PendingFrom(issued, offset) <= PendingFrom(issued + [id], offset)
  {
    PendingSuffix(issued, offset);
    PendingSuffix(issued + [id], offset);
    var p := PendingFrom(issued, offset);
    var n := |issued| - |p|;
    if p == [] {
    } else {
      assert p[0] == issued[n] && p[0] in p;
      PendingIs(issued + [id], offset, n);
      assert (issued + [id])[n..] == issued[n..] + [id];
    }
  }

  /** Handing on the first pending id leaves the rest pending from the next offset. */
  lemma PendingNext(issued: seq<nat>, last: nat)
    requires Increasing(issued) && PendingFrom(issued, last + 1) != []
    ensures var p := PendingFrom(issued, last + 1);
      && p[0] > last && PendingFrom(issued, p[0] + 1) == p[1..]
      && forall id | id in issued && id <= p[0] :: id <= last || id == p[0]
  {
    PendingSuffix(issued, last + 1);
    var p := PendingFrom(issued, last + 1);
    var n := |issued| - |p|;
    assert p[0] == issued[n] && p[0] in p;
    PendingIs(issued, p[0] + 1, n + 1);
    assert issued[n + 1..] == p[1..];
    forall id | id in issued && id <= p[0] ensures id <= last || id == p[0] {
      var k :| 0 <= k < |issued| && issued[k] == id;
      assert k > n ==> issued[n] < issued[k];
    }
  }

  lemma AtKeepsLoops(s: State, i: nat, pc: Pc)
    requires OneLoop(s) && Alive(s, i)
    ensures OneLoop(At(s, i, pc))
  {
    assert At(s, i, pc).loops[i].Some?;
  }

  /** Moving the only live loop to another point keeps the invariant if that point is fine. */
  lemma AtKeepsInv(s: State, i: nat, pc: Pc)
    requires Inv(s) && Alive(s, i) && LoopOk(s, Loop(pc, s.loops[i].value.aborted))
    ensures Inv(At(s, i, pc))
  {
    AtKeepsLoops(s, i, pc);
  }

  lemma ExitKeepsInv(s: State, i: nat)
    requires Inv(s) && Alive(s, i)
    ensures Inv(Exit(s, i))
  {
  }

  lemma StartKeepsInv(s: State)
    requires Inv(s)
    ensures Inv(OnStart(s))
  {
    var s' := OnStart(s);
    if !s.longPollRunning {
      assert forall i | 0 <= i < |s.loops| :: s'.loops[i] == s.loops[i] && s.loops[i].None?;
      assert s'.loops[|s.loops|].Some?;
    }
  }

  lemma AbortKeepsInv(s: State)
    requires Inv(s)
    ensures Inv(OnAbort(s))
  {
    if s.longPollAbort.Some? && Alive(s, s.longPollAbort.value) {
      var i := s.longPollAbort.value;
      assert OnAbort(s).loops[i].Some?;
      assert LoopOk(s, s.loops[i].value);
    }
  }

  lemma BatchKeepsInv(s: State, i: nat, rest: seq<nat>)
    requires Inv(s) && Alive(s, i) && NextBatch(s, rest)
    ensures Inv(OnBatch(s, i, rest))
  {
    if rest == [] || s.loops[i].value.aborted {
      AtKeepsInv(s, i, Top);
    } else {
      var id := rest[0];
      NextId(s, rest);
      HandedOn(s, id);
      Advanced(s, i, rest);
    }
  }

  lemma NextId(s: State, rest: seq<nat>)
    requires Inv(s) && NextBatch(s, rest) && rest != []
    ensures rest[0] > s.lastUpdateId && rest[0] in s.issued
    ensures rest[1..] <= PendingFrom(s.issued, rest[0] + 1)
    ensures forall x | x in s.issued && x <= rest[0] :: x <= s.lastUpdateId || x == rest[0]
  {
    var p := PendingFrom(s.issued, s.lastUpdateId + 1);
    PendingNext(s.issued, s.lastUpdateId);
    PendingSuffix(s.issued, s.lastUpdateId + 1);
    assert rest[0] == p[0] && rest[1..] <= p[1..];
    assert p[0] == s.issued[|s.issued| - |p|];
  }

  lemma Advanced(s: State, i: nat, rest: seq<nat>)
    requires Inv(s) && Alive(s, i) && !s.loops[i].value.aborted && rest != []
    requires rest[0] > s.lastUpdateId && rest[0] in s.issued && rest[1..] <= PendingFrom(s.issued, rest[0] + 1)
    requires Increasing(s.ingested + [rest[0]])
    requires forall x | x in s.issued && x <= rest[0] :: x in s.ingested + [rest[0]]
    requires forall x | x in s.ingested + [rest[0]] :: x <= rest[0] && x in s.issued
    ensures Inv(OnBatch(s, i, rest))
  {
    var s1 := s.(lastUpdateId := rest[0], ingested := s.ingested + [rest[0]]);
    AtKeepsLoops(s1, i, InBatch(rest[1..]));
  }

  /** Handing on the next pending id keeps the log complete and increasing. */
  lemma HandedOn(s: State, id: nat)
    requires Increasing(s.ingested) && id > s.lastUpdateId && id in s.issued && AllIngested(s, s.lastUpdateId)
    requires forall x | x in s.ingested :: x <= s.lastUpdateId && x in s.issued
    requires forall x | x in s.issued && x <= id :: x <= s.lastUpdateId || x == id
    ensures var s1 := s.(lastUpdateId := id, ingested := s.ingested + [id]);
      Increasing(s1.ingested) && AllIngested(s1, id) && forall x | x in s1.ingested :: x <= id && x in s1.issued
  {
    var ids := s.ingested + [id];
    forall i, j | 0 <= i < j < |ids| ensures ids[i] < ids[j] {
      assert s.ingested[i] in s.ingested;
    }
  }

  lemma IssueKeepsInv(s: State, id: nat)
    requires Inv(s) && Enabled(s, Issue(id))
    ensures Inv(Step(s, Issue(id)))
  {
    var s' := Step(s, Issue(id));
    assert Increasing(s'.issued) by {
      forall i, j | 0 <= i < j < |s'.issued| ensures s'.issued[i] < s'.issued[j] {
        assert j < |s.issued| || s.issued[i] <= s.issued[|s.issued| - 1];
      }
    }
    PendingIssue(s.issued, s.lastUpdateId + 1, id);
    assert id > s.lastUpdateId by { LastIsIssued(s, id); }
  }

  /** What has been processed is below whatever the server issues next. */
  lemma LastIsIssued(s: State, id: nat)
    requires Inv(s) && Enabled(s, Issue(id))
    ensures id > s.lastUpdateId
  {
    if s.lastUpdateId > 0 {
      var k :| 0 <= k < |s.issued| && s.issued[k] == s.lastUpdateId;
      assert k < |s.issued| - 1 ==> s.issued[k] < s.issued[|s.issued| - 1];
    }
  }

  lemma StepKeepsInv(s: State, e: Event)
    requires Inv(s) && Enabled(s, e)
    ensures Inv(Step(s, e))
  {
    match e {
      case Start => StartKeepsInv(s);
      case Abort => AbortKeepsInv(s);
      case Loop_(i) =>
        var l := s.loops[i].value;
        assert LoopOk(s, l);
        if l.pc.InBatch? {
          BatchKeepsInv(s, i, l.pc.rest);
        } else if l.aborted {
          ExitKeepsInv(s, i);
        } else {
          AtKeepsInv(s, i, Polling(s.lastUpdateId + 1));
        }
      case Answer(i, count) =>
        var batch := PendingFrom(s.issued, s.loops[i].value.pc.offset)[..count];
        assert LoopOk(s, s.loops[i].value);
        if batch == [] { AtKeepsInv(s, i, Delaying); } else { BatchKeepsInv(s, i, batch); }
      case PollError(i) => AtKeepsInv(s, i, Delaying);
      case IngestFails(i) => ExitKeepsInv(s, i);
      case Issue(id) => IssueKeepsInv(s, id);
    }
  }

  // ---------- runs ----------

  predicate ValidRun(s: State, es: seq<Event>)
    decreases |es|
  {
    es == [] || (Enabled(s, es[0]) && ValidRun(Step(s, es[0]), es[1..]))
  }

  function Final(s: State, es: seq<Event>): State
    requires ValidRun(s, es)
    decreases |es|
  {
    if es == [] then s else Final(Step(s, es[0]), es[1..])
  }

  lemma {:induction false} RunKeepsInv(s: State, es: seq<Event>)
    requires Inv(s) && ValidRun(s, es)
    ensures Inv(Final(s, es))
    decreases |es|
  {
    if es != [] {
      StepKeepsInv(s, es[0]);
      RunKeepsInv(Step(s, es[0]), es[1..]);
    }
  }

  /** At most one loop runs, ingested ids strictly increase, and whatever the server discarded was handed on. */
  predicate Safe(s: State) {
    && OneLoop(s) && Increasing(s.ingested)
    && forall id | id in s.issued && id < s.confirmed :: id in s.ingested
  }

  /** Over every run of polls, errors, aborts in the middle of a batch, pauses and resumes. */
  lemma PollingIsSafe(s: State, es: seq<Event>)
    requires s == Initial && ValidRun(s, es)
    ensures Safe(Final(s, es))
  {
    assert Inv(s);
    RunKeepsInv(s, es);
  }

  /** A resume brings up a loop that will poll exactly when no loop is still running off an abort: a loop that was
      aborted but has not returned makes `startLongPolling` do nothing, and polling stops for good when it returns. */
  lemma ResumeTakesEffect(s: State)
    requires Inv(s)
    ensures (exists i | 0 <= i < |OnStart(s).loops| :: OnStart(s).loops[i].Some? && !OnStart(s).loops[i].value.aborted)
      <==> forall i | 0 <= i < |s.loops| :: s.loops[i].Some? ==> !s.loops[i].value.aborted
  {
    var s' := OnStart(s);
    if !s.longPollRunning {
      assert forall i | 0 <= i < |s.loops| :: s.loops[i].None?;
      var n := |s.loops|;
      assert s'.loops[n].Some? && !s'.loops[n].value.aborted;
    } else {
      var i :| 0 <= i < |s.loops| && s.loops[i].Some?;
    }
  }
}
