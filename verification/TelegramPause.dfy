/** What a pause or stop of the Telegram channel brings about: polling ends, and nothing is lost by it. */
module TelegramPause {
  import opened Wrappers
  import opened Telegram

  /** The loop an event belongs to. */
  function Owner(e: Event): Option<nat> {
    match e
    case Loop_(i) => Some(i)
    case Answer(i, _) => Some(i)
    case PollError(i) => Some(i)
    case IngestFails(i) => Some(i)
    case _ => None
  }

  // ---------- nothing more happens ----------

  /** Every loop that is still there has been aborted. */
  predicate AllAborted(s: State) {
    forall i | 0 <= i < |s.loops| && s.loops[i].Some? :: s.loops[i].value.aborted
  }

  /** From `s` to `f` nothing was handed on or confirmed, no loop was started and no poll was begun. */
  predicate Quiet(s: State, f: State) {
    && f.ingested == s.ingested && f.lastUpdateId == s.lastUpdateId && f.confirmed == s.confirmed
    && |f.loops| == |s.loops|
    && forall i | 0 <= i < |f.loops| && f.loops[i].Some? ::
         s.loops[i].Some? && (f.loops[i].value.pc.Polling? ==> s.loops[i].value.pc.Polling?)
  }

  lemma AbortAborts(s: State)
    requires Inv(s)
    ensures AllAborted(OnAbort(s)) && Quiet(s, OnAbort(s)) && Inv(OnAbort(s))
  {
    AbortKeepsInv(s);
  }

  lemma QuietStep(s: State, e: Event)
    requires AllAborted(s) && Enabled(s, e) && !e.Start?
    ensures AllAborted(Step(s, e)) && Quiet(s, Step(s, e))
  {
  }

  lemma QuietTrans(a: State, b: State, c: State)
    requires Quiet(a, b) && Quiet(b, c)
    ensures Quiet(a, c)
  {
  }

  lemma {:induction false} QuietRun(s: State, es: seq<Event>)
    requires AllAborted(s) && ValidRun(s, es) && forall e | e in es :: !e.Start?
    ensures AllAborted(Final(s, es)) && Quiet(s, Final(s, es))
    decreases |es|
  {
    if es != [] {
      assert es[0] in es && forall e | e in es[1..] :: e in es;
      QuietStep(s, es[0]);
      QuietRun(Step(s, es[0]), es[1..]);
      QuietTrans(s, Step(s, es[0]), Final(s, es));
    }
  }

  /** After a pause or stop, over every continuation without a resume: no further poll begins, and nothing more is
      handed on or confirmed. */
  lemma PauseEndsPolling(s: State, es: seq<Event>)
    requires Inv(s) && ValidRun(OnAbort(s), es) && forall e | e in es :: !e.Start?
    ensures AllAborted(Final(OnAbort(s), es)) && Quiet(s, Final(OnAbort(s), es))
  {
    AbortAborts(s);
    QuietRun(OnAbort(s), es);
    QuietTrans(s, OnAbort(s), Final(OnAbort(s), es));
  }

  // ---------- the loop returns ----------

  /** How many of its own steps an aborted loop still makes. */
  function StepsLeft(pc: Pc): nat {
    if pc.Polling? || pc.InBatch? then 2 else 1
  }

  function OwnSteps(es: seq<Event>, i: nat): nat {
    if es == [] then 0 else (if Owner(es[0]) == Some(i) then 1 else 0) + OwnSteps(es[1..], i)
  }

  predicate Aborted(s: State, i: nat) {
    Alive(s, i) && s.loops[i].value.aborted
  }

  lemma AbortedStep(s: State, e: Event, i: nat)
    requires Inv(s) && Aborted(s, i) && Enabled(s, e)
    ensures var s' := Step(s, e);
      && (Alive(s', i) ==> Aborted(s', i))
      && (Owner(e) != Some(i) ==> Aborted(s', i) && s'.loops[i] == s.loops[i])
      && (Owner(e) == Some(i) && Alive(s', i) ==> StepsLeft(s'.loops[i].value.pc) < StepsLeft(s.loops[i].value.pc))
  {
    if e.Start? { assert s.longPollRunning; }
  }

  lemma {:induction false} ReturnedSteps(s: State, es: seq<Event>, i: nat)
    requires !Alive(s, i) && i < |s.loops| && ValidRun(s, es)
    ensures OwnSteps(es, i) == 0 && !Alive(Final(s, es), i)
    decreases |es|
  {
    if es != [] { ReturnedSteps(Step(s, es[0]), es[1..], i); }
  }

  /** An aborted loop makes at most two more steps of its own, the end of the call it is suspended in included; it
      always can make the next, and it has returned when it has made them. */
  lemma {:induction false} AbortedReturns(s: State, es: seq<Event>, i: nat)
    requires Inv(s) && Aborted(s, i) && ValidRun(s, es)
    ensures var f := Final(s, es);
      && OwnSteps(es, i) <= StepsLeft(s.loops[i].value.pc)
      && (Alive(f, i) ==> Aborted(f, i) && OwnSteps(es, i) < StepsLeft(s.loops[i].value.pc))
    decreases |es|
  {
    if es != [] {
      var s' := Step(s, es[0]);
      StepKeepsInv(s, es[0]);
      AbortedStep(s, es[0], i);
      if Alive(s', i) {
        AbortedReturns(s', es[1..], i);
      } else {
        assert i < |s'.loops|;
        ReturnedSteps(s', es[1..], i);
      }
    }
  }

  /** A live loop is never stuck: it can run on, or its call can end. */
  lemma CanGoOn(s: State, i: nat)
    requires Alive(s, i)
    ensures exists e :: Owner(e) == Some(i) && Enabled(s, e)
  {
    if s.loops[i].value.pc.Polling? {
      assert Owner(PollError(i)) == Some(i) && Enabled(s, PollError(i));
    } else {
      assert Owner(Loop_(i)) == Some(i) && Enabled(s, Loop_(i));
    }
  }

  // ---------- nothing is lost ----------

  lemma {:induction false} PendingGrows(s: State, es: seq<Event>, rest: seq<nat>, offset: nat)
    requires Inv(s) && ValidRun(s, es) && rest <= PendingFrom(s.issued, offset)
    ensures rest <= PendingFrom(Final(s, es).issued, offset)
    decreases |es|
  {
    if es != [] {
      StepKeepsInv(s, es[0]);
      if es[0].Issue? { PendingIssue(s.issued, offset, es[0].id); }
      PendingGrows(Step(s, es[0]), es[1..], rest, offset);
    }
  }

  /** What is left of a batch has not been handed on or confirmed, and is what the server would send next. */
  lemma BatchIsPending(s: State, i: nat)
    requires Inv(s) && Alive(s, i) && s.loops[i].value.pc.InBatch?
    ensures var rest := s.loops[i].value.pc.rest;
      && rest <= PendingFrom(s.issued, s.lastUpdateId + 1)
      && forall id | id in rest :: id >= s.confirmed && id !in s.ingested
  {
    var rest := s.loops[i].value.pc.rest;
    assert LoopOk(s, s.loops[i].value);
    PendingSuffix(s.issued, s.lastUpdateId + 1);
    forall id | id in rest ensures id >= s.confirmed && id !in s.ingested {
      assert id in PendingFrom(s.issued, s.lastUpdateId + 1);
    }
  }

  /** A pause in the middle of a batch: the updates of the batch that were not handed on stay unconfirmed, and are the
      first that the server will send again. */
  lemma PausedBatchStays(s: State, i: nat, es: seq<Event>)
    requires Inv(s) && Alive(s, i) && s.loops[i].value.pc.InBatch?
    requires ValidRun(OnAbort(s), es) && forall e | e in es :: !e.Start?
    ensures var f := Final(OnAbort(s), es); var rest := s.loops[i].value.pc.rest;
      && rest <= PendingFrom(f.issued, f.lastUpdateId + 1)
      && forall id | id in rest :: id >= f.confirmed && id !in f.ingested
  {
    BatchIsPending(s, i);
    AbortAborts(s);
    PauseEndsPolling(s, es);
    PendingGrows(OnAbort(s), es, s.loops[i].value.pc.rest, s.lastUpdateId + 1);
  }

  // ---------- a failed poll ----------

  /** Nobody touches the loop: none of its own events, and no pause. */
  lemma {:induction false} Untouched(s: State, es: seq<Event>, i: nat)
    requires Inv(s) && Alive(s, i) && ValidRun(s, es) && forall e | e in es :: Owner(e) != Some(i) && !e.Abort?
    ensures var f := Final(s, es); Alive(f, i) && f.loops[i] == s.loops[i] && f.lastUpdateId == s.lastUpdateId
    decreases |es|
  {
    if es != [] {
      assert es[0] in es && forall e | e in es[1..] :: e in es;
      OthersLeave(s, es[0], i);
      StepKeepsInv(s, es[0]);
      Untouched(Step(s, es[0]), es[1..], i);
    }
  }

  lemma OthersLeave(s: State, e: Event, i: nat)
    requires Inv(s) && Alive(s, i) && Enabled(s, e) && Owner(e) != Some(i) && !e.Abort?
    ensures var s' := Step(s, e); Alive(s', i) && s'.loops[i] == s.loops[i] && s'.lastUpdateId == s.lastUpdateId
  {
    if e.Start? { assert s.longPollRunning; }
  }

  /** A poll that fails is followed by another from the same offset, unless the loop is aborted in between; whatever
      else happens meanwhile. */
  lemma FailedPollRetries(s: State, i: nat, es: seq<Event>)
    requires Inv(s) && Alive(s, i) && s.loops[i].value.pc.Polling? && !s.loops[i].value.aborted
    requires ValidRun(Step(s, PollError(i)), es) && forall e | e in es :: Owner(e) != Some(i) && !e.Abort?
    ensures var f := Final(Step(s, PollError(i)), es);
      Enabled(f, Loop_(i)) && Step(f, Loop_(i)).loops[i] == s.loops[i]
  {
    assert LoopOk(s, s.loops[i].value);
    StepKeepsInv(s, PollError(i));
    Untouched(Step(s, PollError(i)), es, i);
  }

  // ---------- a batch ----------

  function Turns(i: nat, n: nat): seq<Event> {
    if n == 0 then [] else [Loop_(i)] + Turns(i, n - 1)
  }

  /** A loop that is not aborted hands on the whole rest of its batch, in order. */
  lemma {:induction false} BatchHandedOn(s: State, i: nat, rest: seq<nat>)
    requires Alive(s, i) && s.loops[i] == Some(Loop(InBatch(rest), false))
    ensures ValidRun(s, Turns(i, |rest|))
    ensures var f := Final(s, Turns(i, |rest|));
      f.ingested == s.ingested + rest && Alive(f, i) && f.loops[i] == Some(Loop(InBatch([]), false))
    decreases |rest|
  {
    if rest == [] {
      assert s.ingested + [] == s.ingested;
    } else {
      var es := Turns(i, |rest|);
      var s' := Step(s, Loop_(i));
      assert es[0] == Loop_(i) && es[1..] == Turns(i, |rest| - 1);
      BatchHandedOn(s', i, rest[1..]);
      assert s.ingested + [rest[0]] + rest[1..] == s.ingested + rest;
    }
  }

  lemma AnswerStarts(s: State, i: nat, count: nat)
    requires Inv(s) && Enabled(s, Answer(i, count)) && count > 0 && !s.loops[i].value.aborted
    ensures count <= |PendingFrom(s.issued, s.lastUpdateId + 1)|
    ensures var batch := PendingFrom(s.issued, s.lastUpdateId + 1)[..count]; var s' := Step(s, Answer(i, count));
      && Alive(s', i) && s'.loops[i] == Some(Loop(InBatch(batch[1..]), false))
      && s'.ingested == s.ingested + [batch[0]]
  {
    assert LoopOk(s, s.loops[i].value);
  }

  /** An answered poll of such a loop: all updates of the answer are handed on, in order. */
  lemma AnswerHandedOn(s: State, i: nat, count: nat)
    requires Inv(s) && Enabled(s, Answer(i, count)) && count > 0 && !s.loops[i].value.aborted
    ensures var es := Turns(i, count - 1); var s' := Step(s, Answer(i, count));
      ValidRun(s', es) && Final(s', es).ingested == s.ingested + PendingFrom(s.issued, s.lastUpdateId + 1)[..count]
  {
    AnswerStarts(s, i, count);
    var batch := PendingFrom(s.issued, s.lastUpdateId + 1)[..count];
    BatchHandedOn(Step(s, Answer(i, count)), i, batch[1..]);
    assert s.ingested + [batch[0]] + batch[1..] == s.ingested + batch;
  }
}
