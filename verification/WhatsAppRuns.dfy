/** What the conversation window and the send gate promise over whole runs, and where they break without their
    assumptions. */
module WhatsAppRuns {
  import opened Wrappers
  import opened WhatsApp

  ghost predicate ValidRun(c: Config, s: State, es: seq<Event>)
    decreases |es|
  {
    es == [] || (Enabled(c, s, es[0]) && ValidRun(c, Step(c, s, es[0]), es[1..]))
  }

  ghost predicate OrderlyRun(c: Config, s: State, es: seq<Event>)
    requires ValidRun(c, s, es)
    decreases |es|
  {
    es == [] || (Orderly(c, s, es[0]) && OrderlyRun(c, Step(c, s, es[0]), es[1..]))
  }

  ghost function Final(c: Config, s: State, es: seq<Event>): State
    requires ValidRun(c, s, es)
    decreases |es|
  {
    if es == [] then s else Final(c, Step(c, s, es[0]), es[1..])
  }

  // ---------- agreement ----------

  lemma TickKeeps(c: Config, s: State, to: int)
    requires Agreement(c, s) && to >= s.now
    ensures Agreement(c, Step(c, s, Tick(to)))
  {
    var s' := Step(c, s, Tick(to));
    forall i, w | 0 <= i < |s'.sends| && Holds(s', i, w) ensures TrueEnd(c, s', w) == s'.sends[i].value.phase.value {
      assert Holds(s, i, w);
    }
  }

  lemma EvictKeeps(c: Config, s: State, waId: string)
    requires Agreement(c, s) && Enabled(c, s, Evict(waId))
    ensures Agreement(c, Step(c, s, Evict(waId)))
  {
    var s' := Step(c, s, Evict(waId));
    forall i, w | 0 <= i < |s'.sends| && Holds(s', i, w) ensures TrueEnd(c, s', w) == s'.sends[i].value.phase.value {
      assert Holds(s, i, w);
    }
  }

  lemma StopKeeps(c: Config, s: State, e: Event)
    requires Agreement(c, s) && (e == Stop || (e == Restart && c.hasStore))
    ensures Agreement(c, Step(c, s, e))
  {
    var s' := Step(c, s, e);
    forall i, w | 0 <= i < |s'.sends| && Holds(s', i, w) ensures TrueEnd(c, s', w) == s'.sends[i].value.phase.value {
      assert Holds(s, i, w);
    }
  }

  lemma StepKeepsAgreement(c: Config, s: State, e: Event)
    requires Agreement(c, s) && Enabled(c, s, e) && Orderly(c, s, e)
    ensures Agreement(c, Step(c, s, e))
  {
    match e {
      case Inbound(waId, timestamp) => InboundKeeps(c, s, waId, timestamp);
      case Clear(waId) => ClearKeeps(c, s, waId);
      case StartSend(waId, payload) => StartSendKeeps(c, s, waId, payload);
      case StoreAnswers(i) => StoreAnswersKeeps(c, s, i);
      case Resume(i) => ResumeKeeps(c, s, i);
      case Tick(to) => TickKeeps(c, s, to);
      case Evict(waId) => EvictKeeps(c, s, waId);
      case _ => StopKeeps(c, s, e);
    }
  }

  /** Over every orderly run of messages, clears, sends, restarts and evictions: cache and store agree with the
      messages, and every send was gated by its window. */
  lemma {:induction false} RunsAgree(c: Config, s: State, es: seq<Event>)
    requires Agreement(c, s) && ValidRun(c, s, es) && OrderlyRun(c, s, es)
    ensures Agreement(c, Final(c, s, es))
    decreases |es|
  {
    if es != [] {
      StepKeepsAgreement(c, s, es[0]);
      RunsAgree(c, Step(c, s, es[0]), es[1..]);
    }
  }

  /** `isInWindow(waId)` when nothing else happens between its call and its return. */
  predicate IsInWindow(c: Config, s: State, waId: string) {
    if waId in s.cache then s.cache[waId] > s.now
    else c.hasStore && waId in s.store && s.store[waId].expiresAt > s.now
  }

  /** After every orderly run `isInWindow` is "last uncleared message plus window is in the future", and every send so
      far was gated by its window. */
  lemma InWindowIsExact(c: Config, start: int, es: seq<Event>, waId: string)
    requires ValidRun(c, Initial(start), es) && OrderlyRun(c, Initial(start), es)
    ensures var s := Final(c, Initial(start), es);
      (IsInWindow(c, s, waId) <==> waId in s.last && s.last[waId] + c.window > s.now) && AllGated(c, s.log)
  {
    RunsAgree(c, Initial(start), es);
    AgreementDecides(c, Final(c, Initial(start), es), waId);
  }

  lemma AgreementDecides(c: Config, s: State, waId: string)
    requires Agreement(c, s)
    ensures IsInWindow(c, s, waId) == Open(TrueEnd(c, s, waId), s.now)
  {
    assert waId in s.cache ==> TrueEnd(c, s, waId) == Some(s.cache[waId]);
  }

  /** A free-form send that nothing disturbs reaches the API exactly when its window is open. */
  lemma UndisturbedSend(c: Config, s: State, waId: string, body: string)
    requires Agreement(c, s) && c.enforce
    ensures var n := |s.sends|;
      var s1 := Step(c, s, StartSend(waId, Text(body)));
      var s2 := if Enabled(c, s1, StoreAnswers(n)) then Step(c, s1, StoreAnswers(n)) else s1;
      Enabled(c, s2, Resume(n)) &&
      var log := Step(c, s2, Resume(n)).log;
      log.Sent? && log.before == s.log && (log.outcome.result == CallsApi <==> Open(TrueEnd(c, s, waId), s.now))
  {
    AgreementDecides(c, s, waId);
  }

  /** A message opens its sender's window from its own timestamp on, and a clear closes it. */
  lemma WindowsOpenAndClose(c: Config, s: State, waId: string, timestamp: int)
    ensures IsInWindow(c, Step(c, s, Inbound(waId, timestamp)), waId) <==> timestamp + c.window > s.now
    ensures !IsInWindow(c, Step(c, s, Clear(waId)), waId)
    ensures TrueEnd(c, Step(c, s, Inbound(waId, timestamp)), waId) == Some(timestamp + c.window)
    ensures TrueEnd(c, Step(c, s, Clear(waId)), waId) == None
  {
  }

  /** The steps of a send that nothing disturbs: the lookup, and the gate behind it. */
  function SendAlone(c: Config, s: State, waId: string, payload: Payload): State {
    var n := |s.sends|;
    var s1 := OnStartSend(c, s, waId, payload);
    if Enabled(c, s1, StoreAnswers(n)) then OnResume(c, OnStoreAnswers(c, s1, n), n)
    else if Enabled(c, s1, Resume(n)) then OnResume(c, s1, n)
    else s1
  }

  lemma ReadIsLogged(c: Config, s: State, i: nat, asked: int)
    requires Agreement(c, s) && Enabled(c, s, Resume(i)) && s.sends[i].value.asked == asked
    ensures var send := s.sends[i].value; var log := OnResume(c, s, i).log;
      && log.Sent? && log.before == s.log && log.outcome.waId == send.waId && log.outcome.payload == send.payload
      && ByPolicy(c, log.outcome)
      && (log.outcome.result in {CallsApi, LocalMedia} <==> Open(send.phase.value, asked))
  {
    assert ReadOk(s, s.sends[i].value);
  }

  /** Any send that nothing disturbs is logged once, under its own sender and payload, as the policy says; a free-form
      one under enforcement passes exactly when its window is open. */
  lemma SendIsLogged(c: Config, s: State, waId: string, payload: Payload)
    requires Agreement(c, s)
    ensures var log := SendAlone(c, s, waId, payload).log;
      && log.Sent? && log.before == s.log && log.outcome.waId == waId && log.outcome.payload == payload
      && ByPolicy(c, log.outcome)
      && (!payload.Template? ==>
            (log.outcome.result in {CallsApi, LocalMedia} <==> !c.enforce || Open(TrueEnd(c, s, waId), s.now)))
  {
    var n := |s.sends|;
    var s1 := OnStartSend(c, s, waId, payload);
    AgreementDecides(c, s, waId);
    StartSendKeeps(c, s, waId, payload);
    if Enabled(c, s1, StoreAnswers(n)) {
      StoreAnswersKeeps(c, s1, n);
      ReadIsLogged(c, OnStoreAnswers(c, s1, n), n, s.now);
    } else if Enabled(c, s1, Resume(n)) {
      ReadIsLogged(c, s1, n, s.now);
    }
  }

  // ---------- where the assumptions are needed ----------

  /** A message or a clear that lands while a store read for its sender has not returned yet: when it returns, it
      overwrites the cache, and the cache agrees only if the message happened to have the very same window end. */
  lemma StaleWarm(c: Config, s: State, i: nat, waId: string, e: Event)
    requires Holds(s, i, waId) && (e == Clear(waId) || (e.Inbound? && e.waId == waId))
    ensures Enabled(c, Step(c, s, e), Resume(i))
    ensures var s2 := Step(c, Step(c, s, e), Resume(i));
      Get(s2.cache, waId) == TrueEnd(c, s2, waId)
      <==> (e.Inbound? && e.timestamp + c.window == s.sends[i].value.phase.value.value)
  {
  }

  /** The store keeps a row for one window from the write, whatever the message's own timestamp. Losing it to eviction
      and a restart goes unnoticed for every later clock exactly when the message was not stamped in the future. */
  lemma FutureTimestamps(c: Config, s: State, waId: string, timestamp: int)
    requires c.hasStore
    ensures timestamp <= s.now <==>
      forall to | to >= s.now + c.window ::
        var s1 := Evicted(c, s, waId, timestamp, to);
        IsInWindow(c, s1, waId) == Open(TrueEnd(c, s1, waId), s1.now)
  {
    if timestamp > s.now {
      var to := s.now + c.window;
      var s1 := Evicted(c, s, waId, timestamp, to);
      assert !IsInWindow(c, s1, waId) && Open(TrueEnd(c, s1, waId), s1.now);
    }
  }

  /** A message, then time passes, its row is evicted, and the process restarts. */
  function Evicted(c: Config, s: State, waId: string, timestamp: int, to: int): State
    requires c.hasStore && to >= s.now + c.window
  {
    var s1 := Step(c, Step(c, s, Inbound(waId, timestamp)), Tick(to));
    Step(c, Step(c, s1, Evict(waId)), Restart)
  }

  /** Without a store a restart forgets the windows: harmless exactly when none was open. */
  lemma RestartWithoutStore(c: Config, s: State)
    requires !c.hasStore
    ensures (forall waId :: IsInWindow(c, Step(c, s, Restart), waId) == Open(TrueEnd(c, s, waId), s.now))
      <==> forall waId | waId in s.last :: !Open(TrueEnd(c, s, waId), s.now)
  {
    var s' := Step(c, s, Restart);
    assert forall waId :: !IsInWindow(c, s', waId);
    assert forall waId | waId !in s.last :: TrueEnd(c, s, waId) == None;
  }

  // ---------- the queue ----------

  /** The payloads queued for a sender since the start, in order. */
  function QueuedIn(log: Log, waId: string): seq<Payload> {
    if log.Started? then []
    else if log.outcome.result == Queued && log.outcome.waId == waId
    then QueuedIn(log.before, waId) + [log.outcome.payload]
    else QueuedIn(log.before, waId)
  }

  function CountQueued(log: Log): nat {
    if log.Started? then 0 else CountQueued(log.before) + if log.outcome.result == Queued then 1 else 0
  }

  ghost predicate QueueOk(s: State) {
    && (forall waId :: QueueOf(s.queue, waId) == QueuedIn(s.log, waId))
    && Total(s.queue) == CountQueued(s.log)
  }

  ghost function Total(queue: map<string, seq<Payload>>): nat
    decreases |queue|
  {
    if queue == map[] then 0 else
      var waId :| waId in queue;
      |queue[waId]| + Total(queue - {waId})
  }

  lemma {:induction false} TotalWithout(queue: map<string, seq<Payload>>, waId: string)
    requires waId in queue
    ensures Total(queue) == |queue[waId]| + Total(queue - {waId})
    decreases |queue|
  {
    var w :| w in queue && Total(queue) == |queue[w]| + Total(queue - {w});
    if w != waId {
      TotalWithout(queue - {w}, waId);
      TotalWithout(queue - {waId}, w);
      assert queue - {w} - {waId} == queue - {waId} - {w};
    }
  }

  lemma TotalPush(queue: map<string, seq<Payload>>, waId: string, payload: Payload)
    ensures Total(queue[waId := QueueOf(queue, waId) + [payload]]) == Total(queue) + 1
  {
    var queue' := queue[waId := QueueOf(queue, waId) + [payload]];
    TotalWithout(queue', waId);
    assert queue' - {waId} == queue - {waId};
    if waId in queue { TotalWithout(queue, waId); } else { assert queue - {waId} == queue; }
  }

  lemma FinishKeepsQueue(s: State, o: Outcome)
    requires QueueOk(s)
    ensures QueueOk(Finish(s, o))
  {
    TotalPush(s.queue, o.waId, o.payload);
  }

  lemma StepKeepsQueue(c: Config, s: State, e: Event)
    requires QueueOk(s) && Enabled(c, s, e)
    ensures QueueOk(Step(c, s, e))
  {
    match e {
      case StartSend(waId, payload) =>
        FinishKeepsQueue(s, Outcome(waId, payload, s.now, s.now, TrueEnd(c, s, waId), Deliver(c, payload)));
      case Resume(i) =>
        var s' := OnResume(c, s, i);
        FinishKeepsQueue(s.(cache := s'.cache, sends := s'.sends), s'.log.outcome);
      case _ =>
    }
  }

  /** A stop empties all queues. */
  lemma StopEmptiesQueues(c: Config, s: State, waId: string)
    ensures QueueOf(Step(c, s, Stop).queue, waId) == [] && Total(Step(c, s, Stop).queue) == 0
  {
  }

  /** Over every run the queues hold exactly the sends queued since the start, in order, so their lengths add up to the
      number of those sends. */
  lemma {:induction false} QueuesAreExact(c: Config, s: State, es: seq<Event>)
    requires QueueOk(s) && ValidRun(c, s, es)
    ensures QueueOk(Final(c, s, es))
    decreases |es|
  {
    if es != [] {
      StepKeepsQueue(c, s, es[0]);
      QueuesAreExact(c, Step(c, s, es[0]), es[1..]);
    }
  }
}
