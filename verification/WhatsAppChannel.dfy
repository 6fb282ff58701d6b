/** `ConversationWindowTracker` and the outbound side of `WhatsAppChannelInstance` in their own form: maps updated by
    methods, each cut at its `await`s. */
module WhatsAppChannel {
  import opened Wrappers
  import opened WhatsApp
  import opened WhatsAppRuns

  class Channel {
    const config: Config
    var cache: map<string, int>
    var store: map<string, Row>
    var outOfWindowQueue: map<string, seq<Payload>>
    // The clock, the sends under way, and what happened so far.
    var now: int
    ghost var sends: seq<Option<Send>>
    ghost var last: map<string, int>
    ghost var log: Log

    ghost function View(): State
      reads this
    {
      State(cache, store, outOfWindowQueue, sends, now, last, log)
    }

    constructor (config: Config, now: int)
      ensures View() == Initial(now) && this.config == config
    {
      this.config, this.now := config, now;
      cache, store, outOfWindowQueue := map[], map[], map[];
      sends, last, log := [], map[], Started;
    }

    method RecordInbound(waId: string, timestampMs: Option<int>)
      modifies this
      ensures View() == Step(config, old(View()),
                             Inbound(waId, if timestampMs.Some? then timestampMs.value else old(now)))
    {
      var base := if timestampMs.Some? then timestampMs.value else now;
      var expiresAt := base + config.window;
      cache := cache[waId := expiresAt];
      if config.hasStore { store := store[waId := Row(expiresAt, now + config.window)]; }
      last := last[waId := base];
    }

    method Forget(waId: string)
      modifies this
      ensures View() == Step(config, old(View()), Clear(waId))
    {
      cache := cache - {waId};
      store := store - {waId};
      last := last - {waId};
    }

    /** `windowEndMs()` up to the store read: None when it has to wait for the store. */
    method LookInCache(waId: string) returns (known: Option<Option<int>>)
      ensures known
        == (match Lookup(config, View(), waId) case Read(value, _, _, _) => Some(value) case Reading => None)
    {
      if waId in cache { return Some(Some(cache[waId])); }
      if !config.hasStore { return Some(None); }
      return None;
    }

    /** `doSend()` up to its first `await`: Some(result) when it does not have one. */
    method BeginSend(waId: string, payload: Payload) returns (done: Option<Result>)
      modifies this
      ensures View() == Step(config, old(View()), StartSend(waId, payload))
      ensures done == if payload.Template? || !config.enforce then Some(Deliver(config, payload)) else None
    {
      if !payload.Template? && config.enforce {
        sends := sends + [Some(Send(waId, payload, now, Lookup(config, View(), waId)))];
        return None;
      }
      var result := Transmit(payload);
      done := Some(result);
      log := Sent(log, Outcome(waId, payload, now, now, TrueEnd(config, View(), waId), result));
    }

    /** `doSend()` after its window lookup: `value` is what the cache or the store said. */
    method EndSend(i: nat, waId: string, payload: Payload, asked: int, value: Option<int>, warm: bool)
      returns (result: Result)
      requires Enabled(config, View(), Resume(i))
      requires sends[i].value.waId == waId && sends[i].value.payload == payload && sends[i].value.asked == asked
      requires sends[i].value.phase.value == value && sends[i].value.phase.warm == warm
      modifies this`cache, this`outOfWindowQueue, this`sends, this`log
      ensures View() == Step(config, old(View()), Resume(i))
      ensures result == if Open(value, asked) then Deliver(config, payload) else OutOfWindow(config)
    {
      ghost var p := sends[i].value.phase;
      if warm && value.Some? { cache := cache[waId := value.value]; }
      result := PassGate(waId, payload, value.Some? && value.value > asked);
      sends := sends[i := None];
      log := Sent(log, Outcome(waId, payload, asked, p.at, p.end, result));
    }

    method PassGate(waId: string, payload: Payload, inWindow: bool) returns (result: Result)
      modifies this`outOfWindowQueue
      ensures result == if inWindow then Deliver(config, payload) else OutOfWindow(config)
      ensures outOfWindowQueue == if result == Queued
        then old(outOfWindowQueue)[waId := QueueOf(old(outOfWindowQueue), waId) + [payload]]
        else old(outOfWindowQueue)
    {
      if inWindow {
        result := Transmit(payload);
      } else {
        result := HandleOutOfWindow(payload, waId);
      }
    }

    /** The calls of `doSend()` to the API. */
    method Transmit(payload: Payload) returns (result: Result)
      ensures result == Deliver(config, payload)
    {
      if payload.Template? {
        if payload.name !in config.templates { return NotCached(payload.name); }
        return CallsTemplate(payload.name);
      }
      if payload.Media? && payload.hasPath && !payload.hasUrl { return LocalMedia; }
      return CallsApi;
    }

    method HandleOutOfWindow(payload: Payload, waId: string) returns (result: Result)
      modifies this`outOfWindowQueue
      ensures result == OutOfWindow(config)
      ensures outOfWindowQueue == if result == Queued
        then old(outOfWindowQueue)[waId := QueueOf(old(outOfWindowQueue), waId) + [payload]]
        else old(outOfWindowQueue)
    {
      match config.action {
        case Drop => return Dropped;
        case Queue =>
          var queued := if waId in outOfWindowQueue then outOfWindowQueue[waId] else [];
          queued := queued + [payload];
          outOfWindowQueue := outOfWindowQueue[waId := queued];
          return Queued;
        case UseTemplate =>
          if config.defaultTemplate == "" { return NoDefaultTemplate; }
          if config.defaultTemplate !in config.templates { return NotCached(config.defaultTemplate); }
          return CallsTemplate(config.defaultTemplate);
      }
    }

    method DoStop()
      modifies this
      ensures View() == Step(config, old(View()), Stop)
    {
      outOfWindowQueue := map[];
      log := Started;
    }

    /** `totalQueuedMessages()`: the number of sends queued since the start. */
    method TotalQueuedMessages() returns (count: nat)
      requires QueueOk(View())
      ensures count == CountQueued(log)
    {
      count := 0;
      var rest := outOfWindowQueue;
      while rest != map[]
        invariant count + Total(rest) == CountQueued(log)
        decreases |rest|
      {
        var waId :| waId in rest;
        TotalWithout(rest, waId);
        count := count + |rest[waId]|;
        rest := rest - {waId};
      }
    }
  }
}
