/** The reconnect loops of packages/cli/src/fleet-logs-stream.ts and the `stop()` of the handle that owns them. Every
    stretch of code between two `await`s is one step. */
module HostTail {
  import opened Arithmetic

  /** A host's loop is inside `streamOnce`, waits for its backoff timer, or has returned. */
  datatype Loop = Streaming | Waiting(timer: bool) | Finished

  /** `delays` are the waits since the last stream that ended cleanly, that stream's own included. */
  datatype Host = Host(loop: Loop, currentDelay: nat, delays: seq<nat>)

  datatype Config = Config(initialDelay: nat, maxDelay: nat)

  datatype State = State(hosts: seq<Host>, stopped: bool)

  /** A stream ends before the response arrived, or `connected`, and then cleanly or by breaking. */
  datatype Event = StreamEnds(i: nat, connected: bool, clean: bool) | TimerFires(i: nat) | Stop

  function Initial(c: Config, n: nat): State {
    State(seq(n, _ => Host(Streaming, c.initialDelay, [])), false)
  }

  predicate Enabled(s: State, e: Event) {
    match e
    case StreamEnds(i, connected, clean) => i < |s.hosts| && s.hosts[i].loop.Streaming? && (clean ==> connected)
    case TimerFires(i) => i < |s.hosts| && s.hosts[i].loop == Waiting(true)
    case Stop => true
  }

  function Min(a: nat, b: nat): nat {
    if a <= b then a else b
  }

  /** The loop from the end of `streamOnce` to its next `await`. */
  function AfterStream(c: Config, h: Host, stopped: bool, clean: bool): Host {
    var delay := if clean then c.initialDelay else h.currentDelay;
    if stopped then Host(Finished, delay, h.delays)
    else Host(Waiting(true), delay, (if clean then [] else h.delays) + [delay])
  }

  function AfterTimer(c: Config, h: Host, stopped: bool): Host {
    Host(if stopped then Finished else Streaming, Min(h.currentDelay * 2, c.maxDelay), h.delays)
  }

  /** `stop()` clears a pending timer; the promise the loop waits for is not resolved by that. */
  function Cleared(h: Host): Host {
    if h.loop.Waiting? then h.(loop := Waiting(false)) else h
  }

  function ClearAll(hosts: seq<Host>): (r: seq<Host>)
    ensures |r| == |hosts| && forall i | 0 <= i < |hosts| :: r[i] == Cleared(hosts[i])
  {
    seq(|hosts|, i requires 0 <= i < |hosts| => Cleared(hosts[i]))
  }

  function Step(c: Config, s: State, e: Event): State
    requires Enabled(s, e)
  {
    match e
    case StreamEnds(i, _, clean) => s.(hosts := s.hosts[i := AfterStream(c, s.hosts[i], s.stopped, clean)])
    case TimerFires(i) => s.(hosts := s.hosts[i := AfterTimer(c, s.hosts[i], s.stopped)])
    case Stop => if s.stopped then s else State(ClearAll(s.hosts), true)
  }

  // ---------- the delays ----------

  /** The k-th wait since a clean end. */
  function Wait(c: Config, k: nat): nat {
    if k == 0 then c.initialDelay else Min(Wait(c, k - 1) * 2, c.maxDelay)
  }

  lemma DoublesOnce(d: nat, p: nat)
    ensures d * (2 * p) == d * p * 2
  {
  }

  lemma DoublesBelow(x: nat, y: nat, max: nat)
    requires y == x * 2
    ensures Min(Min(x, max) * 2, max) == Min(y, max)
  {
  }

  /** The waits double up to the maximum. */
  lemma {:induction false} WaitDoubles(c: Config, k: nat)
    requires c.initialDelay <= c.maxDelay
    ensures Wait(c, k) == Min(c.initialDelay * Pow2(k), c.maxDelay)
  {
    if k > 0 {
      WaitDoubles(c, k - 1);
      DoublesOnce(c.initialDelay, Pow2(k - 1));
      DoublesBelow(c.initialDelay * Pow2(k - 1), c.initialDelay * Pow2(k), c.maxDelay);
    }
  }

  lemma {:induction false} WaitGrows(c: Config, k: nat)
    requires 0 < c.initialDelay < c.maxDelay && k > 0
    ensures Wait(c, k) > c.initialDelay
  {
    if k > 1 { WaitGrows(c, k - 1); }
  }

  /** A successful connect does not reset the backoff, a clean end does: after a stream that connected, the next wait
      is the initial one exactly when the stream ended cleanly, or when no wait has come before it, provided that
      waits grow at all. */
  lemma ConnectDoesNotReset(c: Config, s: State, i: nat, clean: bool)
    requires Inv(c, s) && !s.stopped && Enabled(s, StreamEnds(i, true, clean))
    ensures var h := Step(c, s, StreamEnds(i, true, clean)).hosts[i];
      && h.loop.Waiting? && h.currentDelay == Wait(c, if clean then 0 else |s.hosts[i].delays|)
      && (0 < c.initialDelay < c.maxDelay ==>
            (h.currentDelay == c.initialDelay <==> clean || s.hosts[i].delays == []))
  {
    assert HostOk(c, s.hosts[i], s.stopped);
    if 0 < c.initialDelay < c.maxDelay && s.hosts[i].delays != [] { WaitGrows(c, |s.hosts[i].delays|); }
  }

  predicate DelaysOk(c: Config, h: Host) {
    var n := |h.delays|;
    && (forall k | 0 <= k < n :: h.delays[k] == Wait(c, k))
    && (h.loop.Waiting? ==> n > 0 && h.currentDelay == Wait(c, n - 1))
    && (h.loop.Streaming? ==> h.currentDelay == Wait(c, n))
  }

  predicate HostOk(c: Config, h: Host, stopped: bool) {
    && DelaysOk(c, h)
    && (h.loop.Waiting? ==> h.loop.timer == !stopped)
    && (h.loop.Finished? ==> stopped)
  }

  predicate Inv(c: Config, s: State) {
    forall i | 0 <= i < |s.hosts| :: HostOk(c, s.hosts[i], s.stopped)
  }

  lemma StreamKeepsHost(c: Config, h: Host, stopped: bool, clean: bool)
    requires HostOk(c, h, stopped) && h.loop.Streaming?
    ensures HostOk(c, AfterStream(c, h, stopped, clean), stopped)
  {
    var before := if clean then [] else h.delays;
    var delays := AfterStream(c, h, stopped, clean).delays;
    assert !stopped ==> |delays| == |before| + 1 && forall k | 0 <= k < |before| :: delays[k] == h.delays[k];
  }

  lemma TimerKeepsHost(c: Config, h: Host, stopped: bool)
    requires HostOk(c, h, stopped) && h.loop == Waiting(true)
    ensures HostOk(c, AfterTimer(c, h, stopped), stopped)
  {
  }

  lemma StopKeepsHost(c: Config, h: Host)
    requires HostOk(c, h, false)
    ensures HostOk(c, Cleared(h), true)
  {
  }

  lemma StepKeepsInv(c: Config, s: State, e: Event)
    requires Inv(c, s) && Enabled(s, e)
    ensures Inv(c, Step(c, s, e))
  {
    match e {
      case StreamEnds(i, _, clean) => StreamKeepsHost(c, s.hosts[i], s.stopped, clean);
      case TimerFires(i) => TimerKeepsHost(c, s.hosts[i], s.stopped);
      case Stop =>
        if !s.stopped {
          forall i | 0 <= i < |s.hosts| ensures HostOk(c, Cleared(s.hosts[i]), true) { StopKeepsHost(c, s.hosts[i]); }
        }
    }
  }

  // ---------- runs ----------

  predicate ValidRun(c: Config, s: State, es: seq<Event>)
    decreases |es|
  {
    es == [] || (Enabled(s, es[0]) && ValidRun(c, Step(c, s, es[0]), es[1..]))
  }

  function Final(c: Config, s: State, es: seq<Event>): State
    requires ValidRun(c, s, es)
    decreases |es|
  {
    if es == [] then s else Final(c, Step(c, s, es[0]), es[1..])
  }

  /** The invariant over every run: the k-th wait of each host since its last clean end is `Wait(k)`, no loop returns
      before `stop()`, and a waiting loop has its timer until then. */
  lemma {:induction false} RunKeepsInv(c: Config, s: State, es: seq<Event>)
    requires Inv(c, s) && ValidRun(c, s, es)
    ensures Inv(c, Final(c, s, es)) && |Final(c, s, es).hosts| == |s.hosts|
    ensures s.stopped ==> Final(c, s, es).stopped
    decreases |es|
  {
    if es != [] {
      StepKeepsInv(c, s, es[0]);
      RunKeepsInv(c, Step(c, s, es[0]), es[1..]);
    }
  }

  // ---------- retries ----------

  /** The host whose loop an event moves. */
  predicate Moves(e: Event, i: nat) {
    match e
    case StreamEnds(j, _, _) => j == i
    case TimerFires(j) => j == i
    case Stop => false
  }

  /** An even number of the events are the host's own. */
  predicate Even(es: seq<Event>, i: nat) {
    es == [] || (Even(es[1..], i) != Moves(es[0], i))
  }

  /** A host's own event ends its stream or its wait; other events leave it alone. */
  lemma Toggles(c: Config, s: State, i: nat, e: Event)
    requires Inv(c, s) && !s.stopped && i < |s.hosts| && Enabled(s, e) && e != Stop
    ensures var s' := Step(c, s, e);
      && !s'.stopped && |s'.hosts| == |s.hosts|
      && (s'.hosts[i].loop.Streaming? <==> (s.hosts[i].loop.Streaming? <==> !Moves(e, i)))
  {
    assert HostOk(c, s.hosts[i], s.stopped);
  }

  /** Until `stop()` every host streams, waits, streams again, and so on: each end of a stream is followed by a wait,
      and each wait by another stream, whatever the other hosts do. */
  lemma {:induction false} KeepsRetrying(c: Config, s: State, i: nat, es: seq<Event>)
    requires Inv(c, s) && !s.stopped && i < |s.hosts| && ValidRun(c, s, es) && Stop !in es
    ensures var f := Final(c, s, es);
      && !f.stopped && i < |f.hosts| && (f.hosts[i].loop.Streaming? || f.hosts[i].loop == Waiting(true))
      && (f.hosts[i].loop.Streaming? <==> (s.hosts[i].loop.Streaming? <==> Even(es, i)))
    decreases |es|
  {
    assert HostOk(c, s.hosts[i], s.stopped);
    if es != [] {
      assert es[0] in es && forall e | e in es[1..] :: e in es;
      StepKeepsInv(c, s, es[0]);
      Toggles(c, s, i, es[0]);
      KeepsRetrying(c, Step(c, s, es[0]), i, es[1..]);
    }
  }

  // ---------- stop ----------

  /** What `done` and `stop()` wait for. */
  predicate Done(s: State) {
    forall i | 0 <= i < |s.hosts| :: s.hosts[i].loop.Finished?
  }

  predicate SomeWaiting(s: State) {
    exists i | 0 <= i < |s.hosts| :: s.hosts[i].loop.Waiting?
  }

  /** A loop that was waiting when `stop()` came waits forever. */
  lemma {:induction false} StuckForever(c: Config, s: State, i: nat, es: seq<Event>)
    requires i < |s.hosts| && s.stopped && s.hosts[i].loop == Waiting(false) && ValidRun(c, s, es)
    ensures var f := Final(c, s, es); i < |f.hosts| && f.hosts[i].loop == Waiting(false)
    decreases |es|
  {
    if es != [] { StuckForever(c, Step(c, s, es[0]), i, es[1..]); }
  }

  function StreamingHosts(s: State): set<nat> {
    set i | 0 <= i < |s.hosts| && s.hosts[i].loop.Streaming?
  }

  /** After `stop()` every stream that ends, cleanly or by the abort, finishes its loop for good. */
  lemma {:induction false} StreamsFinish(c: Config, s: State) returns (es: seq<Event>)
    requires Inv(c, s) && s.stopped && !SomeWaiting(s)
    ensures ValidRun(c, s, es) && Done(Final(c, s, es))
    decreases |StreamingHosts(s)|
  {
    if i :| 0 <= i < |s.hosts| && s.hosts[i].loop.Streaming? {
      var e := StreamEnds(i, false, false);
      var s1 := Step(c, s, e);
      StepKeepsInv(c, s, e);
      assert StreamingHosts(s1) == StreamingHosts(s) - {i};
      var more := StreamsFinish(c, s1);
      es := [e] + more;
      assert es[0] == e && es[1..] == more;
    } else {
      es := [];
      assert forall i | 0 <= i < |s.hosts| :: !s.hosts[i].loop.Waiting?;
    }
  }

  /** `stop()` can return exactly when no host was waiting for its next attempt at that moment. */
  lemma StopReturnsIff(c: Config, s: State)
    requires Inv(c, s) && !s.stopped
    ensures CanReturn(c, Step(c, s, Stop)) <==> !SomeWaiting(s)
  {
    var s' := Step(c, s, Stop);
    StepKeepsInv(c, s, Stop);
    if i :| 0 <= i < |s.hosts| && s.hosts[i].loop.Waiting? {
      assert s'.hosts[i] == Cleared(s.hosts[i]);
      forall es | ValidRun(c, s', es) ensures !Done(Final(c, s', es)) { StuckForever(c, s', i, es); }
    } else {
      assert !SomeWaiting(s);
      forall i | 0 <= i < |s'.hosts| ensures !s'.hosts[i].loop.Waiting? { assert s'.hosts[i] == Cleared(s.hosts[i]); }
      var es := StreamsFinish(c, s');
      assert CanReturn(c, s');
    }
  }

  /** Some continuation lets every loop return. */
  ghost predicate CanReturn(c: Config, s: State) {
    exists es :: ValidRun(c, s, es) && Done(Final(c, s, es))
  }

  // ---------- in place ----------

  /** `tailLogsMultiHost`: the flag and the per-host records its loops and `stop()` share. */
  class Tail {
    const config: Config
    var stopped: bool
    var perHostState: seq<Host>

    ghost function View(): State
      reads this
    {
      State(perHostState, stopped)
    }

    constructor (config: Config, hosts: nat)
      ensures View() == Initial(config, hosts) && this.config == config
    {
      this.config := config;
      stopped := false;
      perHostState := seq(hosts, _ => Host(Streaming, config.initialDelay, []));
    }

    /** `runHostLoop` after `streamOnce` has returned or thrown; Some wait is announced unless the loop ends. */
    method EndStream(i: nat, connected: bool, clean: bool)
      requires Enabled(View(), StreamEnds(i, connected, clean))
      modifies this`perHostState
      ensures View() == Step(config, old(View()), StreamEnds(i, connected, clean))
    {
      var h := perHostState[i];
      if clean { h := h.(currentDelay := config.initialDelay); }
      if stopped {
        perHostState := perHostState[i := h.(loop := Finished)];
        return;
      }
      var delay := h.currentDelay;
      if clean { h := h.(delays := []); }
      perHostState := perHostState[i := h.(loop := Waiting(true), delays := h.delays + [delay])];
    }

    method FireTimer(i: nat)
      requires Enabled(View(), TimerFires(i))
      modifies this`perHostState
      ensures View() == Step(config, old(View()), TimerFires(i))
    {
      var h := perHostState[i];
      var doubled := h.currentDelay * 2;
      h := h.(currentDelay := if doubled <= config.maxDelay then doubled else config.maxDelay);
      perHostState := perHostState[i := h.(loop := if stopped then Finished else Streaming)];
    }

    method CallStop()
      modifies this
      ensures View() == Step(config, old(View()), Stop)
    {
      if stopped { return; }
      stopped := true;
      for i := 0 to |perHostState|
        invariant stopped && |perHostState| == |old(perHostState)|
        invariant forall j | 0 <= j < i :: perHostState[j] == Cleared(old(perHostState)[j])
        invariant forall j | i <= j < |perHostState| :: perHostState[j] == old(perHostState)[j]
      {
        var h := perHostState[i];
        if h.loop.Waiting? { perHostState := perHostState[i := h.(loop := Waiting(false))]; }
      }
      assert perHostState == ClearAll(old(perHostState));
    }
  }
}
