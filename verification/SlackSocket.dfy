/** The reconnecting Socket Mode transport of packages/channel-slack/src/client.ts as a step system: the transport's
    own variables, and the sockets, the timer and the URL fetches the runtime holds for it. */
module SlackSocket {
  import opened Wrappers
  import opened Arithmetic

  /** Life of one WebSocket: its `close` event fires once, after which it is gone. */
  datatype Socket = Connecting | Open | Closing | Gone

  /** Where the one `connect()` call stands. */
  datatype Connect = NotCalled | Fetching | Failed | Created

  /** `ws`, `closed`, `isConnected`, `reconnectAttempt` and `timer` are the closure's variables; `fetches` counts
      `reopen()` calls suspended in `getUrl()`; `delays` are the backoff delays since the last open. */
  datatype State = State(
    ws: Option<nat>,
    closed: bool,
    isConnected: bool,
    attempt: nat,
    timer: bool,
    sockets: seq<Socket>,
    fetches: nat,
    connect: Connect,
    delays: seq<nat>)

  datatype Event =
    | CallConnect
    | ConnectUrl(created: bool)
    | SocketOpen(id: nat)
    | SocketClose(id: nat)
    | TimerFires
    | ReopenUrl(created: bool)
    | CallClose

  const Initial := State(None, false, false, 0, false, [], 0, NotCalled, [])

  /** `Math.min(1000 * 2 ** attempt, 30_000)`. */
  function Backoff(attempt: nat): nat {
    var d := 1000 * Pow2(attempt);
    if d < 30000 then d else 30000
  }

  predicate Enabled(s: State, e: Event) {
    match e
    case CallConnect => s.connect == NotCalled
    case ConnectUrl(_) => s.connect == Fetching
    case SocketOpen(id) => id < |s.sockets| && s.sockets[id] == Connecting
    case SocketClose(id) => id < |s.sockets| && s.sockets[id] != Gone
    case TimerFires => s.timer
    case ReopenUrl(_) => s.fetches > 0
    case CallClose => true
  }

  // ---------- the handlers ----------

  function ScheduleReconnect(s: State): State {
    if s.closed || s.timer then s
    else s.(attempt := s.attempt + 1, timer := true, delays := s.delays + [Backoff(s.attempt)])
  }

  function NewSocket(s: State): State {
    s.(ws := Some(|s.sockets|), sockets := s.sockets + [Connecting])
  }

  function OnOpen(s: State, id: nat): State
    requires id < |s.sockets|
  {
    s.(isConnected := true, attempt := 0, delays := [], sockets := s.sockets[id := Open])
  }

  function OnClose(s: State, id: nat): State
    requires id < |s.sockets|
  {
    ScheduleReconnect(s.(isConnected := false, sockets := s.sockets[id := Gone]))
  }

  /** The timer callback, up to the `await` in `reopen()`. */
  function OnTimer(s: State): State {
    var s' := s.(timer := false);
    if s.closed then s' else s'.(fetches := s'.fetches + 1)
  }

  /** The rest of `reopen()`: it does not look at `closed` again. */
  function OnReopenUrl(s: State, created: bool): State
    requires s.fetches > 0
  {
    var s' := s.(fetches := s.fetches - 1);
    if created then NewSocket(s') else ScheduleReconnect(s')
  }

  function OnCallClose(s: State): State {
    var s' := s.(closed := true, isConnected := false, timer := false, ws := None);
    match s.ws
    case Some(id) => if id < |s.sockets| && s.sockets[id] in {Connecting, Open}
                     then s'.(sockets := s.sockets[id := Closing]) else s'
    case None => s'
  }

  function Step(s: State, e: Event): State
    requires Enabled(s, e)
  {
    match e
    case CallConnect => s.(connect := Fetching)
    case ConnectUrl(created) => if created then NewSocket(s).(connect := Created) else s.(connect := Failed)
    case SocketOpen(id) => OnOpen(s, id)
    case SocketClose(id) => OnClose(s, id)
    case TimerFires => OnTimer(s)
    case ReopenUrl(created) => OnReopenUrl(s, created)
    case CallClose => OnCallClose(s)
  }

  // ---------- what is pending ----------

  /** Sockets whose `close` event has not fired. */
  function Pending(sockets: seq<Socket>): nat {
    if sockets == [] then 0 else (if sockets[0] == Gone then 0 else 1) + Pending(sockets[1..])
  }

  lemma {:induction false} PendingUpdate(sockets: seq<Socket>, id: nat, x: Socket)
    requires id < |sockets|
    ensures Pending(sockets[id := x])
         == Pending(sockets) - (if sockets[id] == Gone then 0 else 1) + (if x == Gone then 0 else 1)
  {
    if id > 0 {
      assert sockets[id := x][1..] == sockets[1..][id - 1 := x];
      PendingUpdate(sockets[1..], id - 1, x);
    } else {
      assert sockets[id := x][1..] == sockets[1..];
    }
  }

  lemma {:induction false} PendingSnoc(sockets: seq<Socket>, x: Socket)
    ensures Pending(sockets + [x]) == Pending(sockets) + (if x == Gone then 0 else 1)
  {
    if sockets != [] {
      assert (sockets + [x])[1..] == sockets[1..] + [x];
      PendingSnoc(sockets[1..], x);
    } else {
      assert sockets + [x] == [x];
    }
  }

  lemma {:induction false} AnyPending(sockets: seq<Socket>, i: nat)
    requires i < |sockets|
    ensures sockets[i] != Gone ==> Pending(sockets) >= 1
  {
    if i > 0 { AnyPending(sockets[1..], i - 1); }
  }

  /** With one socket pending, every other one is gone. */
  lemma {:induction false} TwoPending(sockets: seq<Socket>, i: nat, j: nat)
    requires i < |sockets| && j < |sockets| && i != j
    ensures sockets[i] != Gone && sockets[j] != Gone ==> Pending(sockets) >= 2
  {
    if i > 0 && j > 0 {
      TwoPending(sockets[1..], i - 1, j - 1);
    } else {
      AnyPending(sockets[1..], (if i == 0 then j else i) - 1);
    }
  }

  function Timers(s: State): nat {
    if s.timer then 1 else 0
  }

  /** The delays since the last open are the backoff sequence from its start. */
  predicate BackoffLog(s: State) {
    |s.delays| == s.attempt && forall i | 0 <= i < |s.delays| :: s.delays[i] == Backoff(i)
  }

  predicate AnyOpen(sockets: seq<Socket>) {
    exists i | 0 <= i < |sockets| :: sockets[i] == Open
  }

  /** Before `close()`: nothing yet, or exactly one of a live socket, a running timer and a URL fetch. */
  ghost predicate InvRunning(s: State) {
    && Pending(s.sockets) + Timers(s) + s.fetches == (if s.connect == Created then 1 else 0)
    && (s.isConnected <==> AnyOpen(s.sockets))
    && (forall i | 0 <= i < |s.sockets| :: s.sockets[i] != Closing)
    && (forall i | 0 <= i < |s.sockets| && s.sockets[i] != Gone :: s.ws == Some(i))
  }

  /** URL fetches in flight whose result can still become a socket; a `connect()` not yet made counts as one. */
  function Opportunities(s: State): nat {
    s.fetches + if s.connect in {NotCalled, Fetching} then 1 else 0
  }

  /** After `close()`: no timer, and at most one URL fetch left. */
  predicate InvClosed(s: State) {
    !s.timer && Opportunities(s) <= 1
  }

  ghost predicate Inv(s: State) {
    BackoffLog(s) && if s.closed then InvClosed(s) else InvRunning(s)
  }

  lemma StepKeepsInv(s: State, e: Event)
    requires Inv(s) && Enabled(s, e)
    ensures Inv(Step(s, e))
  {
    var s' := Step(s, e);
    if !s.closed && !s'.closed {
      match e {
        case CallConnect =>
        case ConnectUrl(created) => if created { CreatedKeepsInv(s, s'); }
        case SocketOpen(id) => OpenKeepsInv(s, id);
        case SocketClose(id) => CloseKeepsInv(s, id);
        case TimerFires =>
        case ReopenUrl(created) => if created { CreatedKeepsInv(s, s'); }
        case CallClose =>
      }
    }
  }

  lemma CreatedKeepsInv(s: State, s': State)
    requires InvRunning(s) && s'.sockets == s.sockets + [Connecting] && s'.ws == Some(|s.sockets|)
    requires s'.isConnected == s.isConnected && Pending(s.sockets) == 0
    requires Timers(s') + s'.fetches == 0 && s'.connect == Created
    ensures InvRunning(s')
  {
    PendingSnoc(s.sockets, Connecting);
    forall i | 0 <= i < |s.sockets| ensures s.sockets[i] == Gone {
      AnyPending(s.sockets, i);
    }
  }

  lemma OpenKeepsInv(s: State, id: nat)
    requires InvRunning(s) && !s.closed && id < |s.sockets| && s.sockets[id] == Connecting
    ensures InvRunning(OnOpen(s, id))
  {
    PendingUpdate(s.sockets, id, Open);
    assert OnOpen(s, id).sockets[id] == Open;
  }

  lemma CloseKeepsInv(s: State, id: nat)
    requires InvRunning(s) && !s.closed && id < |s.sockets| && s.sockets[id] != Gone
    ensures InvRunning(OnClose(s, id))
  {
    PendingUpdate(s.sockets, id, Gone);
    AnyPending(s.sockets, id);
    forall i | 0 <= i < |s.sockets| && i != id ensures s.sockets[i] == Gone {
      TwoPending(s.sockets, i, id);
    }
  }

  // ---------- runs ----------

  predicate ValidRun(s: State, es: seq<Event>)
    decreases |es|
  {
    es == [] || (Enabled(s, es[0]) && ValidRun(Step(s, es[0]), es[1..]))
  }

  function Final(s: State, es: seq<Event>): State
    requires ValidRun(s, es)
    decreases |es|
  {
    if es == [] then s else Final(Step(s, es[0]), es[1..])
  }

  lemma {:induction false} RunKeepsInv(s: State, es: seq<Event>)
    requires Inv(s) && ValidRun(s, es)
    ensures Inv(Final(s, es))
    decreases |es|
  {
    if es != [] {
      StepKeepsInv(s, es[0]);
      RunKeepsInv(Step(s, es[0]), es[1..]);
    }
  }

  /** Exactly one of {socket not yet closed, reconnect timer, URL fetch in flight}. */
  predicate ExactlyOne(s: State) {
    || (Pending(s.sockets) == 1 && !s.timer && s.fetches == 0)
    || (Pending(s.sockets) == 0 && s.timer && s.fetches == 0)
    || (Pending(s.sockets) == 0 && !s.timer && s.fetches == 1)
  }

  /** Until `close()`, once `connect()` has its socket, a reconnect is neither lost nor doubled; `connected()` tells
      whether a socket is open; and the n-th delay since the last open is min(1000 * 2^n, 30000). */
  predicate Safe(s: State) {
    && (!s.closed && s.connect == Created ==> ExactlyOne(s))
    && (!s.closed ==> (s.isConnected <==> AnyOpen(s.sockets)))
    && BackoffLog(s)
  }

  lemma InvIsSafe(s: State)
    requires Inv(s)
    ensures Safe(s)
  {
  }

  lemma RunIsSafe(s: State, es: seq<Event>)
    requires Inv(s) && ValidRun(s, es)
    ensures Safe(Final(s, es))
  {
    RunKeepsInv(s, es);
    InvIsSafe(Final(s, es));
  }

  /** Over every run from the start. */
  lemma ReconnectExactlyOnce(s: State, es: seq<Event>)
    requires s == Initial && ValidRun(s, es)
    ensures Safe(Final(s, es))
  {
    assert Inv(s);
    RunIsSafe(s, es);
  }

  // ---------- after close() ----------

  /** `close()` leaves no socket connecting or open, and no timer. */
  lemma CloseClosesSockets(s: State)
    requires Inv(s) && !s.closed
    ensures var c := Step(s, CallClose);
      && c.closed && !c.isConnected && !c.timer && c.ws.None? && |c.sockets| == |s.sockets|
      && forall i | 0 <= i < |s.sockets| :: c.sockets[i] == if s.sockets[i] in {Connecting, Open} then Closing else Gone
  {
    forall i | 0 <= i < |s.sockets| ensures s.sockets[i] != Gone ==> s.ws == Some(i) {}
  }

  /** Closed for good: nothing is left that could connect again. */
  predicate Quiet(s: State) {
    && s.closed && !s.isConnected && !s.timer && Opportunities(s) == 0
    && forall i | 0 <= i < |s.sockets| :: s.sockets[i] in {Closing, Gone}
  }

  lemma {:induction false} QuietForever(s: State, es: seq<Event>)
    requires Quiet(s) && ValidRun(s, es)
    ensures Quiet(Final(s, es)) && |Final(s, es).sockets| == |s.sockets|
    decreases |es|
  {
    if es != [] { QuietForever(Step(s, es[0]), es[1..]); }
  }

  /** However the run goes on after `close()`, at most as many sockets are created as URL fetches were in flight,
      which is at most one. */
  lemma {:induction false} SocketsAfterClose(s: State, es: seq<Event>)
    requires s.closed && InvClosed(s) && ValidRun(s, es)
    ensures Final(s, es).closed && InvClosed(Final(s, es))
    ensures |Final(s, es).sockets| + Opportunities(Final(s, es)) <= |s.sockets| + Opportunities(s) <= |s.sockets| + 1
    decreases |es|
  {
    if es != [] { SocketsAfterClose(Step(s, es[0]), es[1..]); }
  }

  /** `close()` is final exactly when no URL fetch is in flight: otherwise `reopen()` (or `connect()`), which does not
      look at `closed` after its `await`, can still bring up a socket and turn `connected()` true. */
  lemma CloseIsFinal(s: State)
    requires Inv(s) && !s.closed
    ensures var c := Step(s, CallClose);
      (forall es | ValidRun(c, es) :: !Final(c, es).isConnected && |Final(c, es).sockets| == |c.sockets|)
      <==> Opportunities(s) == 0
  {
    var c := Step(s, CallClose);
    assert Opportunities(c) == Opportunities(s);
    if Opportunities(s) == 0 {
      assert Quiet(c);
      forall es | ValidRun(c, es) ensures !Final(c, es).isConnected && |Final(c, es).sockets| == |c.sockets| {
        QuietForever(c, es);
      }
    } else {
      var es := LateSocket(c);
      assert ValidRun(c, es) && |Final(c, es).sockets| == |c.sockets| + 1;
    }
  }

  /** A fetch in flight leads to an open socket that nothing will close. */
  lemma LateSocket(c: State) returns (es: seq<Event>)
    requires c.closed && Opportunities(c) > 0
    ensures ValidRun(c, es) && Final(c, es).isConnected && |Final(c, es).sockets| == |c.sockets| + 1
  {
    var open := SocketOpen(|c.sockets|);
    if c.fetches > 0 {
      RunCons(Step(c, ReopenUrl(true)), open, []);
      RunCons(c, ReopenUrl(true), [open] + []);
      es := [ReopenUrl(true)] + ([open] + []);
    } else {
      var s0 := if c.connect == NotCalled then Step(c, CallConnect) else c;
      RunCons(Step(s0, ConnectUrl(true)), open, []);
      RunCons(s0, ConnectUrl(true), [open] + []);
      es := [ConnectUrl(true)] + ([open] + []);
      if c.connect == NotCalled {
        RunCons(c, CallConnect, es);
        es := [CallConnect] + es;
      }
    }
  }

  lemma RunCons(s: State, e: Event, es: seq<Event>)
    requires Enabled(s, e) && ValidRun(Step(s, e), es)
    ensures ValidRun(s, [e] + es) && Final(s, [e] + es) == Final(Step(s, e), es)
  {
    assert ([e] + es)[1..] == es;
  }
}
