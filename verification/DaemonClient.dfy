/** Request and response correlation of packages/cli/src/daemon-client.ts over one connected socket. */
module DaemonClient {
  import opened Wrappers

  /** What a call resolves with: the daemon's answer with that id, or an error once the socket is closed. */
  datatype Reply = Response(id: string, body: string) | Closed(id: string, method_: string)

  datatype Call = Call(id: string, method_: string, reply: Option<Reply>)

  /** `pending` names the call whose resolver is stored under an id; `ended` tells that the socket's close event has
      been delivered. */
  datatype State = State(calls: seq<Call>, pending: map<string, nat>, closed: bool, ended: bool)

  datatype Event = Request(id: string, method_: string) | Data(id: string, body: string) | SocketClosed | CallClose

  const Initial := State([], map[], false, false)

  predicate Enabled(s: State, e: Event) {
    e.Data? || e.SocketClosed? ==> !s.ended
  }

  function Resolve(s: State, k: nat, reply: Reply): State
    requires k < |s.calls|
  {
    s.(calls := s.calls[k := s.calls[k].(reply := Some(reply))])
  }

  function OnRequest(s: State, id: string, method_: string): State {
    if s.closed then s.(calls := s.calls + [Call(id, method_, Some(Closed(id, method_)))])
    else s.(calls := s.calls + [Call(id, method_, None)], pending := s.pending[id := |s.calls|])
  }

  function OnData(s: State, id: string, body: string): State {
    if id in s.pending && s.pending[id] < |s.calls| then
      Resolve(s.(pending := s.pending - {id}), s.pending[id], Response(id, body))
    else s
  }

  /** Every call whose resolver is pending, resolved as drained. */
  function Drained(calls: seq<Call>, pending: map<string, nat>): seq<Call> {
    seq(|calls|, k requires 0 <= k < |calls| =>
      if calls[k].id in pending && pending[calls[k].id] == k
      then calls[k].(reply := Some(Closed(calls[k].id, "status")))
      else calls[k])
  }

  function Step(s: State, e: Event): State
    requires Enabled(s, e)
  {
    match e
    case Request(id, method_) => OnRequest(s, id, method_)
    case Data(id, body) => OnData(s, id, body)
    case SocketClosed => State(Drained(s.calls, s.pending), map[], true, true)
    case CallClose => s.(closed := true)
  }

  // ---------- the invariant ----------

  /** Each pending resolver belongs to an unresolved call with that id, a resolved call got its own id back, and nothing
      is pending after the close event. */
  predicate Inv(s: State) {
    && (forall id | id in s.pending :: s.pending[id] < |s.calls| && s.calls[s.pending[id]] == Waiting(s, id))
    && (forall k | 0 <= k < |s.calls| && s.calls[k].reply.Some? :: s.calls[k].reply.value.id == s.calls[k].id)
    && (s.ended ==> s.closed && s.pending == map[])
  }

  function Waiting(s: State, id: string): Call
    requires id in s.pending && s.pending[id] < |s.calls|
  {
    Call(id, s.calls[s.pending[id]].method_, None)
  }

  /** The issued calls are the resolved ones and the pending ones. */
  predicate NothingLost(s: State) {
    forall k | 0 <= k < |s.calls| && s.calls[k].reply.None? ::
      s.calls[k].id in s.pending && s.pending[s.calls[k].id] == k
  }

  /** A resolved call keeps its reply: no call is resolved twice. */
  predicate RepliesStay(s: State, s': State) {
    && |s.calls| <= |s'.calls|
    && forall k | 0 <= k < |s.calls| ::
         && s'.calls[k].id == s.calls[k].id
         && (s.calls[k].reply.Some? ==> s'.calls[k].reply == s.calls[k].reply)
  }

  /** The call does not reuse the id of a call still in flight. */
  predicate Distinct(s: State, e: Event) {
    e.Request? ==> e.id !in s.pending
  }

  lemma RequestKeeps(s: State, id: string, method_: string)
    requires Inv(s)
    ensures var s' := OnRequest(s, id, method_);
      Inv(s') && RepliesStay(s, s') && (NothingLost(s) && id !in s.pending ==> NothingLost(s'))
  {
  }

  lemma DataKeeps(s: State, id: string, body: string)
    requires Inv(s) && !s.ended
    ensures var s' := OnData(s, id, body); Inv(s') && RepliesStay(s, s') && (NothingLost(s) ==> NothingLost(s'))
  {
  }

  lemma SocketClosedKeeps(s: State)
    requires Inv(s) && !s.ended
    ensures var s' := Step(s, SocketClosed); Inv(s') && RepliesStay(s, s') && (NothingLost(s) ==> NothingLost(s'))
  {
  }

  lemma StepKeeps(s: State, e: Event)
    requires Inv(s) && Enabled(s, e)
    ensures Inv(Step(s, e)) && RepliesStay(s, Step(s, e))
    ensures NothingLost(s) && Distinct(s, e) ==> NothingLost(Step(s, e))
  {
    match e {
      case Request(id, method_) => RequestKeeps(s, id, method_);
      case Data(id, body) => DataKeeps(s, id, body);
      case SocketClosed => SocketClosedKeeps(s);
      case CallClose =>
    }
  }

  // ---------- runs ----------

  predicate ValidRun(s: State, es: seq<Event>)
    decreases |es|
  {
    es == [] || (Enabled(s, es[0]) && ValidRun(Step(s, es[0]), es[1..]))
  }

  predicate DistinctRun(s: State, es: seq<Event>)
    requires ValidRun(s, es)
    decreases |es|
  {
    es == [] || (Distinct(s, es[0]) && DistinctRun(Step(s, es[0]), es[1..]))
  }

  function Final(s: State, es: seq<Event>): State
    requires ValidRun(s, es)
    decreases |es|
  {
    if es == [] then s else Final(Step(s, es[0]), es[1..])
  }

  lemma RepliesTrans(a: State, b: State, c: State)
    requires RepliesStay(a, b) && RepliesStay(b, c)
    ensures RepliesStay(a, c)
  {
  }

  lemma {:induction false} RunKeeps(s: State, es: seq<Event>)
    requires Inv(s) && ValidRun(s, es)
    ensures Inv(Final(s, es)) && RepliesStay(s, Final(s, es))
    ensures NothingLost(s) && DistinctRun(s, es) ==> NothingLost(Final(s, es))
    decreases |es|
  {
    if es != [] {
      StepKeeps(s, es[0]);
      RunKeeps(Step(s, es[0]), es[1..]);
      RepliesTrans(s, Step(s, es[0]), Final(s, es));
    }
  }

  /** Whatever the daemon answers and in whatever order: with distinct ids in flight every call is resolved or pending,
      and after the socket's close event every call is resolved. */
  lemma CallsAreResolved(s: State, es: seq<Event>)
    requires s == Initial && ValidRun(s, es) && DistinctRun(s, es)
    ensures var f := Final(s, es);
      Inv(f) && NothingLost(f) && (f.ended ==> forall k | 0 <= k < |f.calls| :: f.calls[k].reply.Some?)
  {
    RunKeeps(s, es);
  }

  // ---------- an answer ----------

  /** An answer resolves exactly the call whose id it carries, with that answer, and frees the id. */
  lemma AnswerResolves(s: State, id: string, body: string)
    requires Inv(s) && !s.ended && id in s.pending
    ensures var k := s.pending[id]; var s' := Step(s, Data(id, body));
      && s'.calls[k].reply == Some(Response(id, body)) && s'.pending == s.pending - {id}
      && |s'.calls| == |s.calls| && forall m | 0 <= m < |s.calls| && m != k :: s'.calls[m] == s.calls[m]
  {
    assert s.calls[s.pending[id]] == Waiting(s, id);
  }

  /** On a closed connection a request is answered at once, with the error, and nothing is stored for it. */
  lemma ClosedAnswersAtOnce(s: State, id: string, method_: string)
    requires s.closed
    ensures var s' := Step(s, Request(id, method_));
      s'.pending == s.pending && s'.calls == s.calls + [Call(id, method_, Some(Closed(id, method_)))]
  {
  }

  /** The close event answers exactly the pending calls, each with the error under its own id. */
  lemma CloseAnswersPending(s: State)
    requires Inv(s) && NothingLost(s) && !s.ended
    ensures var s' := Step(s, SocketClosed);
      && |s'.calls| == |s.calls| && s'.pending == map[]
      && forall k | 0 <= k < |s.calls| ::
           s'.calls[k] == if s.calls[k].reply.Some? then s.calls[k]
                          else s.calls[k].(reply := Some(Closed(s.calls[k].id, "status")))
  {
    forall k | 0 <= k < |s.calls| && s.calls[k].reply.Some?
      ensures !(s.calls[k].id in s.pending && s.pending[s.calls[k].id] == k) {}
  }

  /** Events that leave a call alone: no answer to it, no second request with its id, and no end of the connection. */
  predicate Leaves(e: Event, id: string) {
    match e
    case Request(other, _) => other != id
    case Data(other, _) => other != id
    case SocketClosed => false
    case CallClose => true
  }

  lemma LeavesPending(s: State, e: Event, id: string)
    requires Inv(s) && Enabled(s, e) && Leaves(e, id) && id in s.pending
    ensures var s' := Step(s, e);
      id in s'.pending && s'.pending[id] == s.pending[id] && s'.ended == s.ended && |s'.calls| >= |s.calls|
  {
  }

  lemma {:induction false} StaysPending(s: State, es: seq<Event>, id: string)
    requires Inv(s) && ValidRun(s, es) && id in s.pending && forall e | e in es :: Leaves(e, id)
    ensures var f := Final(s, es); Inv(f) && id in f.pending && f.pending[id] == s.pending[id] && f.ended == s.ended
    decreases |es|
  {
    if es != [] {
      assert es[0] in es && forall e | e in es[1..] :: e in es;
      LeavesPending(s, es[0], id);
      StepKeeps(s, es[0]);
      StaysPending(Step(s, es[0]), es[1..], id);
    }
  }

  /** A request on an open connection gets its own answer, whatever else is asked and answered before it comes. */
  lemma RequestIsAnswered(s: State, id: string, method_: string, es: seq<Event>, body: string)
    requires Inv(s) && !s.closed && !s.ended && ValidRun(OnRequest(s, id, method_), es)
    requires forall e | e in es :: Leaves(e, id)
    ensures var f := Final(OnRequest(s, id, method_), es); var k := |s.calls|;
      Enabled(f, Data(id, body)) && k < |f.calls| && Step(f, Data(id, body)).calls[k].reply == Some(Response(id, body))
  {
    StepKeeps(s, Request(id, method_));
    StaysPending(OnRequest(s, id, method_), es, id);
    AnswerResolves(Final(OnRequest(s, id, method_), es), id, body);
  }

  // ---------- a reused id ----------

  /** A call that nothing can resolve any more. */
  predicate Lost(s: State, k: nat) {
    k < |s.calls| && s.calls[k].reply.None? && forall id | id in s.pending :: s.pending[id] != k
  }

  lemma {:induction false} LostForever(s: State, k: nat, es: seq<Event>)
    requires Inv(s) && Lost(s, k) && ValidRun(s, es)
    ensures Lost(Final(s, es), k)
    decreases |es|
  {
    if es != [] {
      StepKeeps(s, es[0]);
      assert Lost(Step(s, es[0]), k);
      LostForever(Step(s, es[0]), k, es[1..]);
    }
  }

  /** A request on an open connection loses a call exactly when it reuses the id of one in flight; that call is then
      never resolved, not even by the close drain. */
  lemma ReuseLoses(s: State, id: string, method_: string, es: seq<Event>)
    requires Inv(s) && NothingLost(s) && !s.closed && ValidRun(OnRequest(s, id, method_), es)
    ensures NothingLost(OnRequest(s, id, method_)) <==> id !in s.pending
    ensures id in s.pending ==> Lost(Final(OnRequest(s, id, method_), es), s.pending[id])
  {
    var s' := Step(s, Request(id, method_));
    StepKeeps(s, Request(id, method_));
    if id in s.pending {
      var k := s.pending[id];
      assert s'.calls[k] == s.calls[k];
      assert Lost(s', k) by {
        forall other | other in s'.pending ensures s'.pending[other] != k {
          assert other != id ==> s.calls[s.pending[other]].id == other;
        }
      }
      LostForever(s', k, es);
    }
  }

  // ---------- the client ----------

  lemma DrainOne(calls: seq<Call>, done: map<string, nat>, id: string, k: nat)
    requires id !in done && k < |calls| && calls[k].id == id
    ensures Drained(calls, done)[k] == calls[k]
    ensures Drained(calls, done)[k := calls[k].(reply := Some(Closed(id, "status")))] == Drained(calls, done[id := k])
  {
  }

  predicate Remaining(rest: map<string, nat>, pending: map<string, nat>) {
    forall id | id in rest :: id in pending && rest[id] == pending[id]
  }

  lemma DrainNext(issued: seq<Call>, pending: map<string, nat>, rest: map<string, nat>, id: string)
    requires Remaining(rest, pending) && id in rest && rest[id] < |issued| && issued[rest[id]].id == id
    ensures Remaining(rest - {id}, pending) && |rest - {id}| < |rest|
    ensures var k := rest[id]; var calls := Drained(issued, pending - rest.Keys);
      calls[k := calls[k].(reply := Some(Closed(id, "status")))] == Drained(issued, pending - (rest - {id}).Keys)
  {
    DrainOne(issued, pending - rest.Keys, id, rest[id]);
    assert (pending - rest.Keys)[id := rest[id]] == pending - (rest - {id}).Keys;
  }

  /** The object `connectDaemonClient` returns, with the handlers of its socket. */
  class Client {
    var pending: map<string, nat>
    var closed: bool
    ghost var ended: bool
    // The promises handed out so far.
    var calls: seq<Call>

    ghost function View(): State
      reads this
    {
      State(calls, pending, closed, ended)
    }

    constructor ()
      ensures View() == Initial
    {
      pending, closed, calls, ended := map[], false, [], false;
    }

    method SendRequest(id: string, method_: string)
      modifies this
      ensures View() == Step(old(View()), Request(id, method_))
    {
      if closed {
        calls := calls + [Call(id, method_, Some(Closed(id, method_)))];
        return;
      }
      pending := pending[id := |calls|];
      calls := calls + [Call(id, method_, None)];
    }

    method OnEntry(id: string, body: string)
      requires Inv(View()) && !ended
      modifies this
      ensures View() == Step(old(View()), Data(id, body))
    {
      if id in pending {
        var k := pending[id];
        pending := pending - {id};
        calls := calls[k := calls[k].(reply := Some(Response(id, body)))];
      }
    }

    method OnClose()
      requires Inv(View()) && !ended
      modifies this
      ensures View() == Step(old(View()), SocketClosed)
    {
      closed := true;
      calls := Drain(calls, pending);
      pending := map[];
      ended := true;
    }

    /** The loop of the close handler: one resolver after the other. */
    static method Drain(issued: seq<Call>, pending: map<string, nat>) returns (calls: seq<Call>)
      requires forall id | id in pending :: pending[id] < |issued| && issued[pending[id]].id == id
      ensures calls == Drained(issued, pending)
    {
      calls := issued;
      var rest := pending;
      assert pending - rest.Keys == map[];
      while rest != map[]
        invariant Remaining(rest, pending)
        invariant calls == Drained(issued, pending - rest.Keys)
        decreases |rest|
      {
        var id :| id in rest;
        var k := rest[id];
        DrainNext(issued, pending, rest, id);
        calls := calls[k := calls[k].(reply := Some(Closed(id, "status")))];
        rest := rest - {id};
      }
      assert pending - rest.Keys == pending;
    }

    method Close()
      modifies this
      ensures View() == Step(old(View()), CallClose)
    {
      closed := true;
    }
  }
}
