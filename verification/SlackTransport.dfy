/** The closure of `createSocketModeTransport` in its own form: variables updated by event handlers. */
module SlackTransport {
  import opened Wrappers
  import opened SlackSocket

  class Transport {
    var ws: Option<nat>
    var closed: bool
    var isConnected: bool
    var reconnectAttempt: nat
    var reconnectTimer: bool
    // What the runtime holds for the transport.
    ghost var sockets: seq<Socket>
    ghost var fetches: nat
    ghost var connect: Connect
    ghost var delays: seq<nat>

    ghost function View(): State
      reads this
    {
      State(ws, closed, isConnected, reconnectAttempt, reconnectTimer, sockets, fetches, connect, delays)
    }

    constructor ()
      ensures View() == Initial
    {
      ws, closed, isConnected, reconnectAttempt, reconnectTimer := None, false, false, 0, false;
      sockets, fetches, connect, delays := [], 0, NotCalled, [];
    }

    method ScheduleReconnect()
      modifies this
      ensures View() == SlackSocket.ScheduleReconnect(old(View()))
    {
      if closed || reconnectTimer { return; }
      delays := delays + [Backoff(reconnectAttempt)];
      reconnectAttempt := reconnectAttempt + 1;
      reconnectTimer := true;
    }

    method HandleOpen(id: nat)
      requires Enabled(View(), SocketOpen(id))
      modifies this
      ensures View() == Step(old(View()), SocketOpen(id))
    {
      sockets := sockets[id := Open];
      isConnected := true;
      reconnectAttempt := 0;
      delays := [];
    }

    method HandleClose(id: nat)
      requires Enabled(View(), SocketClose(id))
      modifies this
      ensures View() == Step(old(View()), SocketClose(id))
    {
      sockets := sockets[id := Gone];
      isConnected := false;
      if !closed { ScheduleReconnect(); }
    }

    method HandleTimer()
      requires Enabled(View(), TimerFires)
      modifies this
      ensures View() == Step(old(View()), TimerFires)
    {
      reconnectTimer := false;
      if closed { return; }
      fetches := fetches + 1;
    }

    /** `reopen()` after its `await`; `id` names the socket when one could be constructed. */
    method ResumeReopen(created: bool, id: nat)
      requires Enabled(View(), ReopenUrl(created)) && id == |sockets|
      modifies this
      ensures View() == Step(old(View()), ReopenUrl(created))
    {
      fetches := fetches - 1;
      if created {
        sockets := sockets + [Connecting];
        ws := Some(id);
      } else {
        ScheduleReconnect();
      }
    }

    method Close()
      modifies this
      ensures View() == Step(old(View()), CallClose)
    {
      closed := true;
      isConnected := false;
      reconnectTimer := false;
      if ws.Some? {
        if ws.value < |sockets| && sockets[ws.value] in {Connecting, Open} {
          sockets := sockets[ws.value := Closing];
        }
        ws := None;
      }
    }
  }
}
