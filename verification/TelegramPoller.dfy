/** The polling side of the instance class in its own form: fields updated by the lifecycle methods and the poll
    loop. */
module TelegramPoller {
  import opened Wrappers
  import opened Telegram

  class Poller {
    var lastUpdateId: nat
    var longPollRunning: bool
    var longPollAbort: Option<nat>
    // The calls of `runLongPoll`, what they handed on, and the server.
    ghost var loops: seq<Option<Loop>>
    ghost var ingested: seq<nat>
    ghost var issued: seq<nat>
    ghost var confirmed: nat

    ghost function View(): State
      reads this
    {
      State(lastUpdateId, longPollRunning, longPollAbort, loops, ingested, issued, confirmed)
    }

    constructor ()
      ensures View() == Initial
    {
      lastUpdateId, longPollRunning, longPollAbort := 0, false, None;
      loops, ingested, issued, confirmed := [], [], [], 0;
    }

    /** `controller` is the new loop's own abort controller, whichever index it gets. */
    method StartLongPolling(controller: nat)
      requires controller == |loops|
      modifies this
      ensures View() == Step(old(View()), Start)
    {
      if longPollRunning { return; }
      longPollRunning := true;
      longPollAbort := Some(controller);
      loops := loops + [Some(Loop(Top, false))];
    }

    method PauseOrStop()
      modifies this
      ensures View() == Step(old(View()), Abort)
    {
      if longPollAbort.Some? {
        var i := longPollAbort.value;
        if Alive(View(), i) { loops := loops[i := Some(loops[i].value.(aborted := true))]; }
      }
      longPollAbort := None;
    }

    /** A loop at its `while` condition: `aborted` is what its signal says. Some(offset) is the poll it starts. */
    method TestAndPoll(i: nat, aborted: bool) returns (offset: Option<nat>)
      requires Enabled(View(), Loop_(i)) && !loops[i].value.pc.InBatch? && aborted == loops[i].value.aborted
      modifies this
      ensures View() == Step(old(View()), Loop_(i))
      ensures offset == if aborted then None else Some(lastUpdateId + 1)
    {
      if aborted {
        Return(i);
        return None;
      }
      offset := Some(lastUpdateId + 1);
      confirmed := Max(confirmed, lastUpdateId + 1);
      loops := loops[i := Some(Loop(Polling(lastUpdateId + 1), false))];
    }

    /** The `for` loop over the batch up to its next `await`; Some(id) is the update given to `ingestUpdate`. */
    method NextUpdate(i: nat, aborted: bool, rest: seq<nat>) returns (id: Option<nat>)
      requires Alive(View(), i) && aborted == loops[i].value.aborted
      modifies this
      ensures View() == OnBatch(old(View()), i, rest)
      ensures id == if aborted || rest == [] then None else Some(rest[0])
    {
      if rest == [] || aborted {
        loops := loops[i := Some(loops[i].value.(pc := Top))];
        return None;
      }
      lastUpdateId := if lastUpdateId >= rest[0] then lastUpdateId else rest[0];
      id := Some(rest[0]);
      ingested := ingested + [rest[0]];
      loops := loops[i := Some(loops[i].value.(pc := InBatch(rest[1..])))];
    }

    /** `getUpdates` resolved with `updates`. */
    method ResumePoll(i: nat, aborted: bool, updates: seq<nat>) returns (id: Option<nat>)
      requires Enabled(View(), Answer(i, |updates|)) && aborted == loops[i].value.aborted
      requires updates == PendingFrom(issued, loops[i].value.pc.offset)[..|updates|]
      modifies this
      ensures View() == Step(old(View()), Answer(i, |updates|))
      ensures id == if aborted || updates == [] then None else Some(updates[0])
    {
      if |updates| == 0 {
        loops := loops[i := Some(loops[i].value.(pc := Delaying))];
        return None;
      }
      id := NextUpdate(i, aborted, updates);
    }

    /** The `finally` of the loop: reached from the `while` condition or by an exception out of `ingestUpdate`. */
    method Return(i: nat)
      requires Alive(View(), i)
      modifies this
      ensures View() == Exit(old(View()), i)
    {
      longPollRunning := false;
      loops := loops[i := None];
    }
  }
}
