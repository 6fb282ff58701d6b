/** The registry in its own form: a module-level cache whose entries are updated in place. Each method is the code
    between two `await`s. */
module AuditSinkRegistry {
  import opened AuditSink

  class Registry {
    var cache: map<Path, nat>
    var entries: seq<Entry>
    ghost var tasks: multiset<Task>
    ghost var leases: set<(Owner, nat)>

    ghost function View(): State
      reads this
    {
      State(cache, entries, tasks, leases)
    }

    constructor ()
      ensures View() == Initial
    {
      cache, entries, tasks, leases := map[], [], multiset{}, {};
    }

    /** Up to the first `await`; `ready` tells whether the handle is returned at once. */
    method Acquire(path: Path, owner: Owner) returns (ready: bool, id: nat)
      requires Wellformed(View())
      modifies this
      ensures View() == AcquireStep(old(View()), path, owner)
      ensures path in cache && cache[path] == id < |entries|
      ensures ready <==> (owner, id) in leases && old(path in cache && entries[cache[path]].sinkSet)
    {
      if path in cache {
        id := cache[path];
        entries := entries[id := entries[id].(owners := entries[id].owners + {owner})];
        ready := entries[id].sinkSet;
        if ready {
          leases := leases + {(owner, id)};
        } else {
          tasks := tasks + multiset{Joining(owner, id)};
        }
      } else {
        id, ready := |entries|, false;
        entries := entries + [Entry(path, {owner}, false, Opening, 0)];
        cache := cache[path := id];
        tasks := tasks + multiset{Creating(owner, id)};
      }
    }

    /** `entry.sink = await opening`, or the `catch` that purges the cache. */
    method OpenSettled(owner: Owner, id: nat) returns (ok: bool)
      requires Enabled(View(), ResumeCreator(owner, id))
      modifies this
      ensures View() == ResumeCreatorStep(old(View()), owner, id)
      ensures ok <==> old(entries[id].handle) != Rejected
    {
      tasks := tasks - multiset{Creating(owner, id)};
      ok := entries[id].handle != Rejected;
      if ok {
        entries := entries[id := entries[id].(sinkSet := true)];
        leases := leases + {(owner, id)};
      } else {
        cache := cache - {entries[id].path};
      }
    }

    /** `return existing.opening` resolving in a joined acquire. */
    method JoinSettled(owner: Owner, id: nat) returns (ok: bool)
      requires Enabled(View(), ResumeJoiner(owner, id))
      modifies this
      ensures View() == ResumeJoinerStep(old(View()), owner, id)
      ensures ok <==> (old(entries[id].handle) != Rejected)
    {
      tasks := tasks - multiset{Joining(owner, id)};
      ok := entries[id].handle != Rejected;
      if ok { leases := leases + {(owner, id)}; }
    }

    method Release(path: Path, owner: Owner)
      requires Wellformed(View())
      modifies this
      ensures View() == ReleaseStep(old(View()), path, owner)
    {
      if path !in cache { return; }
      var id := cache[path];
      var had := owner in entries[id].owners;
      if !had { return; }
      entries := entries[id := entries[id].(owners := entries[id].owners - {owner})];
      leases := leases - {(owner, id)};
      if entries[id].owners != {} { return; }
      cache := cache - {path};
      if entries[id].sinkSet {
        entries := entries[id := BeginClose(entries[id])];
      } else {
        tasks := tasks + multiset{AwaitingOpen(id)};
      }
    }
  }
}
