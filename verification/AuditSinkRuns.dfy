/** Safety of the audit-sink registry over whole runs. */
module AuditSinkRuns {
  import opened AuditSink

  predicate ValidRun(s: State, es: seq<Event>)
    decreases |es|
  {
    es == [] || (Enabled(s, es[0]) && ValidRun(Step(s, es[0]), es[1..]))
  }

  function Final(s: State, es: seq<Event>): State
    requires ValidRun(s, es)
    decreases |es|
  {
    if es == [] then s else Final(Step(s, es[0]), es[1..])
  }

  predicate TimelyRun(s: State, es: seq<Event>)
    requires ValidRun(s, es)
    decreases |es|
  {
    es == [] || (Timely(s, es[0]) && TimelyRun(Step(s, es[0]), es[1..]))
  }

  predicate LiveAt(s: State, id: nat, path: Path) {
    id < |s.entries| && s.entries[id].path == path && s.entries[id].handle == Live
  }

  /** Two handles on one path are open and not being closed. */
  predicate TwoLive(s: State, path: Path) {
    exists i, j | 0 <= i < j < |s.entries| :: LiveAt(s, i, path) && LiveAt(s, j, path)
  }

  /** What the registry promises its callers in every state. */
  ghost predicate Safe(s: State) {
    && (forall path :: !TwoLive(s, path))
    && (forall l | l in s.leases :: l.1 < |s.entries| && s.entries[l.1].handle == Live)
    && (forall e | e in s.entries :: e.closeCalls == if e.handle in {Closing, Closed} then 1 else 0)
    && (s.tasks == multiset{} && s.leases == {} ==>
          s.cache == map[] && forall e | e in s.entries :: e.handle !in {Opening, Live})
  }

  lemma {:induction false} RunKeepsInv(s: State, es: seq<Event>)
    requires Inv(s) && ValidRun(s, es) && TimelyRun(s, es)
    ensures Inv(Final(s, es))
    decreases |es|
  {
    if es != [] {
      StepKeepsInv(s, es[0]);
      RunKeepsInv(Step(s, es[0]), es[1..]);
    }
  }

  lemma InvIsSafe(s: State)
    requires Inv(s)
    ensures Safe(s)
  {
    forall path ensures !TwoLive(s, path) {
      forall i, j | 0 <= i < j < |s.entries| ensures !(LiveAt(s, i, path) && LiveAt(s, j, path)) {
        assert EntryInv(s, i) && EntryInv(s, j);
      }
    }
    forall l | l in s.leases ensures l.1 < |s.entries| && s.entries[l.1].handle == Live { assert LeaseInv(s, l); }
    forall e | e in s.entries ensures e.closeCalls == if e.handle in {Closing, Closed} then 1 else 0 {
      var i :| 0 <= i < |s.entries| && s.entries[i] == e;
      assert EntryInv(s, i);
    }
    if s.tasks == multiset{} && s.leases == {} { Quiescent(s); }
  }

  /** A cached entry is never forgotten: somebody holds a lease on it or is still acquiring it. */
  lemma CachedIsOwned(s: State, id: nat)
    requires Inv(s) && Cached(s, id)
    ensures s.tasks != multiset{} || s.leases != {}
  {
    assert EntryInv(s, id) && s.entries[id].owners != {};
    if !s.entries[id].sinkSet {
      var o :| Creating(o, id) in s.tasks;
    } else {
      var o :| o in s.entries[id].owners;
      assert InFlight(s, o, id) || (o, id) in s.leases;
    }
  }

  /** With no lease held and no call suspended nothing is cached and no handle is open: nothing leaks. */
  lemma Quiescent(s: State)
    requires Inv(s) && s.tasks == multiset{} && s.leases == {}
    ensures s.cache == map[] && forall e | e in s.entries :: e.handle !in {Opening, Live}
  {
    forall id ensures !Cached(s, id) {
      if Cached(s, id) { CachedIsOwned(s, id); }
    }
    assert forall p | p in s.cache :: Cached(s, s.cache[p]);
    forall e | e in s.entries ensures e.handle !in {Opening, Live} {
      var i :| 0 <= i < |s.entries| && s.entries[i] == e;
      assert EntryInv(s, i) && !Cached(s, i);
    }
  }

  /** Over every interleaving in which releases are timely. */
  lemma RunsAreSafe(es: seq<Event>)
    requires ValidRun(Initial, es) && TimelyRun(Initial, es)
    ensures Safe(Final(Initial, es))
  {
    assert Inv(Initial);
    RunKeepsInv(Initial, es);
    InvIsSafe(Final(Initial, es));
  }

  /** A handle starts closing only in the release that empties its owner set, and nobody holds a lease on it then. */
  lemma ClosesWhenUnowned(s: State, e: Event, id: nat)
    requires Inv(s) && Enabled(s, e) && Timely(s, e)
    requires id < |s.entries| && s.entries[id].handle == Live && Step(s, e).entries[id].handle != Live
    ensures e.Release? && s.entries[id].owners == {e.owner} && Step(s, e).entries[id].owners == {}
    ensures Step(s, e).entries[id].handle == Closing
    ensures forall o :: (o, id) !in Step(s, e).leases && !InFlight(Step(s, e), o, id)
  {
    NoReleaseWaits(s);
    assert Effective(s, e) && Cached(s, id) && id == s.cache[e.path];
    assert Step(s, e).entries[id].owners == s.entries[id].owners - {e.owner} == {};
    OnlyOwner(s.entries[id].owners, e.owner);
    LastOwner(s, e.owner, id);
  }

  /** After a failed open the path is free again, and the next acquire opens a new handle. */
  lemma FailedOpenReopens(s: State, owner: Owner, id: nat, next: Owner)
    requires Inv(s) && Enabled(s, ResumeCreator(owner, id)) && s.entries[id].handle == Rejected
    ensures var s1 := Step(s, ResumeCreator(owner, id));
      var path := s.entries[id].path;
      && path !in s1.cache && Enabled(s1, Acquire(path, next))
      && var s2 := Step(s1, Acquire(path, next));
         && s2.cache[path] == |s.entries| && s2.entries[|s.entries|].handle == Opening
         && Creating(next, |s.entries|) in s2.tasks
  {
    ResumeCreatorKeepsInv(s, owner, id);
  }

  lemma RunCons(s: State, e: Event, es: seq<Event>)
    requires Enabled(s, e) && ValidRun(Step(s, e), es)
    ensures ValidRun(s, [e] + es) && Final(s, [e] + es) == Final(Step(s, e), es)
  {
    assert ([e] + es)[1..] == es;
  }
}
