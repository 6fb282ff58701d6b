/** The reference-counted audit-sink registry of packages/cli/src/audit-sink-singleton.ts as a protocol: every stretch
    of code between two `await`s is one step, and opens and closes settle whenever the environment likes. */
module AuditSink {

  type Path = string
  type Owner = string

  /** Life of the handle behind one cache entry: the open is pending or was rejected, or the handle is live, its
      `close()` is running, or has returned. */
  datatype Handle = Opening | Rejected | Live | Closing | Closed

  /** A `CacheEntry`; `sinkSet` says that the field `sink` is no longer null, `closeCalls` counts `close()` calls. */
  datatype Entry = Entry(path: Path, owners: set<Owner>, sinkSet: bool, handle: Handle, closeCalls: nat)

  /** A suspended call: the acquire that opened entry `id`, one that joined it, or a release waiting for the open. */
  datatype Task = Creating(owner: Owner, id: nat) | Joining(owner: Owner, id: nat) | AwaitingOpen(id: nat)

  /** `entries` holds every entry ever created; `leases` the acquires that returned and were not released. */
  datatype State = State(cache: map<Path, nat>, entries: seq<Entry>, tasks: multiset<Task>, leases: set<(Owner, nat)>)

  datatype Event =
    | Acquire(path: Path, owner: Owner)
    | Settle(id: nat, ok: bool)
    | ResumeCreator(owner: Owner, id: nat)
    | ResumeJoiner(owner: Owner, id: nat)
    | Release(path: Path, owner: Owner)
    | ResumeRelease(id: nat)
    | CloseDone(id: nat)

  const Initial := State(map[], [], multiset{}, {})

  predicate Settled(s: State, id: nat) {
    id < |s.entries| && s.entries[id].handle != Opening
  }

  predicate Enabled(s: State, e: Event) {
    match e
    case Acquire(_, _) => Wellformed(s)
    case Settle(id, _) => id < |s.entries| && s.entries[id].handle == Opening
    case ResumeCreator(owner, id) => Creating(owner, id) in s.tasks && Settled(s, id)
    case ResumeJoiner(owner, id) => Joining(owner, id) in s.tasks && Settled(s, id)
    case Release(_, _) => Wellformed(s)
    case ResumeRelease(id) => AwaitingOpen(id) in s.tasks && Settled(s, id)
    case CloseDone(id) => id < |s.entries| && s.entries[id].handle == Closing
  }

  /** Cached ids exist; the model's counterpart of a live object reference. */
  predicate Wellformed(s: State) {
    forall p | p in s.cache :: s.cache[p] < |s.entries|
  }

  // ---------- the code, segment by segment ----------

  function AcquireStep(s: State, path: Path, owner: Owner): State
    requires Wellformed(s)
  {
    if path in s.cache then
      var id := s.cache[path];
      var e := s.entries[id];
      var s' := s.(entries := s.entries[id := e.(owners := e.owners + {owner})]);
      if e.sinkSet then s'.(leases := s.leases + {(owner, id)})
      else s'.(tasks := s.tasks + multiset{Joining(owner, id)})
    else
      var id := |s.entries|;
      State(s.cache[path := id], s.entries + [Entry(path, {owner}, false, Opening, 0)],
            s.tasks + multiset{Creating(owner, id)}, s.leases)
  }

  /** Continuation of the acquire that opened the entry; on failure it deletes whatever the path maps to. */
  function ResumeCreatorStep(s: State, owner: Owner, id: nat): State
    requires id < |s.entries|
  {
    var e := s.entries[id];
    var s' := s.(tasks := s.tasks - multiset{Creating(owner, id)});
    if e.handle == Rejected then s'.(cache := s.cache - {e.path})
    else s'.(entries := s.entries[id := e.(sinkSet := true)], leases := s.leases + {(owner, id)})
  }

  function ResumeJoinerStep(s: State, owner: Owner, id: nat): State
    requires id < |s.entries|
  {
    var s' := s.(tasks := s.tasks - multiset{Joining(owner, id)});
    if s.entries[id].handle == Rejected then s' else s'.(leases := s.leases + {(owner, id)})
  }

  function BeginClose(e: Entry): Entry {
    e.(handle := Closing, closeCalls := e.closeCalls + 1)
  }

  function ReleaseStep(s: State, path: Path, owner: Owner): State
    requires Wellformed(s)
  {
    if path !in s.cache || owner !in s.entries[s.cache[path]].owners then s
    else
      var id := s.cache[path];
      var e := s.entries[id].(owners := s.entries[id].owners - {owner});
      var s' := s.(leases := s.leases - {(owner, id)});
      if e.owners != {} then s'.(entries := s.entries[id := e])
      else if e.sinkSet then s'.(cache := s.cache - {path}, entries := s.entries[id := BeginClose(e)])
      else s'.(cache := s.cache - {path}, entries := s.entries[id := e], tasks := s.tasks + multiset{AwaitingOpen(id)})
  }

  function ResumeReleaseStep(s: State, id: nat): State
    requires id < |s.entries|
  {
    var s' := s.(tasks := s.tasks - multiset{AwaitingOpen(id)});
    if s.entries[id].handle == Rejected then s'
    else s'.(entries := s.entries[id := BeginClose(s.entries[id])])
  }

  function Step(s: State, e: Event): State
    requires Enabled(s, e)
  {
    match e
    case Acquire(path, owner) => AcquireStep(s, path, owner)
    case Settle(id, ok) => s.(entries := s.entries[id := s.entries[id].(handle := if ok then Live else Rejected)])
    case ResumeCreator(owner, id) => ResumeCreatorStep(s, owner, id)
    case ResumeJoiner(owner, id) => ResumeJoinerStep(s, owner, id)
    case Release(path, owner) => ReleaseStep(s, path, owner)
    case ResumeRelease(id) => ResumeReleaseStep(s, id)
    case CloseDone(id) => s.(entries := s.entries[id := s.entries[id].(handle := Closed)])
  }

  // ---------- the rules for callers and the invariant ----------

  predicate InFlight(s: State, owner: Owner, id: nat) {
    Creating(owner, id) in s.tasks || Joining(owner, id) in s.tasks
  }

  /** What a release must respect to keep every promise: the sole owner of an entry waits until its sink is stored, and
      nobody releases an entry that its own acquire is still in flight on, unless the open has failed. */
  predicate Timely(s: State, e: Event) {
    Effective(s, e) ==>
      var id := s.cache[e.path];
      && (s.entries[id].owners == {e.owner} ==> s.entries[id].sinkSet)
      && (InFlight(s, e.owner, id) ==> s.entries[id].handle == Rejected)
  }

  /** What it must respect for there to be one live handle at most. */
  predicate Careful(s: State, e: Event) {
    Effective(s, e) ==> (s.entries[s.cache[e.path]].owners == {e.owner} ==> s.entries[s.cache[e.path]].sinkSet)
  }

  /** A release that removes its owner; any other changes nothing. */
  predicate Effective(s: State, e: Event) {
    e.Release? && e.path in s.cache && s.cache[e.path] < |s.entries| && e.owner in s.entries[s.cache[e.path]].owners
  }

  predicate Cached(s: State, id: nat) {
    id < |s.entries| && s.entries[id].path in s.cache && s.cache[s.entries[id].path] == id
  }

  ghost predicate CacheInv(s: State) {
    && Wellformed(s)
    && forall p | p in s.cache :: s.entries[s.cache[p]].path == p && s.entries[s.cache[p]].owners != {}
  }

  ghost predicate EntryInv(s: State, id: nat)
    requires id < |s.entries|
  {
    var e := s.entries[id];
    && (e.handle in {Opening, Live} ==> Cached(s, id))
    && (e.sinkSet ==> e.handle in {Live, Closing, Closed})
    && e.closeCalls == (if e.handle in {Closing, Closed} then 1 else 0)
    && (e.handle in {Closing, Closed} ==> e.sinkSet && !Cached(s, id))
    && (Cached(s, id) ==> (e.sinkSet || exists o :: Creating(o, id) in s.tasks))
    && (Cached(s, id) && e.handle != Rejected ==> forall o | o in e.owners :: InFlight(s, o, id) || (o, id) in s.leases)
  }

  ghost predicate TaskInv(s: State, t: Task) {
    match t
    case Creating(o, id) =>
      && id < |s.entries| && Cached(s, id) && !s.entries[id].sinkSet && s.tasks[t] == 1
      && (o in s.entries[id].owners || s.entries[id].handle == Rejected)
      && forall o' | Creating(o', id) in s.tasks :: o' == o
    case Joining(o, id) =>
      && id < |s.entries| && (Cached(s, id) ==> o in s.entries[id].owners || s.entries[id].handle == Rejected)
      && (!Cached(s, id) ==> s.entries[id].handle == Rejected)
    case AwaitingOpen(_) => false
  }

  ghost predicate LeaseInv(s: State, l: (Owner, nat)) {
    Cached(s, l.1) && l.0 in s.entries[l.1].owners && s.entries[l.1].handle == Live
  }

  ghost predicate Inv(s: State) {
    && CacheInv(s)
    && (forall id | 0 <= id < |s.entries| :: EntryInv(s, id))
    && (forall t | t in s.tasks :: TaskInv(s, t))
    && (forall l | l in s.leases :: LeaseInv(s, l))
  }

  // ---------- every step keeps the invariant ----------

  /** Nothing that justifies entry `i` is lost from `s` to `s'`. */
  ghost predicate Kept(s: State, s': State, i: nat) {
    && i < |s.entries| && i < |s'.entries| && (Cached(s', i) <==> Cached(s, i))
    && (forall o | Creating(o, i) in s.tasks :: Creating(o, i) in s'.tasks)
    && (forall o | Joining(o, i) in s.tasks :: Joining(o, i) in s'.tasks)
    && (forall o | (o, i) in s.leases :: (o, i) in s'.leases)
  }

  lemma EntryFrame(s: State, s': State, i: nat)
    requires Kept(s, s', i) && EntryInv(s, i) && s'.entries[i] == s.entries[i]
    ensures EntryInv(s', i)
  {
    if Cached(s, i) && !s.entries[i].sinkSet {
      var o :| Creating(o, i) in s.tasks;
      assert Creating(o, i) in s'.tasks;
    }
    forall o | Cached(s', i) && s'.entries[i].handle != Rejected && o in s'.entries[i].owners
      ensures InFlight(s', o, i) || (o, i) in s'.leases
    {
      assert InFlight(s, o, i) || (o, i) in s.leases;
    }
  }

  /** An entry whose handle moves, or that gains or loses an owner, while the rest of its facts stay. */
  lemma EntryChange(s: State, s': State, i: nat)
    requires Kept(s, s', i) && EntryInv(s, i)
    requires var e, e' := s.entries[i], s'.entries[i];
      && e'.sinkSet == e.sinkSet && (e'.handle in {Opening, Live} ==> Cached(s, i))
      && e'.closeCalls == (if e'.handle in {Closing, Closed} then 1 else 0)
      && (e.sinkSet ==> e'.handle in {Live, Closing, Closed})
      && (e'.handle in {Closing, Closed} ==> e.sinkSet && !Cached(s, i))
      && (e'.handle != Rejected ==> e.handle != Rejected)
      && forall o | o in e'.owners && o !in e.owners :: InFlight(s', o, i) || (o, i) in s'.leases
    ensures EntryInv(s', i)
  {
    if Cached(s, i) && !s.entries[i].sinkSet {
      var o :| Creating(o, i) in s.tasks;
      assert Creating(o, i) in s'.tasks;
    }
    forall o | Cached(s', i) && s'.entries[i].handle != Rejected && o in s'.entries[i].owners
      ensures InFlight(s', o, i) || (o, i) in s'.leases
    {
      assert o in s.entries[i].owners ==> InFlight(s, o, i) || (o, i) in s.leases;
    }
  }

  lemma SettleKeepsInv(s: State, id: nat, ok: bool)
    requires Inv(s) && Enabled(s, Settle(id, ok))
    ensures Inv(Step(s, Settle(id, ok)))
  {
    var s' := Step(s, Settle(id, ok));
    forall i | 0 <= i < |s'.entries| ensures EntryInv(s', i) {
      assert EntryInv(s, i) && Kept(s, s', i);
      if i == id { EntryChange(s, s', i); } else { EntryFrame(s, s', i); }
    }
    assert EntryInv(s, id);
    forall t | t in s'.tasks ensures TaskInv(s', t) { assert TaskInv(s, t); }
    forall l | l in s'.leases ensures LeaseInv(s', l) { assert LeaseInv(s, l); }
  }

  lemma CloseDoneKeepsInv(s: State, id: nat)
    requires Inv(s) && Enabled(s, CloseDone(id))
    ensures Inv(Step(s, CloseDone(id)))
  {
    var s' := Step(s, CloseDone(id));
    forall i | 0 <= i < |s'.entries| ensures EntryInv(s', i) {
      assert EntryInv(s, i) && Kept(s, s', i);
      if i == id { EntryChange(s, s', i); } else { EntryFrame(s, s', i); }
    }
    forall t | t in s'.tasks ensures TaskInv(s', t) { assert TaskInv(s, t); }
    forall l | l in s'.leases ensures LeaseInv(s', l) { assert LeaseInv(s, l); }
  }

  lemma JoinKeepsInv(s: State, path: Path, owner: Owner)
    requires Inv(s) && path in s.cache
    ensures Inv(AcquireStep(s, path, owner))
  {
    var s' := AcquireStep(s, path, owner);
    JoinEntries(s, path, owner);
    JoinTasks(s, path, owner);
    assert EntryInv(s, s.cache[path]);
    forall l | l in s'.leases ensures LeaseInv(s', l) {
      if l in s.leases { assert LeaseInv(s, l); }
    }
  }

  lemma JoinEntries(s: State, path: Path, owner: Owner)
    requires Inv(s) && path in s.cache
    ensures var s' := AcquireStep(s, path, owner); forall i | 0 <= i < |s'.entries| :: EntryInv(s', i)
  {
    var s' := AcquireStep(s, path, owner);
    var id := s.cache[path];
    assert forall t | t in s.tasks :: t in s'.tasks;
    assert s.entries[id].sinkSet || Joining(owner, id) in s'.tasks;
    forall i | 0 <= i < |s'.entries| ensures EntryInv(s', i) {
      assert EntryInv(s, i) && Kept(s, s', i);
      if i == id { EntryChange(s, s', i); } else { EntryFrame(s, s', i); }
    }
  }

  lemma JoinTasks(s: State, path: Path, owner: Owner)
    requires Inv(s) && path in s.cache
    ensures var s' := AcquireStep(s, path, owner); forall t | t in s'.tasks :: TaskInv(s', t)
  {
    var s' := AcquireStep(s, path, owner);
    var id := s.cache[path];
    forall t | t in s'.tasks ensures TaskInv(s', t) {
      if t in s.tasks { assert TaskInv(s, t); }
    }
  }

  lemma OpenKeepsInv(s: State, path: Path, owner: Owner)
    requires Inv(s) && path !in s.cache
    ensures Inv(AcquireStep(s, path, owner))
  {
    var s' := AcquireStep(s, path, owner);
    var id := |s.entries|;
    assert forall t | t in s.tasks :: t in s'.tasks;
    forall i | 0 <= i < |s'.entries| ensures EntryInv(s', i) {
      if i < id {
        assert EntryInv(s, i) && s'.entries[i] == s.entries[i] && Kept(s, s', i);
        EntryFrame(s, s', i);
      } else {
        assert Creating(owner, i) in s'.tasks;
      }
    }
    OpenTasks(s, path, owner);
    forall l | l in s'.leases ensures LeaseInv(s', l) { assert LeaseInv(s, l); }
  }

  lemma OpenTasks(s: State, path: Path, owner: Owner)
    requires Inv(s) && path !in s.cache
    ensures var s' := AcquireStep(s, path, owner); forall t | t in s'.tasks :: TaskInv(s', t)
  {
    var s' := AcquireStep(s, path, owner);
    var id := |s.entries|;
    forall o ensures Creating(o, id) !in s.tasks {
      assert Creating(o, id) in s.tasks ==> TaskInv(s, Creating(o, id));
    }
    forall t | t in s'.tasks ensures TaskInv(s', t) {
      if t in s.tasks { assert TaskInv(s, t); }
    }
  }

  lemma ResumeCreatorKeepsInv(s: State, owner: Owner, id: nat)
    requires Inv(s) && Creating(owner, id) in s.tasks && Settled(s, id)
    ensures Inv(ResumeCreatorStep(s, owner, id))
  {
    var s' := ResumeCreatorStep(s, owner, id);
    assert TaskInv(s, Creating(owner, id)) && EntryInv(s, id);
    ResumeCreatorEntry(s, owner, id);
    forall i | 0 <= i < |s'.entries| && i != id ensures EntryInv(s', i) {
      assert EntryInv(s, i);
      TaskGone(s, s', Creating(owner, id), i);
      EntryFrame(s, s', i);
    }
    ResumeCreatorTasks(s, owner, id);
    forall l | l in s'.leases ensures LeaseInv(s', l) {
      if l in s.leases { assert LeaseInv(s, l); }
    }
  }

  /** Removing one suspended call does not concern the entries it is not about. */
  lemma TaskGone(s: State, s': State, t: Task, i: nat)
    requires s'.tasks == s.tasks - multiset{t} && (forall o :: t != Creating(o, i) && t != Joining(o, i))
    requires i < |s.entries| && i < |s'.entries| && (Cached(s', i) <==> Cached(s, i))
    requires s.leases <= s'.leases
    ensures Kept(s, s', i)
  {
  }

  lemma ResumeCreatorEntry(s: State, owner: Owner, id: nat)
    requires id < |s.entries| && EntryInv(s, id) && TaskInv(s, Creating(owner, id)) && CacheInv(s)
    requires Creating(owner, id) in s.tasks && Settled(s, id)
    ensures EntryInv(ResumeCreatorStep(s, owner, id), id)
  {
    var s' := ResumeCreatorStep(s, owner, id);
    assert forall t :: t != Creating(owner, id) ==> s'.tasks[t] == s.tasks[t];
    forall o | o in s'.entries[id].owners && s'.entries[id].handle != Rejected
      ensures InFlight(s', o, id) || (o, id) in s'.leases
    {
      assert InFlight(s, o, id) || (o, id) in s.leases;
      assert o != owner ==> (InFlight(s, o, id) ==> InFlight(s', o, id));
    }
  }

  lemma ResumeCreatorTasks(s: State, owner: Owner, id: nat)
    requires Inv(s) && Creating(owner, id) in s.tasks && Settled(s, id)
    ensures var s' := ResumeCreatorStep(s, owner, id); forall t | t in s'.tasks :: TaskInv(s', t)
  {
    var s' := ResumeCreatorStep(s, owner, id);
    assert TaskInv(s, Creating(owner, id));
    forall t | t in s'.tasks ensures TaskInv(s', t) { assert t in s.tasks && TaskInv(s, t); }
  }

  lemma ResumeJoinerKeepsInv(s: State, owner: Owner, id: nat)
    requires Inv(s) && Joining(owner, id) in s.tasks && Settled(s, id)
    ensures Inv(ResumeJoinerStep(s, owner, id))
  {
    var s' := ResumeJoinerStep(s, owner, id);
    assert TaskInv(s, Joining(owner, id)) && EntryInv(s, id);
    ResumeJoinerEntry(s, owner, id);
    forall i | 0 <= i < |s'.entries| && i != id ensures EntryInv(s', i) {
      assert EntryInv(s, i) && (Cached(s', i) <==> Cached(s, i));
      TaskGone(s, s', Joining(owner, id), i);
      EntryFrame(s, s', i);
    }
    ResumeJoinerRest(s, owner, id);
  }

  lemma ResumeJoinerRest(s: State, owner: Owner, id: nat)
    requires Inv(s) && Joining(owner, id) in s.tasks && Settled(s, id)
    ensures var s' := ResumeJoinerStep(s, owner, id);
      CacheInv(s') && (forall t | t in s'.tasks :: TaskInv(s', t)) && forall l | l in s'.leases :: LeaseInv(s', l)
  {
    var s' := ResumeJoinerStep(s, owner, id);
    assert TaskInv(s, Joining(owner, id)) && EntryInv(s, id);
    forall t | t in s'.tasks ensures TaskInv(s', t) { assert t in s.tasks && TaskInv(s, t); }
    forall l | l in s'.leases ensures LeaseInv(s', l) {
      if l in s.leases { assert LeaseInv(s, l); }
    }
  }

  lemma ResumeJoinerEntry(s: State, owner: Owner, id: nat)
    requires id < |s.entries| && EntryInv(s, id) && Joining(owner, id) in s.tasks && Settled(s, id)
    ensures EntryInv(ResumeJoinerStep(s, owner, id), id)
  {
    var s' := ResumeJoinerStep(s, owner, id);
    assert forall t :: t != Joining(owner, id) ==> s'.tasks[t] == s.tasks[t];
    if Cached(s, id) && !s.entries[id].sinkSet {
      var o :| Creating(o, id) in s.tasks;
      assert Creating(o, id) in s'.tasks;
    }
    forall o | Cached(s, id) && o in s'.entries[id].owners && s'.entries[id].handle != Rejected
      ensures InFlight(s', o, id) || (o, id) in s'.leases
    {
      assert InFlight(s, o, id) || (o, id) in s.leases;
      assert o != owner ==> (InFlight(s, o, id) ==> InFlight(s', o, id));
    }
  }

  lemma OnlyOwner(owners: set<Owner>, owner: Owner)
    requires owner in owners && owners - {owner} == {}
    ensures owners == {owner}
  {
    assert forall o | o in owners :: o == owner || o in owners - {owner};
  }

  lemma ReleaseKeepsInv(s: State, path: Path, owner: Owner)
    requires Inv(s) && Timely(s, Release(path, owner))
    ensures Inv(ReleaseStep(s, path, owner))
  {
    if path in s.cache && owner in s.entries[s.cache[path]].owners {
      var id := s.cache[path];
      assert EntryInv(s, id) && Effective(s, Release(path, owner));
      if s.entries[id].owners - {owner} == {} {
        OnlyOwner(s.entries[id].owners, owner);
        LastReleaseKeepsInv(s, path, owner);
      } else {
        EarlyReleaseKeepsInv(s, path, owner);
      }
    }
  }

  /** The release of an owner that is not the last one leaves the entry cached and its handle alone. */
  lemma EarlyReleaseKeepsInv(s: State, path: Path, owner: Owner)
    requires Inv(s) && path in s.cache && owner in s.entries[s.cache[path]].owners
    requires InFlight(s, owner, s.cache[path]) ==> s.entries[s.cache[path]].handle == Rejected
    requires s.entries[s.cache[path]].owners - {owner} != {}
    ensures Inv(ReleaseStep(s, path, owner))
  {
    var s' := ReleaseStep(s, path, owner);
    var id := s.cache[path];
    forall i | 0 <= i < |s'.entries| ensures EntryInv(s', i) {
      assert EntryInv(s, i);
      if i == id {
        if !s.entries[i].sinkSet {
          var o :| Creating(o, i) in s.tasks;
          assert Creating(o, i) in s'.tasks;
        }
        forall o | o in s'.entries[i].owners && s'.entries[i].handle != Rejected
          ensures InFlight(s', o, i) || (o, i) in s'.leases
        {
          assert InFlight(s, o, i) || (o, i) in s.leases;
        }
      } else {
        assert Kept(s, s', i);
        EntryFrame(s, s', i);
      }
    }
    forall t | t in s'.tasks ensures TaskInv(s', t) {
      assert TaskInv(s, t);
    }
    forall l | l in s'.leases ensures LeaseInv(s', l) { assert LeaseInv(s, l); }
  }

  lemma LastReleaseKeepsInv(s: State, path: Path, owner: Owner)
    requires Inv(s) && path in s.cache && s.entries[s.cache[path]].owners == {owner}
    requires s.entries[s.cache[path]].sinkSet && !InFlight(s, owner, s.cache[path])
    ensures Inv(ReleaseStep(s, path, owner))
  {
    var s' := ReleaseStep(s, path, owner);
    var id := s.cache[path];
    LastOwner(s, owner, id);
    LastReleaseEntries(s, path, owner);
    forall t | t in s'.tasks ensures TaskInv(s', t) {
      assert TaskInv(s, t);
      if !t.AwaitingOpen? { assert !InFlight(s, t.owner, id); }
    }
    forall l | l in s'.leases ensures LeaseInv(s', l) { assert LeaseInv(s, l); }
  }

  lemma LastReleaseEntries(s: State, path: Path, owner: Owner)
    requires Inv(s) && path in s.cache && s.entries[s.cache[path]].owners == {owner}
    requires s.entries[s.cache[path]].sinkSet && !InFlight(s, owner, s.cache[path])
    ensures var s' := ReleaseStep(s, path, owner); forall i | 0 <= i < |s'.entries| :: EntryInv(s', i)
  {
    var s' := ReleaseStep(s, path, owner);
    var id := s.cache[path];
    LastOwner(s, owner, id);
    assert EntryInv(s, id);
    forall i | 0 <= i < |s'.entries| ensures EntryInv(s', i) {
      if i != id {
        assert EntryInv(s, i) && Kept(s, s', i);
        EntryFrame(s, s', i);
      }
    }
  }

  /** When the last owner releases an entry whose sink is stored, no acquire of it is in flight. */
  lemma LastOwner(s: State, owner: Owner, id: nat)
    requires Inv(s) && Cached(s, id) && s.entries[id].owners == {owner} && s.entries[id].sinkSet
    requires !InFlight(s, owner, id)
    ensures forall o :: !InFlight(s, o, id)
    ensures forall l | l in s.leases && l.1 == id :: l.0 == owner
  {
    assert EntryInv(s, id);
    forall o ensures !InFlight(s, o, id) {
      assert Creating(o, id) in s.tasks ==> TaskInv(s, Creating(o, id));
      assert Joining(o, id) in s.tasks ==> TaskInv(s, Joining(o, id));
    }
    forall l | l in s.leases && l.1 == id ensures l.0 == owner { assert LeaseInv(s, l); }
  }

  /** No release ever has to wait for an open. */
  lemma NoReleaseWaits(s: State)
    requires Inv(s)
    ensures forall id :: AwaitingOpen(id) !in s.tasks
  {
    forall id ensures AwaitingOpen(id) !in s.tasks {
      assert AwaitingOpen(id) in s.tasks ==> TaskInv(s, AwaitingOpen(id));
    }
  }

  lemma StepKeepsInv(s: State, e: Event)
    requires Inv(s) && Enabled(s, e) && Timely(s, e)
    ensures Inv(Step(s, e))
  {
    match e {
      case Acquire(path, owner) =>
        if path in s.cache { JoinKeepsInv(s, path, owner); } else { OpenKeepsInv(s, path, owner); }
      case Settle(id, ok) => SettleKeepsInv(s, id, ok);
      case ResumeCreator(owner, id) => ResumeCreatorKeepsInv(s, owner, id);
      case ResumeJoiner(owner, id) => ResumeJoinerKeepsInv(s, owner, id);
      case Release(path, owner) => ReleaseKeepsInv(s, path, owner);
      case ResumeRelease(id) => NoReleaseWaits(s);
      case CloseDone(id) => CloseDoneKeepsInv(s, id);
    }
  }
}
