/** Which rule for callers each promise of the audit-sink registry needs, exactly: with it every run is fine, and any
    step that breaks it can be continued, by steps that do not, into a run that is not. */
module AuditSinkExact {
  import opened AuditSink
  import opened AuditSinkRuns

  // ---------- one live handle: the invariant of careful runs ----------

  ghost predicate HandleInv(s: State, id: nat)
    requires id < |s.entries|
  {
    var e := s.entries[id];
    && (e.handle in {Opening, Live} ==> Cached(s, id))
    && (e.sinkSet ==> e.handle in {Live, Closing, Closed})
    && (e.handle in {Closing, Closed} ==> e.sinkSet && !Cached(s, id))
    && (Cached(s, id) ==> (e.sinkSet || exists o :: Creating(o, id) in s.tasks))
  }

  ghost predicate CallInv(s: State, t: Task) {
    match t
    case Creating(o, id) =>
      && id < |s.entries| && Cached(s, id) && !s.entries[id].sinkSet && s.tasks[t] == 1
      && forall o' | Creating(o', id) in s.tasks :: o' == o
    case Joining(_, id) => id < |s.entries|
    case AwaitingOpen(_) => false
  }

  ghost predicate OneLiveInv(s: State) {
    && CacheInv(s)
    && (forall id | 0 <= id < |s.entries| :: HandleInv(s, id))
    && (forall t | t in s.tasks :: CallInv(s, t))
  }

  predicate CarefulRun(s: State, es: seq<Event>)
    requires ValidRun(s, es)
    decreases |es|
  {
    es == [] || (Careful(s, es[0]) && CarefulRun(Step(s, es[0]), es[1..]))
  }

  /** An entry keeps its facts if nothing about it changes but who owns it. */
  lemma HandleFrame(s: State, s': State, i: nat)
    requires i < |s.entries| && i < |s'.entries| && (Cached(s', i) <==> Cached(s, i)) && HandleInv(s, i)
    requires s'.entries[i].handle == s.entries[i].handle && s'.entries[i].sinkSet == s.entries[i].sinkSet
    requires forall o | Creating(o, i) in s.tasks :: Creating(o, i) in s'.tasks
    ensures HandleInv(s', i)
  {
    if Cached(s, i) && !s.entries[i].sinkSet { var o :| Creating(o, i) in s.tasks; }
  }

  lemma JoinKeepsOne(s: State, path: Path, owner: Owner)
    requires OneLiveInv(s) && path in s.cache
    ensures OneLiveInv(AcquireStep(s, path, owner))
  {
    var s' := AcquireStep(s, path, owner);
    assert forall t | t in s.tasks :: t in s'.tasks;
    forall i | 0 <= i < |s'.entries| ensures HandleInv(s', i) {
      assert HandleInv(s, i);
      HandleFrame(s, s', i);
    }
    forall t | t in s'.tasks ensures CallInv(s', t) {
      if t in s.tasks { assert CallInv(s, t); }
    }
  }

  lemma OpenKeepsOne(s: State, path: Path, owner: Owner)
    requires OneLiveInv(s) && path !in s.cache
    ensures OneLiveInv(AcquireStep(s, path, owner))
  {
    var s' := AcquireStep(s, path, owner);
    var n := |s.entries|;
    assert forall t | t in s.tasks :: t in s'.tasks;
    forall i | 0 <= i < |s'.entries| ensures HandleInv(s', i) {
      if i < n {
        assert HandleInv(s, i) && s'.entries[i] == s.entries[i] && (Cached(s', i) <==> Cached(s, i));
        HandleFrame(s, s', i);
      } else {
        assert Creating(owner, i) in s'.tasks;
      }
    }
    OpenCalls(s, path, owner);
  }

  lemma OpenCalls(s: State, path: Path, owner: Owner)
    requires OneLiveInv(s) && path !in s.cache
    ensures var s' := AcquireStep(s, path, owner); forall t | t in s'.tasks :: CallInv(s', t)
  {
    var s' := AcquireStep(s, path, owner);
    var n := |s.entries|;
    forall o ensures Creating(o, n) !in s.tasks {
      assert Creating(o, n) in s.tasks ==> CallInv(s, Creating(o, n));
    }
    forall t | t in s'.tasks ensures CallInv(s', t) {
      if t in s.tasks { assert CallInv(s, t); }
    }
  }

  lemma SettleKeepsOne(s: State, e: Event)
    requires OneLiveInv(s) && Enabled(s, e) && (e.Settle? || e.CloseDone?)
    ensures OneLiveInv(Step(s, e))
  {
    var s' := Step(s, e);
    forall i | 0 <= i < |s'.entries| ensures HandleInv(s', i) {
      assert HandleInv(s, i);
      if Cached(s, i) && !s.entries[i].sinkSet {
        var o :| Creating(o, i) in s.tasks;
        assert Creating(o, i) in s'.tasks;
      }
    }
    forall t | t in s'.tasks ensures CallInv(s', t) { assert CallInv(s, t); }
  }

  lemma CreatorKeepsOne(s: State, owner: Owner, id: nat)
    requires OneLiveInv(s) && Enabled(s, ResumeCreator(owner, id))
    ensures OneLiveInv(ResumeCreatorStep(s, owner, id))
  {
    var s' := ResumeCreatorStep(s, owner, id);
    assert CallInv(s, Creating(owner, id)) && HandleInv(s, id);
    forall i | 0 <= i < |s'.entries| && i != id ensures HandleInv(s', i) {
      assert HandleInv(s, i) && (Cached(s', i) <==> Cached(s, i)) && s'.entries[i] == s.entries[i];
      HandleFrame(s, s', i);
    }
    CreatorCalls(s, owner, id);
  }

  lemma CreatorCalls(s: State, owner: Owner, id: nat)
    requires OneLiveInv(s) && Enabled(s, ResumeCreator(owner, id))
    ensures var s' := ResumeCreatorStep(s, owner, id); forall t | t in s'.tasks :: CallInv(s', t)
  {
    var s' := ResumeCreatorStep(s, owner, id);
    assert CallInv(s, Creating(owner, id));
    forall t | t in s'.tasks ensures CallInv(s', t) { assert t in s.tasks && CallInv(s, t); }
  }

  lemma JoinerKeepsOne(s: State, owner: Owner, id: nat)
    requires OneLiveInv(s) && Enabled(s, ResumeJoiner(owner, id))
    ensures OneLiveInv(ResumeJoinerStep(s, owner, id))
  {
    var s' := ResumeJoinerStep(s, owner, id);
    forall i | 0 <= i < |s'.entries| ensures HandleInv(s', i) {
      assert HandleInv(s, i);
      HandleFrame(s, s', i);
    }
    forall t | t in s'.tasks ensures CallInv(s', t) { assert t in s.tasks && CallInv(s, t); }
  }

  lemma NoneWaits(s: State)
    requires OneLiveInv(s)
    ensures forall id :: AwaitingOpen(id) !in s.tasks
  {
    forall id ensures AwaitingOpen(id) !in s.tasks {
      assert AwaitingOpen(id) in s.tasks ==> CallInv(s, AwaitingOpen(id));
    }
  }

  lemma ReleaseKeepsOne(s: State, path: Path, owner: Owner)
    requires OneLiveInv(s) && Careful(s, Release(path, owner))
    ensures OneLiveInv(ReleaseStep(s, path, owner))
  {
    var s' := ReleaseStep(s, path, owner);
    if path in s.cache && owner in s.entries[s.cache[path]].owners {
      var id := s.cache[path];
      var last := s.entries[id].owners - {owner} == {};
      assert Effective(s, Release(path, owner)) && HandleInv(s, id);
      if last { OnlyOwner(s.entries[id].owners, owner); }
      forall i | 0 <= i < |s'.entries| ensures HandleInv(s', i) {
        assert HandleInv(s, i);
        if i != id || !last { HandleFrame(s, s', i); }
      }
      forall t | t in s'.tasks ensures CallInv(s', t) { assert CallInv(s, t); }
    }
  }

  lemma StepKeepsOne(s: State, e: Event)
    requires OneLiveInv(s) && Enabled(s, e) && Careful(s, e)
    ensures OneLiveInv(Step(s, e))
  {
    match e {
      case Acquire(path, owner) =>
        if path in s.cache { JoinKeepsOne(s, path, owner); } else { OpenKeepsOne(s, path, owner); }
      case Settle(_, _) => SettleKeepsOne(s, e);
      case CloseDone(_) => SettleKeepsOne(s, e);
      case ResumeCreator(owner, id) => CreatorKeepsOne(s, owner, id);
      case ResumeJoiner(owner, id) => JoinerKeepsOne(s, owner, id);
      case Release(path, owner) => ReleaseKeepsOne(s, path, owner);
      case ResumeRelease(id) => NoneWaits(s);
    }
  }

  lemma {:induction false} CarefulRunKeepsOne(s: State, es: seq<Event>)
    requires OneLiveInv(s) && ValidRun(s, es) && CarefulRun(s, es)
    ensures OneLiveInv(Final(s, es))
    decreases |es|
  {
    if es != [] {
      StepKeepsOne(s, es[0]);
      CarefulRunKeepsOne(Step(s, es[0]), es[1..]);
    }
  }

  lemma InvIsOneLive(s: State, path: Path)
    requires OneLiveInv(s)
    ensures !TwoLive(s, path)
  {
    forall i, j | 0 <= i < j < |s.entries| ensures !(LiveAt(s, i, path) && LiveAt(s, j, path)) {
      assert HandleInv(s, i) && HandleInv(s, j);
    }
  }

  // ---------- one live handle: what a careless release leads to ----------

  predicate NoReleases(es: seq<Event>) {
    forall e | e in es :: !e.Release?
  }

  lemma {:induction false} NoReleaseIsFine(s: State, es: seq<Event>)
    requires ValidRun(s, es) && NoReleases(es)
    ensures CarefulRun(s, es) && TimelyRun(s, es)
    decreases |es|
  {
    if es != [] {
      assert es[0] in es && forall e | e in es[1..] :: e in es;
      NoReleaseIsFine(Step(s, es[0]), es[1..]);
    }
  }

  /** A pending open of an entry that is no longer cached, and one more acquire of its path, can both succeed. */
  lemma SecondOpen(s: State, id: nat, other: Owner) returns (es: seq<Event>)
    requires Wellformed(s) && id < |s.entries|
    requires s.entries[id].handle in {Opening, Live} && s.entries[id].path !in s.cache
    ensures ValidRun(s, es) && NoReleases(es) && TwoLive(Final(s, es), s.entries[id].path)
  {
    var path, n := s.entries[id].path, |s.entries|;
    var s1 := Step(s, Acquire(path, other));
    var s2 := Step(s1, Settle(n, true));
    if s.entries[id].handle == Live {
      assert LiveAt(s2, id, path) && LiveAt(s2, n, path);
      es := [Settle(n, true)];
      RunCons(s1, Settle(n, true), []);
    } else {
      var s3 := Step(s2, Settle(id, true));
      assert LiveAt(s3, id, path) && LiveAt(s3, n, path);
      RunCons(s2, Settle(id, true), []);
      RunCons(s1, Settle(n, true), [Settle(id, true)]);
      es := [Settle(n, true)] + [Settle(id, true)];
    }
    RunCons(s, Acquire(path, other), es);
    es := [Acquire(path, other)] + es;
  }

  /** The late `cache.delete(path)` of a failed open evicts the newer entry of another owner. */
  lemma EvictingRun(s: State, id: nat, owner: Owner, other: Owner) returns (es: seq<Event>)
    requires Wellformed(s) && id < |s.entries| && s.entries[id].handle == Rejected && s.entries[id].path !in s.cache
    requires Creating(owner, id) in s.tasks
    ensures ValidRun(s, es) && NoReleases(es) && TwoLive(Final(s, es), s.entries[id].path)
  {
    var path, n := s.entries[id].path, |s.entries|;
    var s1 := Step(s, Acquire(path, other));
    assert s1.cache[path] == n && Creating(owner, id) in s1.tasks && Settled(s1, id);
    var s2 := Step(s1, ResumeCreator(owner, id));
    assert path !in s2.cache && s2.entries[n].handle == Opening && s2.entries[n].path == path;
    es := SecondOpen(s2, n, owner);
    RunCons(s1, ResumeCreator(owner, id), es);
    RunCons(s, Acquire(path, other), [ResumeCreator(owner, id)] + es);
    es := [Acquire(path, other)] + ([ResumeCreator(owner, id)] + es);
  }

  /** A sole owner that releases before the sink is stored: the registry can go on to hold two live handles. */
  lemma CarelessBreaks(s: State, e: Event, other: Owner) returns (es: seq<Event>)
    requires Wellformed(s) && Enabled(s, e) && !Careful(s, e)
    requires var id := s.cache[e.path]; s.entries[id].path == e.path && s.entries[id].handle !in {Closing, Closed}
    requires var id := s.cache[e.path]; exists o :: Creating(o, id) in s.tasks
    ensures ValidRun(Step(s, e), es) && NoReleases(es) && TwoLive(Final(Step(s, e), es), e.path)
  {
    var id := s.cache[e.path];
    var o :| Creating(o, id) in s.tasks;
    var s1 := Step(s, e);
    assert s.entries[id].owners - {e.owner} == {};
    assert e.path !in s1.cache && s1.entries[id].handle == s.entries[id].handle && Creating(o, id) in s1.tasks;
    if s.entries[id].handle == Rejected {
      es := EvictingRun(s1, id, o, other);
    } else {
      es := SecondOpen(s1, id, other);
    }
  }

  /** Over every run of careful releases there is at most one live handle per path. */
  lemma CarefulRunsHaveOneLive(es: seq<Event>, path: Path)
    requires ValidRun(Initial, es) && CarefulRun(Initial, es)
    ensures !TwoLive(Final(Initial, es), path)
  {
    assert OneLiveInv(Initial);
    CarefulRunKeepsOne(Initial, es);
    InvIsOneLive(Final(Initial, es), path);
  }

  predicate NeverTwoLive(s: State) {
    forall p | p in PathsOf(s) :: !TwoLive(s, p)
  }

  function PathsOf(s: State): set<Path> {
    set e | e in s.entries :: e.path
  }

  lemma PathsMatter(s: State, path: Path)
    requires TwoLive(s, path)
    ensures path in PathsOf(s)
  {
    var i, j :| 0 <= i < j < |s.entries| && LiveAt(s, i, path) && LiveAt(s, j, path);
    assert s.entries[i] in s.entries;
  }

  /** No careful continuation has two live handles on a path. */
  ghost predicate StaysOneLive(s: State) {
    forall es | ValidRun(s, es) && CarefulRun(s, es) :: NeverTwoLive(Final(s, es))
  }

  /** At most one live handle per path: exactly the careful steps cannot be continued, carefully, into two. */
  lemma OneLiveIff(s: State, e: Event)
    requires OneLiveInv(s) && Enabled(s, e)
    ensures Careful(s, e) <==> StaysOneLive(Step(s, e))
  {
    var s1 := Step(s, e);
    if Careful(s, e) {
      StepKeepsOne(s, e);
      forall es | ValidRun(s1, es) && CarefulRun(s1, es) ensures NeverTwoLive(Final(s1, es)) {
        CarefulRunKeepsOne(s1, es);
        forall p | p in PathsOf(Final(s1, es)) ensures !TwoLive(Final(s1, es), p) { InvIsOneLive(Final(s1, es), p); }
      }
    } else {
      var id := s.cache[e.path];
      assert Effective(s, e) && !s.entries[id].sinkSet && Cached(s, id) && HandleInv(s, id);
      var es := CarelessBreaks(s, e, "");
      NoReleaseIsFine(s1, es);
      PathsMatter(Final(s1, es), e.path);
      assert !NeverTwoLive(Final(s1, es));
    }
  }

  // ---------- every promise: what an untimely release leads to ----------

  /** A caller holds a lease, or will get one, on an entry it does not own, which is therefore not kept open for it. */
  predicate Stranded(s: State, owner: Owner, id: nat) {
    && id < |s.entries| && owner !in s.entries[id].owners
    && (Joining(owner, id) in s.tasks || (owner, id) in s.leases)
  }

  predicate DeadLease(s: State) {
    exists l | l in s.leases :: l.1 < |s.entries| && s.entries[l.1].handle != Live
  }

  /** Once the handle is being closed, the stranded caller ends up with a lease on it. */
  lemma StrandedOnClosing(s: State, owner: Owner, id: nat) returns (es: seq<Event>)
    requires Wellformed(s) && Stranded(s, owner, id) && s.entries[id].handle == Closing
    ensures ValidRun(s, es) && TimelyRun(s, es) && DeadLease(Final(s, es))
  {
    if (owner, id) in s.leases {
      es := [];
    } else {
      var e := ResumeJoiner(owner, id);
      var s1 := Step(s, e);
      assert (owner, id) in s1.leases && s1.entries[id].handle == Closing;
      RunCons(s, e, []);
      TimelyCons(s, e, []);
      es := [e] + [];
    }
  }

  lemma TimelyCons(s: State, e: Event, es: seq<Event>)
    requires Enabled(s, e) && Timely(s, e) && ValidRun(Step(s, e), es) && TimelyRun(Step(s, e), es)
    ensures ValidRun(s, [e] + es) && TimelyRun(s, [e] + es)
  {
    assert ([e] + es)[1..] == es;
  }

  /** A live entry whose owners have only to finish joining and to release. */
  predicate Winding(s: State, id: nat) {
    && Wellformed(s) && Cached(s, id) && s.entries[id].sinkSet && s.entries[id].handle == Live
    && s.entries[id].owners != {} && forall o | o in s.entries[id].owners :: Creating(o, id) !in s.tasks
  }

  /** Its owners join to the end and release, one after the other; the stranded caller is left behind. */
  lemma WindDown(s: State, owner: Owner, id: nat) returns (es: seq<Event>)
    requires Winding(s, id) && Stranded(s, owner, id)
    ensures ValidRun(s, es) && TimelyRun(s, es) && DeadLease(Final(s, es))
    decreases |s.entries[id].owners|, |s.tasks|
  {
    var r :| r in s.entries[id].owners;
    var e := if Joining(r, id) in s.tasks then ResumeJoiner(r, id) else Release(s.entries[id].path, r);
    var s1 := Step(s, e);
    if e.ResumeJoiner? {
      assert |s1.tasks| < |s.tasks| by { assert s.tasks == s1.tasks + multiset{Joining(r, id)}; }
      assert Stranded(s1, owner, id);
      es := WindDown(s1, owner, id);
    } else {
      assert s1.entries[id].owners == s.entries[id].owners - {r};
      if s1.entries[id].owners == {} {
        es := StrandedOnClosing(s1, owner, id);
      } else {
        assert |s1.entries[id].owners| < |s.entries[id].owners|;
        es := WindDown(s1, owner, id);
      }
    }
    RunCons(s, e, es);
    TimelyCons(s, e, es);
    es := [e] + es;
  }

  /** The creator of an open entry goes on, which leaves the entry to wind down. */
  lemma FinishCreating(s: State, owner: Owner, id: nat, creator: Owner) returns (es: seq<Event>)
    requires Wellformed(s) && Cached(s, id) && s.entries[id].handle == Live
    requires s.entries[id].owners != {} && owner !in s.entries[id].owners && InFlight(s, owner, id)
    requires Creating(creator, id) in s.tasks && s.tasks[Creating(creator, id)] == 1
    requires forall o | Creating(o, id) in s.tasks :: o == creator
    ensures ValidRun(s, es) && TimelyRun(s, es) && DeadLease(Final(s, es))
  {
    var resume := ResumeCreator(creator, id);
    var s1 := Step(s, resume);
    assert forall t :: t != Creating(creator, id) ==> s1.tasks[t] == s.tasks[t];
    assert Winding(s1, id) && Stranded(s1, owner, id);
    es := WindDown(s1, owner, id);
    RunCons(s, resume, es);
    TimelyCons(s, resume, es);
    es := [resume] + es;
  }

  lemma FinishOpening(s: State, owner: Owner, id: nat, creator: Owner) returns (es: seq<Event>)
    requires Wellformed(s) && Cached(s, id) && s.entries[id].handle in {Opening, Live}
    requires s.entries[id].owners != {} && owner !in s.entries[id].owners && InFlight(s, owner, id)
    requires Creating(creator, id) in s.tasks && s.tasks[Creating(creator, id)] == 1
    requires forall o | Creating(o, id) in s.tasks :: o == creator
    ensures ValidRun(s, es) && TimelyRun(s, es) && DeadLease(Final(s, es))
  {
    if s.entries[id].handle == Live {
      es := FinishCreating(s, owner, id, creator);
    } else {
      var settle := Settle(id, true);
      var s1 := Step(s, settle);
      assert Cached(s1, id) && s1.entries[id].handle == Live && s1.tasks == s.tasks;
      es := FinishCreating(s1, owner, id, creator);
      RunCons(s, settle, es);
      TimelyCons(s, settle, es);
      es := [settle] + es;
    }
  }

  /** An owner that releases while its own acquire is in flight and the open has not failed ends up with a lease on a
      handle that the others have closed. */
  lemma EarlyReleaseStrands(s: State, e: Event) returns (es: seq<Event>)
    requires Inv(s) && Enabled(s, e) && Careful(s, e) && !Timely(s, e)
    ensures ValidRun(Step(s, e), es) && TimelyRun(Step(s, e), es) && DeadLease(Final(Step(s, e), es))
  {
    var id := s.cache[e.path];
    var s1 := Step(s, e);
    assert Effective(s, e) && Cached(s, id) && EntryInv(s, id) && InFlight(s, e.owner, id);
    assert s.entries[id].handle != Rejected;
    assert s.entries[id].handle in {Opening, Live};
    assert forall o :: Creating(o, id) in s.tasks ==> TaskInv(s, Creating(o, id));
    assert s1.entries[id].owners == s.entries[id].owners - {e.owner} && s1.tasks == s.tasks;
    if s1.entries[id].owners == {} {
      OnlyOwner(s.entries[id].owners, e.owner);
      assert s.entries[id].sinkSet && Stranded(s1, e.owner, id);
      es := StrandedOnClosing(s1, e.owner, id);
    } else if s.entries[id].sinkSet {
      assert Winding(s1, id) && Stranded(s1, e.owner, id);
      es := WindDown(s1, e.owner, id);
    } else {
      var creator :| Creating(creator, id) in s.tasks;
      es := FinishOpening(s1, e.owner, id, creator);
    }
  }

  /** Every timely continuation keeps all promises. */
  ghost predicate StaysSafe(s: State) {
    forall es | ValidRun(s, es) && TimelyRun(s, es) :: Safe(Final(s, es))
  }

  /** All promises: exactly the timely steps cannot be continued, by timely steps, into a state that breaks one. */
  lemma SafeIff(s: State, e: Event)
    requires Inv(s) && Enabled(s, e)
    ensures Timely(s, e) <==> StaysSafe(Step(s, e))
  {
    var s1 := Step(s, e);
    if Timely(s, e) {
      StepKeepsInv(s, e);
      forall es | ValidRun(s1, es) && TimelyRun(s1, es) ensures Safe(Final(s1, es)) {
        RunKeepsInv(s1, es);
        InvIsSafe(Final(s1, es));
      }
    } else if Careful(s, e) {
      var es := EarlyReleaseStrands(s, e);
      assert !Safe(Final(s1, es));
    } else {
      var id := s.cache[e.path];
      assert Effective(s, e) && !s.entries[id].sinkSet && Cached(s, id) && EntryInv(s, id);
      var es := CarelessBreaks(s, e, "");
      NoReleaseIsFine(s1, es);
      assert !Safe(Final(s1, es));
    }
  }

  // ---------- the simple rule ----------

  /** No owner releases a path while its own acquire of that path is in flight. */
  predicate Disciplined(s: State, e: Event) {
    e.Release? ==> forall id | 0 <= id < |s.entries| && s.entries[id].path == e.path :: !InFlight(s, e.owner, id)
  }

  predicate DisciplinedRun(s: State, es: seq<Event>)
    requires ValidRun(s, es)
    decreases |es|
  {
    es == [] || (Disciplined(s, es[0]) && DisciplinedRun(Step(s, es[0]), es[1..]))
  }

  /** The caller whose acquire opened an entry owns it until that acquire returns. */
  ghost predicate CreatorsOwn(s: State) {
    forall t | t in s.tasks && t.Creating? :: t.id < |s.entries| && t.owner in s.entries[t.id].owners
  }

  lemma DisciplinedIsTimely(s: State, e: Event)
    requires Inv(s) && CreatorsOwn(s) && Enabled(s, e) && Disciplined(s, e)
    ensures Timely(s, e)
  {
    if Effective(s, e) {
      var id := s.cache[e.path];
      assert Cached(s, id) && EntryInv(s, id) && !InFlight(s, e.owner, id);
      if !s.entries[id].sinkSet {
        var o :| Creating(o, id) in s.tasks;
        assert Creating(o, id).owner in s.entries[id].owners;
      }
    }
  }

  lemma OwnersGrow(s: State, e: Event, id: nat)
    requires Enabled(s, e) && id < |s.entries| && !e.Release?
    ensures id < |Step(s, e).entries| && s.entries[id].owners <= Step(s, e).entries[id].owners
  {
    if e.Acquire? { AcquireAdds(s, e.path, e.owner, id); }
  }

  lemma AcquireAdds(s: State, path: Path, owner: Owner, id: nat)
    requires Enabled(s, Acquire(path, owner)) && id < |s.entries|
    ensures var s' := AcquireStep(s, path, owner); id < |s'.entries| && s.entries[id].owners <= s'.entries[id].owners
  {
  }

  lemma ReleaseTakesOne(s: State, path: Path, owner: Owner, id: nat)
    requires Wellformed(s) && id < |s.entries|
    ensures |ReleaseStep(s, path, owner).entries| == |s.entries|
    ensures var s' := ReleaseStep(s, path, owner);
      (s'.entries[id].owners == s.entries[id].owners
       || (path in s.cache && s.cache[path] == id && s'.entries[id].owners == s.entries[id].owners - {owner}))
  {
  }

  lemma NewCreator(s: State, e: Event, t: Task)
    requires Enabled(s, e) && t.Creating? && t in Step(s, e).tasks && t !in s.tasks
    ensures t.id < |Step(s, e).entries| && t.owner in Step(s, e).entries[t.id].owners
  {
  }

  lemma StepKeepsCreators(s: State, e: Event)
    requires Inv(s) && CreatorsOwn(s) && Enabled(s, e) && Disciplined(s, e)
    ensures CreatorsOwn(Step(s, e))
  {
    var s' := Step(s, e);
    forall t | t in s'.tasks && t.Creating? ensures t.id < |s'.entries| && t.owner in s'.entries[t.id].owners {
      if t in s.tasks {
        assert Creating(t.owner, t.id) == t;
        if e.Release? { ReleaseTakesOne(s, e.path, e.owner, t.id); } else { OwnersGrow(s, e, t.id); }
      } else {
        NewCreator(s, e, t);
      }
    }
  }

  /** So the simple rule is enough. */
  lemma {:induction false} DisciplinedRunsAreTimely(s: State, es: seq<Event>)
    requires Inv(s) && CreatorsOwn(s) && ValidRun(s, es) && DisciplinedRun(s, es)
    ensures TimelyRun(s, es)
    decreases |es|
  {
    if es != [] {
      DisciplinedIsTimely(s, es[0]);
      StepKeepsCreators(s, es[0]);
      StepKeepsInv(s, es[0]);
      DisciplinedRunsAreTimely(Step(s, es[0]), es[1..]);
    }
  }

  /** Over every interleaving in which no owner releases during its own acquire. */
  lemma DisciplinedRunsAreSafe(es: seq<Event>)
    requires ValidRun(Initial, es) && DisciplinedRun(Initial, es)
    ensures Safe(Final(Initial, es))
  {
    assert Inv(Initial);
    DisciplinedRunsAreTimely(Initial, es);
    RunsAreSafe(es);
  }
}
