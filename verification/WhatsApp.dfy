/** The conversation window of packages/channel-whatsapp/src/conversation-window.ts and the send gate of instance.ts
    that depends on it. Every stretch of code between two `await`s is one step. */
module WhatsApp {
  import opened Wrappers

  datatype Action = Drop | Queue | UseTemplate

  /** `policy`, the template names in the local cache, and the tracker's options. */
  datatype Config = Config(
    window: nat,
    hasStore: bool,
    enforce: bool,
    action: Action,
    defaultTemplate: string,
    templates: set<string>)

  datatype Payload =
    | Text(body: string)
    | Interactive(body: string)
    | Media(hasUrl: bool, hasPath: bool)
    | Template(name: string)

  datatype Result =
    | CallsApi
    | CallsTemplate(name: string)
    | Dropped
    | Queued
    | NoDefaultTemplate
    | NotCached(name: string)
    | LocalMedia

  /** A store row: it may be evicted from `evictableFrom` on. */
  datatype Row = Row(expiresAt: int, evictableFrom: int)

  /** A send waits for its store read, or holds the window end it has read. For the proofs a read also carries the true
      window end and the time when it was made; `warm` tells that the value still has to be put into the cache. */
  datatype Phase = Reading | Read(value: Option<int>, warm: bool, end: Option<int>, at: int)

  /** A free-form send under way: `asked` is the clock value it was started with. */
  datatype Send = Send(waId: string, payload: Payload, asked: int, phase: Phase)

  /** How a send ended: `end` is the true window end when the window was looked up, at time `at`. */
  datatype Outcome = Outcome(waId: string, payload: Payload, asked: int, at: int, end: Option<int>, result: Result)

  datatype Log = Started | Sent(before: Log, outcome: Outcome)

  /** `last` has the timestamp of each sender's last message that was not cleared since; `log` the sends since start. */
  datatype State = State(
    cache: map<string, int>,
    store: map<string, Row>,
    queue: map<string, seq<Payload>>,
    sends: seq<Option<Send>>,
    now: int,
    last: map<string, int>,
    log: Log)

  datatype Event =
    | Inbound(waId: string, timestamp: int)
    | Clear(waId: string)
    | StartSend(waId: string, payload: Payload)
    | StoreAnswers(i: nat)
    | Resume(i: nat)
    | Stop
    | Restart
    | Tick(to: int)
    | Evict(waId: string)

  function Initial(now: int): State {
    State(map[], map[], map[], [], now, map[], Started)
  }

  predicate Alive(s: State, i: nat) {
    i < |s.sends| && s.sends[i].Some?
  }

  predicate Enabled(c: Config, s: State, e: Event) {
    match e
    case StoreAnswers(i) => c.hasStore && Alive(s, i) && s.sends[i].value.phase.Reading?
    case Resume(i) => Alive(s, i) && s.sends[i].value.phase.Read?
    case Tick(to) => to >= s.now
    case Evict(waId) => waId in s.store && s.store[waId].evictableFrom <= s.now
    case _ => true
  }

  function Get<V>(m: map<string, V>, key: string): Option<V> {
    if key in m then Some(m[key]) else None
  }

  /** The end of the window by the definition of a window: last uncleared message plus its length. */
  function TrueEnd(c: Config, s: State, waId: string): Option<int> {
    if waId in s.last then Some(s.last[waId] + c.window) else None
  }

  predicate Open(end: Option<int>, now: int) {
    end.Some? && end.value > now
  }

  // ---------- the operations ----------

  function OnInbound(c: Config, s: State, waId: string, timestamp: int): State {
    var expiresAt := timestamp + c.window;
    s.(cache := s.cache[waId := expiresAt],
       store := if c.hasStore then s.store[waId := Row(expiresAt, s.now + c.window)] else s.store,
       last := s.last[waId := timestamp])
  }

  function OnClear(s: State, waId: string): State {
    s.(cache := s.cache - {waId}, store := s.store - {waId}, last := s.last - {waId})
  }

  /** What a send does once its window check, if it has one, is behind it. */
  function Deliver(c: Config, payload: Payload): Result {
    match payload
    case Template(name) => if name in c.templates then CallsTemplate(name) else NotCached(name)
    case Media(hasUrl, hasPath) => if hasPath && !hasUrl then LocalMedia else CallsApi
    case _ => CallsApi
  }

  function OutOfWindow(c: Config): Result {
    match c.action
    case Drop => Dropped
    case Queue => Queued
    case UseTemplate =>
      if c.defaultTemplate == "" then NoDefaultTemplate
      else if c.defaultTemplate in c.templates then CallsTemplate(c.defaultTemplate)
      else NotCached(c.defaultTemplate)
  }

  function QueueOf(queue: map<string, seq<Payload>>, waId: string): seq<Payload> {
    if waId in queue then queue[waId] else []
  }

  function Finish(s: State, o: Outcome): State {
    s.(queue := if o.result == Queued then s.queue[o.waId := QueueOf(s.queue, o.waId) + [o.payload]] else s.queue,
       log := Sent(s.log, o))
  }

  /** The first look at the cache, and without a store the last. */
  function Lookup(c: Config, s: State, waId: string): Phase {
    if waId in s.cache || !c.hasStore then Read(Get(s.cache, waId), false, TrueEnd(c, s, waId), s.now) else Reading
  }

  function OnStartSend(c: Config, s: State, waId: string, payload: Payload): State {
    if payload.Template? || !c.enforce then
      Finish(s, Outcome(waId, payload, s.now, s.now, TrueEnd(c, s, waId), Deliver(c, payload)))
    else s.(sends := s.sends + [Some(Send(waId, payload, s.now, Lookup(c, s, waId)))])
  }

  function OnStoreAnswers(c: Config, s: State, i: nat): State
    requires Enabled(c, s, StoreAnswers(i))
  {
    var send := s.sends[i].value;
    var row := Get(s.store, send.waId);
    var value := if row.Some? then Some(row.value.expiresAt) else None;
    s.(sends := s.sends[i := Some(send.(phase := Read(value, true, TrueEnd(c, s, send.waId), s.now)))])
  }

  /** The lookup returns, warming the cache, and the gate lets the send through or not. */
  function OnResume(c: Config, s: State, i: nat): State
    requires Enabled(c, s, Resume(i))
  {
    var send := s.sends[i].value;
    var p := send.phase;
    var warmed := if p.warm && p.value.Some? then s.cache[send.waId := p.value.value] else s.cache;
    var result := if Open(p.value, send.asked) then Deliver(c, send.payload) else OutOfWindow(c);
    Finish(s.(cache := warmed, sends := s.sends[i := None]),
           Outcome(send.waId, send.payload, send.asked, p.at, p.end, result))
  }

  function Step(c: Config, s: State, e: Event): State
    requires Enabled(c, s, e)
  {
    match e
    case Inbound(waId, timestamp) => OnInbound(c, s, waId, timestamp)
    case Clear(waId) => OnClear(s, waId)
    case StartSend(waId, payload) => OnStartSend(c, s, waId, payload)
    case StoreAnswers(i) => OnStoreAnswers(c, s, i)
    case Resume(i) => OnResume(c, s, i)
    case Stop => s.(queue := map[], log := Started)
    case Restart => s.(cache := map[], queue := map[], sends := seq(|s.sends|, _ => None), log := Started)
    case Tick(to) => s.(now := to)
    case Evict(waId) => s.(store := s.store - {waId})
  }

  // ---------- agreement of cache and store with the messages ----------

  /** Some send holds a window end it read from the store for this sender and has not put into the cache yet. */
  predicate Holds(s: State, i: nat, waId: string) {
    && Alive(s, i) && s.sends[i].value.waId == waId
    && s.sends[i].value.phase.Read? && s.sends[i].value.phase.warm && s.sends[i].value.phase.value.Some?
  }

  /** What callers must not do: write a sender's window between a store read for it and that read's return, record a
      message stamped in the future, or restart without a store. */
  predicate Orderly(c: Config, s: State, e: Event) {
    match e
    case Inbound(waId, timestamp) => timestamp <= s.now && forall i | 0 <= i < |s.sends| :: !Holds(s, i, waId)
    case Clear(waId) => forall i | 0 <= i < |s.sends| :: !Holds(s, i, waId)
    case Restart => c.hasStore
    case _ => true
  }

  predicate CacheAgrees(c: Config, s: State) {
    forall waId | waId in s.cache :: TrueEnd(c, s, waId) == Some(s.cache[waId])
  }

  predicate StoreAgrees(c: Config, s: State) {
    && (forall waId | waId in s.store ::
         TrueEnd(c, s, waId) == Some(s.store[waId].expiresAt) && s.store[waId].expiresAt <= s.store[waId].evictableFrom)
    && (c.hasStore ==> forall waId | waId in s.last && waId !in s.store :: s.last[waId] + c.window <= s.now)
    && (!c.hasStore ==> s.store == map[] && forall waId | waId in s.last :: waId in s.cache)
  }

  predicate ReadOk(s: State, send: Send) {
    && send.asked <= s.now && !send.payload.Template?
    && (send.phase.Read? ==>
         && send.asked <= send.phase.at <= s.now
         && (if send.phase.value.Some? then send.phase.end == send.phase.value
             else !Open(send.phase.end, send.phase.at)))
  }

  ghost predicate SendsOk(c: Config, s: State) {
    && (forall i | 0 <= i < |s.sends| && s.sends[i].Some? :: c.enforce && ReadOk(s, s.sends[i].value))
    && (forall i, waId | 0 <= i < |s.sends| && Holds(s, i, waId) :: TrueEnd(c, s, waId) == s.sends[i].value.phase.value)
  }

  /** What becomes of a free-form send outside its window. */
  predicate HeldBack(c: Config, result: Result) {
    && (c.action.Drop? ==> result == Dropped)
    && (c.action.Queue? ==> result == Queued)
    && (c.action.UseTemplate? && c.defaultTemplate == "" ==> result == NoDefaultTemplate)
    && (c.action.UseTemplate? && c.defaultTemplate != "" ==>
          result == if c.defaultTemplate in c.templates then CallsTemplate(c.defaultTemplate)
                    else NotCached(c.defaultTemplate))
  }

  /** A template goes out if it is known; anything else goes to the API, unless it is a local file without a URL, or is
      held back. */
  predicate ByPolicy(c: Config, o: Outcome) {
    match o.payload
    case Template(name) => o.result == if name in c.templates then CallsTemplate(name) else NotCached(name)
    case _ =>
      || (o.result == LocalMedia && o.payload == Media(false, true))
      || (o.result == CallsApi && o.payload != Media(false, true))
      || (c.enforce && HeldBack(c, o.result))
  }

  /** A free-form send passes the gate only if the window end, as it was when it was looked up, lies after the time the
      send was asked for; it is held back only if that end does not lie after the time of the look-up. */
  predicate Gated(c: Config, o: Outcome) {
    && o.asked <= o.at && ByPolicy(c, o)
    && (o.result == CallsApi ==> !o.payload.Template?)
    && (c.enforce && !o.payload.Template? ==>
         && (o.result in {CallsApi, LocalMedia} ==> Open(o.end, o.asked))
         && (o.result !in {CallsApi, LocalMedia} ==> !Open(o.end, o.at)))
  }

  predicate AllGated(c: Config, log: Log) {
    log.Sent? ==> Gated(c, log.outcome) && AllGated(c, log.before)
  }

  ghost predicate Agreement(c: Config, s: State) {
    CacheAgrees(c, s) && StoreAgrees(c, s) && SendsOk(c, s) && AllGated(c, s.log)
  }

  lemma InboundKeeps(c: Config, s: State, waId: string, timestamp: int)
    requires Agreement(c, s) && Orderly(c, s, Inbound(waId, timestamp))
    ensures Agreement(c, OnInbound(c, s, waId, timestamp))
  {
    var s' := OnInbound(c, s, waId, timestamp);
    forall i, w | 0 <= i < |s'.sends| && Holds(s', i, w) ensures TrueEnd(c, s', w) == s'.sends[i].value.phase.value {
      assert Holds(s, i, w);
    }
  }

  lemma ClearKeeps(c: Config, s: State, waId: string)
    requires Agreement(c, s) && Orderly(c, s, Clear(waId))
    ensures Agreement(c, OnClear(s, waId))
  {
    var s' := OnClear(s, waId);
    forall i, w | 0 <= i < |s'.sends| && Holds(s', i, w) ensures TrueEnd(c, s', w) == s'.sends[i].value.phase.value {
      assert Holds(s, i, w);
    }
  }

  lemma StartSendKeeps(c: Config, s: State, waId: string, payload: Payload)
    requires Agreement(c, s)
    ensures Agreement(c, OnStartSend(c, s, waId, payload))
  {
    var s' := OnStartSend(c, s, waId, payload);
    forall i, w | 0 <= i < |s'.sends| && Holds(s', i, w) ensures TrueEnd(c, s', w) == s'.sends[i].value.phase.value {
      assert i < |s.sends| && Holds(s, i, w);
    }
  }

  lemma StoreAnswersKeeps(c: Config, s: State, i: nat)
    requires Agreement(c, s) && Enabled(c, s, StoreAnswers(i))
    ensures Agreement(c, OnStoreAnswers(c, s, i))
  {
    var s' := OnStoreAnswers(c, s, i);
    assert ReadOk(s, s.sends[i].value);
    forall j, w | 0 <= j < |s'.sends| && Holds(s', j, w) ensures TrueEnd(c, s', w) == s'.sends[j].value.phase.value {
      assert j != i ==> Holds(s, j, w);
    }
  }

  lemma ResumeKeeps(c: Config, s: State, i: nat)
    requires Agreement(c, s) && Enabled(c, s, Resume(i))
    ensures Agreement(c, OnResume(c, s, i))
  {
    var s' := OnResume(c, s, i);
    var send := s.sends[i].value;
    assert ReadOk(s, send);
    assert send.phase.warm && send.phase.value.Some? ==> Holds(s, i, send.waId);
    forall j, w | 0 <= j < |s'.sends| && Holds(s', j, w) ensures TrueEnd(c, s', w) == s'.sends[j].value.phase.value {
      assert Holds(s, j, w);
    }
  }
}
