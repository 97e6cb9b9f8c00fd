/**
 The metadata writer and everything that runs beside it, as a state machine.

 One event is one uninterrupted piece of the code: a section under a lock, a
 read of the snapshot, or what happens between two suspension points. The
 event carries every choice the code leaves to its environment: what a
 broker answers, what the jitter draws, how far the clock moves.

 `PcAfter` is the control flow of the writer. Every other variable has one
 function that says which events write it, and what. `History` is bookkeeping:
 apart from the callers' futures (`queued`, `cancelled`), no guard reads it.
 */
module MetadataProtocol {
  import opened Wrappers
  import opened Backoff
  import opened MetadataTypes
  import opened MetadataMerge
  import opened MetadataHint

  datatype Config = Config(rebootstrapEnabled: bool, trigger: nat, ttl: Option<nat>, policy: Option<Policy>)

  /** `PendingFetch`: what was requested since the writer's last fetch. */
  datatype Batch = Batch(full: bool, topics: set<string>, waiters: set<nat>, rebootstrap: bool)

  const EMPTY_BATCH := Batch(false, {}, {}, false)

  predicate IsEmptyBatch(b: Batch) {
    !b.full && !b.rebootstrap && b.waiters == {}
  }

  /** The topics a batch fetches; `None` is every topic. */
  function BatchTopics(b: Batch): Option<set<string>> {
    if b.full then None else Some(b.topics)
  }

  /** A batch a request for `want` has joined as waiter `w`. */
  function Joined(b: Batch, want: Option<set<string>>, w: nat): Batch {
    Batch(b.full || want.None?, if want.Some? then b.topics + want.value else b.topics, b.waiters + {w}, b.rebootstrap)
  }

  /** A fetch of `have` answers a request for `want`. */
  predicate Covers(have: Option<set<string>>, want: Option<set<string>>) {
    have.None? || (want.Some? && want.value <= have.value)
  }

  /** One call of `refresh`: its batch, when it began, its loop variables. */
  datatype Fetch = Fetch(batch: Batch, began: nat, pass: nat, rebootstrapped: bool)

  datatype Reason = Requested | Timer | Unreachable | BrokerAsked

  /** Inside `rebootstrap`: before the write, after it, and holding a clock reading. */
  datatype ResetPhase = Sleeping | Written | Stamped(at: nat)

  /** What the writer does once its rebootstrap returns. */
  datatype Resume = ToAdmitted(batch: Batch) | ToPass(fetch: Fetch)

  datatype Pc =
    | Top
    | Open
    | Parked
    | Ready
    | Taken(batch: Batch)
    | Admitted(batch: Batch)
    | Attempt(f: Fetch)
    | Resetting(phase: ResetPhase, reason: Reason, resume: Resume)
    | Pass(f: Fetch)
    | Connecting(f: Fetch, id: nat, epoch: nat)
    | InFlight(f: Fetch, id: nat, epoch: nat)
    | Received(f: Fetch, id: nat, epoch: nat, r: Response)
    | Cleared(f: Fetch, id: nat, epoch: nat, r: Response)
    | Finished(f: Fetch, result: Option<nat>)
    | Answering(f: Fetch, result: Option<nat>, left: set<nat>)
    | Failing(left: set<nat>)
    | Stopped

  /**
   How the writer is woken: whether it was spawned, the permit `Notify` stores,
   how many callers have changed the batch and still have to call
   `wake_writer`, and whether a dropped handle still has to notify.
   */
  datatype Waking = Waking(started: bool, permit: bool, callers: nat, dropping: bool)

  /** A queued request and the step that queued it. */
  datatype Queued = Queued(want: Option<set<string>>, at: nat)

  datatype Answer =
    | HandleDropped
    | FetchFailed(began: nat, topics: Option<set<string>>)
    | FetchApplied(id: nat)

  datatype LogEntry = LogEntry(waiter: nat, answer: Answer)

  datatype PassInfo = PassInfo(began: nat, epoch: nat, topics: Option<set<string>>)

  datatype Source = FromFetch(id: nat) | FromHint(at: nat)

  datatype History = History(
    queued: map<nat, Queued>,
    cancelled: set<nat>,
    log: seq<LogEntry>,
    passes: map<nat, PassInfo>,
    nextPass: nat,
    applied: map<nat, Response>,
    topicFrom: map<string, nat>,
    brokerFrom: map<int, Source>,
    lastReset: nat)

  datatype System = System(
    cache: Snapshot,
    pending: Batch,
    pc: Pc,
    attemptStart: Option<nat>,
    limiter: Limiter,
    closed: bool,
    waking: Waking,
    users: map<nat, ResetPhase>,
    time: nat,
    tick: nat,
    h: History)

  datatype Event =
    | Tick(dt: nat)
    | Queue(w: nat, want: Option<set<string>>)
    | Cancel(w: nat)
    | AskRebootstrap
    | WakeWriter
    | Close
    | CloseNotifies
    | LeaderHint(hint: Hint)
    | Touch(name: string, nowMs: nat)
    | UserCalls(u: nat)
    | UserWrites(u: nat)
    | UserReadsClock(u: nat)
    | UserStores(u: nat)
    | WriterGoes(go: WriterEvent)

  datatype WriterEvent =
    | Stop
    | FailOne(waiter: nat)
    | Halt
    | SeeOpen
    | Park
    | Unpark
    | SeeBatch
    | Take
    | Admit
    | Begin
    | CheckTimer(jitter: nat)
    | ResetWrite
    | ResetReadClock
    | ResetStore
    | BeginPass
    | Exhaust
    | ConnectFails
    | ConnectWorks
    | SendFails
    | Receive(r: Response)
    | ClearStreak
    | Apply(nowMs: nat, next: Snapshot)
    | Finish(draw: real)
    | AnswerOne(waiter: nat)
    | Done

  ghost function Initial(time: nat): System {
    System(EmptySnapshot(time, 0, 0), EMPTY_BATCH, Top, None, NEW_LIMITER, false, Waking(false, false, 0, false),
           map[], time, 0, History(map[], {}, [], map[], 0, map[], map[], map[], 0))
  }

  // ---- which events can happen ----

  predicate EnvEnabled(c: Config, s: System, e: Event)
    requires !e.WriterGoes?
  {
    match e
    case Tick(_) => true
    case Queue(w, _) => w !in s.h.queued
    case Cancel(w) => w in s.h.queued
    case AskRebootstrap => true
    case WakeWriter => s.waking.callers > 0
    case Close => !s.closed
    case CloseNotifies => s.waking.dropping
    case LeaderHint(_) => true
    case Touch(name, _) => c.ttl.Some? && name in s.cache.stamps
    case UserCalls(u) => u !in s.users
    case UserWrites(u) => u in s.users && s.users[u] == Sleeping
    case UserReadsClock(u) => u in s.users && s.users[u] == Written
    case UserStores(u) => u in s.users && s.users[u].Stamped?
  }

  /** The failure streak has outlasted the trigger, extended by the drawn jitter. */
  predicate TimerFires(c: Config, s: System, jitter: nat) {
    && c.rebootstrapEnabled
    && s.attemptStart.Some?
    && SatSub(s.time, s.attemptStart.value) >= c.trigger + jitter
  }

  predicate BackoffOver(c: Config, s: System) {
    c.policy.None? || Allows(s.limiter, s.time)
  }

  predicate MayRebootstrap(c: Config, f: Fetch) {
    c.rebootstrapEnabled && !f.rebootstrapped
  }

  function MergeArgsOf(c: Config, s: System, f: Fetch, nowMs: nat): MergeArgs {
    MergeArgs(f.batch.full, c.ttl, s.time, nowMs)
  }

  ghost predicate WriterEnabled(c: Config, s: System, e: WriterEvent) {
    match e
    case Stop => s.pc.Top? && s.waking.started && s.closed
    case FailOne(w) => s.pc.Failing? && w in s.pc.left
    case Halt => s.pc.Failing? && s.pc.left == {}
    case SeeOpen => s.pc.Top? && s.waking.started && !s.closed
    case Park => s.pc.Open? && IsEmptyBatch(s.pending)
    case Unpark => s.pc.Parked? && s.waking.permit
    case SeeBatch => s.pc.Open? && !IsEmptyBatch(s.pending)
    case Take => s.pc.Ready? && BackoffOver(c, s)
    case Admit => s.pc.Taken?
    case Begin => s.pc.Admitted?
    case CheckTimer(jitter) => s.pc.Attempt? && 5 * jitter <= c.trigger
    case ResetWrite => s.pc.Resetting? && s.pc.phase.Sleeping?
    case ResetReadClock => s.pc.Resetting? && s.pc.phase.Written?
    case ResetStore => s.pc.Resetting? && s.pc.phase.Stamped?
    case BeginPass => s.pc.Pass? && s.pc.f.pass < 3
    case Exhaust => s.pc.Pass? && s.pc.f.pass >= 3
    case ConnectFails => s.pc.Connecting?
    case ConnectWorks => s.pc.Connecting?
    case SendFails => s.pc.InFlight?
    case Receive(_) => s.pc.InFlight?
    case ClearStreak => s.pc.Received?
    case Apply(nowMs, next) =>
      s.pc.Cleared? &&
      (s.cache.resetEpoch == s.pc.epoch ==> IsMerge(s.cache, s.pc.r, MergeArgsOf(c, s, s.pc.f, nowMs), next))
    case Finish(draw) => s.pc.Finished? && IsDraw(draw)
    case AnswerOne(w) => s.pc.Answering? && w in s.pc.left
    case Done => s.pc.Answering? && s.pc.left == {}
  }

  ghost predicate Enabled(c: Config, s: System, e: Event) {
    if e.WriterGoes? then WriterEnabled(c, s, e.go) else EnvEnabled(c, s, e)
  }

  // ---- the writer's control flow ----

  function Rebootstrap(f: Fetch, reason: Reason): Pc {
    Resetting(Sleeping, reason, ToPass(f.(rebootstrapped := true)))
  }

  /** Nobody waits for the batch any more, so it is not fetched. */
  predicate Abandoned(s: System, b: Batch) {
    b.waiters <= s.h.cancelled
  }

  ghost function PcAfter(c: Config, s: System, e: WriterEvent): Pc
    requires WriterEnabled(c, s, e)
  {
    match e
    case Stop => Failing(s.pending.waiters)
    case FailOne(w) => Failing(s.pc.left - {w})
    case Halt => Stopped
    case SeeOpen => Open
    case Park => Parked
    case Unpark => Top
    case SeeBatch => Ready
    case Take => Taken(s.pending)
    case Admit =>
      if s.pc.batch.rebootstrap then Resetting(Sleeping, Requested, ToAdmitted(s.pc.batch)) else Admitted(s.pc.batch)
    case Begin =>
      if Abandoned(s, s.pc.batch) then Top else Attempt(Fetch(s.pc.batch, s.tick + 1, 0, false))
    case CheckTimer(jitter) =>
      if TimerFires(c, s, jitter) then Rebootstrap(s.pc.f, Timer) else Pass(s.pc.f)
    case ResetWrite => Resetting(Written, s.pc.reason, s.pc.resume)
    case ResetReadClock => Resetting(Stamped(s.time), s.pc.reason, s.pc.resume)
    case ResetStore =>
      (match s.pc.resume
       case ToAdmitted(b) => Admitted(b)
       case ToPass(f) => Pass(f))
    case BeginPass => Connecting(s.pc.f.(pass := s.pc.f.pass + 1), s.h.nextPass, s.cache.resetEpoch)
    case Exhaust => Finished(s.pc.f, None)
    case ConnectFails =>
      if MayRebootstrap(c, s.pc.f) && s.cache.brokers != map[] then Rebootstrap(s.pc.f, Unreachable)
      else Finished(s.pc.f, None)
    case ConnectWorks => InFlight(s.pc.f, s.pc.id, s.pc.epoch)
    case SendFails => Finished(s.pc.f, None)
    case Receive(r) =>
      if r.errorCode == REBOOTSTRAP_REQUIRED && MayRebootstrap(c, s.pc.f) then Rebootstrap(s.pc.f, BrokerAsked)
      else if r.errorCode != NO_ERROR then Finished(s.pc.f, None)
      else Received(s.pc.f, s.pc.id, s.pc.epoch, r)
    case ClearStreak => Cleared(s.pc.f, s.pc.id, s.pc.epoch, s.pc.r)
    case Apply(_, _) =>
      if s.cache.resetEpoch == s.pc.epoch then Finished(s.pc.f, Some(s.pc.id)) else Pass(s.pc.f)
    case Finish(_) => Answering(s.pc.f, s.pc.result, s.pc.f.batch.waiters)
    case AnswerOne(w) => Answering(s.pc.f, s.pc.result, s.pc.left - {w})
    case Done => Top
  }

  // ---- the shared variables, and who writes them ----

  /** `reset_to_seeds`, first half: publish an empty snapshot under a new reset epoch. */
  function ResetSnapshot(cur: Snapshot, now: nat): Snapshot {
    EmptySnapshot(now, cur.generation + 1, cur.resetEpoch + 1)
  }

  function Hinted(cur: Snapshot, hint: Hint): Snapshot {
    match ApplyHint(cur, hint)
    case None => cur
    case Some(next) => next
  }

  function Used(stamps: map<string, TopicStamp>, name: string, nowMs: nat): map<string, TopicStamp>
    requires name in stamps
  {
    stamps[name := stamps[name].(lastUsedMs := nowMs)]
  }

  /** The response the writer holds is still applied: no rebootstrap came in between. */
  ghost predicate Applies(s: System, e: Event) {
    e.WriterGoes? && e.go.Apply? && s.pc.Cleared? && s.cache.resetEpoch == s.pc.epoch
  }

  ghost function CacheAfter(c: Config, s: System, e: Event): Snapshot
    requires Enabled(c, s, e)
  {
    match e
    case LeaderHint(hint) => Hinted(s.cache, hint)
    case Touch(name, nowMs) => s.cache.(stamps := Used(s.cache.stamps, name, nowMs))
    case UserWrites(_) => ResetSnapshot(s.cache, s.time)
    case WriterGoes(ResetWrite) => ResetSnapshot(s.cache, s.time)
    case WriterGoes(Apply(_, next)) => if Applies(s, e) then next else s.cache
    case _ => s.cache
  }

  function PendingAfter(s: System, e: Event): Batch {
    match e
    case Queue(w, want) => Joined(s.pending, want, w)
    case AskRebootstrap => s.pending.(rebootstrap := true)
    case WriterGoes(Stop) => EMPTY_BATCH
    case WriterGoes(Take) => EMPTY_BATCH
    case _ => s.pending
  }

  /** The start of the failure streak; a rebootstrap stores a clock reading it took before. */
  ghost function StreakAfter(c: Config, s: System, e: Event): Option<nat>
    requires Enabled(c, s, e)
  {
    match e
    case UserStores(u) => Some(s.users[u].at)
    case WriterGoes(ResetStore) => Some(s.pc.phase.at)
    case WriterGoes(ClearStreak) => None
    case WriterGoes(Begin) =>
      if Abandoned(s, s.pc.batch) || s.attemptStart.Some? then s.attemptStart else Some(s.time)
    case _ => s.attemptStart
  }

  ghost function LimiterAfter(c: Config, s: System, e: Event): Limiter
    requires Enabled(c, s, e)
  {
    match e
    case WriterGoes(Finish(draw)) =>
      if c.policy.None? then s.limiter else Completed(s.limiter, c.policy.value, s.pc.result.Some?, s.time, draw)
    case _ => s.limiter
  }

  function WakingAfter(s: System, e: Event): Waking {
    match e
    case Queue(_, _) => s.waking.(callers := s.waking.callers + 1)
    case AskRebootstrap => s.waking.(callers := s.waking.callers + 1)
    case WakeWriter => Waking(true, true, SatSub(s.waking.callers, 1), s.waking.dropping)
    case Close => s.waking.(dropping := true)
    case CloseNotifies => s.waking.(permit := true, dropping := false)
    case WriterGoes(Unpark) => s.waking.(permit := false)
    case _ => s.waking
  }

  function UsersAfter(s: System, e: Event): map<nat, ResetPhase> {
    match e
    case UserCalls(u) => s.users[u := Sleeping]
    case UserWrites(u) => s.users[u := Written]
    case UserReadsClock(u) => s.users[u := Stamped(s.time)]
    case UserStores(u) => s.users - {u}
    case _ => s.users
  }

  // ---- the bookkeeping ----

  function Deliver(h: History, w: nat, a: Answer): History {
    if w in h.cancelled then h else h.(log := h.log + [LogEntry(w, a)])
  }

  function AnswerOf(f: Fetch, result: Option<nat>): Answer {
    match result
    case Some(id) => FetchApplied(id)
    case None => FetchFailed(f.began, BatchTopics(f.batch))
  }

  ghost predicate BuiltBy(cur: Snapshot, r: Response, name: string, t: TopicInfo) {
    exists k :: 0 <= k < |r.topics| && r.topics[k].name == Some(name) && r.topics[k].errorCode == NO_ERROR
                && t == Built(Lookup(cur.topics, name), name, r.topics[k])
  }

  function HistoryOfReset(s: System): History {
    s.h.(lastReset := s.tick + 1, topicFrom := map[], brokerFrom := map[])
  }

  function HistoryOfHint(s: System, hint: Hint): History {
    if hint.leaderId >= 0 && EndpointIsNew(s.cache, hint)
    then s.h.(brokerFrom := s.h.brokerFrom[hint.endpoint.value.id := FromHint(s.tick + 1)])
    else s.h
  }

  /** The pass a topic of the merged snapshot goes back to. */
  ghost function TopicSource(s: System, r: Response, id: nat, next: Snapshot, name: string): nat {
    if name in next.topics && name in s.h.topicFrom && !BuiltBy(s.cache, r, name, next.topics[name])
    then s.h.topicFrom[name]
    else id
  }

  ghost function HistoryOfMerge(s: System, r: Response, id: nat, next: Snapshot): History {
    s.h.(topicFrom := Tabulate(next.topics.Keys, t => TopicSource(s, r, id, next, t)),
         brokerFrom := Tabulate(next.brokers.Keys, _ => FromFetch(id)),
         applied := s.h.applied[id := r])
  }

  function HistoryOfPass(s: System, f: Fetch): History {
    s.h.(nextPass := s.h.nextPass + 1,
         passes := s.h.passes[s.h.nextPass := PassInfo(s.tick + 1, s.cache.resetEpoch, BatchTopics(f.batch))])
  }

  ghost function HistoryAfter(c: Config, s: System, e: Event): History
    requires Enabled(c, s, e)
  {
    match e
    case Queue(w, want) => s.h.(queued := s.h.queued[w := Queued(want, s.tick + 1)])
    case Cancel(w) => s.h.(cancelled := s.h.cancelled + {w})
    case LeaderHint(hint) => HistoryOfHint(s, hint)
    case UserWrites(_) => HistoryOfReset(s)
    case WriterGoes(ResetWrite) => HistoryOfReset(s)
    case WriterGoes(FailOne(w)) => Deliver(s.h, w, HandleDropped)
    case WriterGoes(BeginPass) => HistoryOfPass(s, s.pc.f)
    case WriterGoes(Apply(_, next)) => if Applies(s, e) then HistoryOfMerge(s, s.pc.r, s.pc.id, next) else s.h
    case WriterGoes(AnswerOne(w)) => Deliver(s.h, w, AnswerOf(s.pc.f, s.pc.result))
    case _ => s.h
  }

  // ---- runs ----

  ghost function Step(c: Config, s: System, e: Event): System
    requires Enabled(c, s, e)
  {
    System(CacheAfter(c, s, e), PendingAfter(s, e), if e.WriterGoes? then PcAfter(c, s, e.go) else s.pc,
           StreakAfter(c, s, e), LimiterAfter(c, s, e), s.closed || e.Close?, WakingAfter(s, e), UsersAfter(s, e),
           if e.Tick? then s.time + e.dt else s.time, s.tick + 1, HistoryAfter(c, s, e))
  }

  ghost predicate IsStep(c: Config, s: System, e: Event, s': System) {
    Enabled(c, s, e) && s' == Step(c, s, e)
  }

  /** A run: the states visited and the events between them, from an initial state. */
  ghost predicate IsRun(c: Config, states: seq<System>, events: seq<Event>) {
    && |states| == |events| + 1
    && states[0] == Initial(states[0].time)
    && forall i {:trigger events[i]} :: 0 <= i < |events| ==> IsStep(c, states[i], events[i], states[i + 1])
  }
}
