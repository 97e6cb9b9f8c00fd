/** What holds in every reachable state of the metadata protocol. */
module MetadataSafety {
  import opened Wrappers
  import opened MetadataTypes
  import opened MetadataMerge
  import opened MetadataMergeLaws
  import opened MetadataHint
  import opened MetadataProtocol

  // ---- provenance ----

  /** The response describes the topic: its ID, its kind and its partition set come from one healthy item. */
  ghost predicate Described(r: Response, name: string, t: TopicInfo) {
    exists k :: 0 <= k < |r.topics| && IsHealthy(r.topics[k], name)
                && t.topicId == ItemTopicId(r.topics[k]) && t.isInternal == r.topics[k].isInternal
                && t.partitions.Keys == PartitionIds(r.topics[k].partitions)
  }

  /** Pass `id` read its reset epoch after the latest rebootstrap, and its response was applied. */
  ghost predicate CurrentFetch(s: System, id: nat) {
    id in s.h.passes && id in s.h.applied && s.h.passes[id].began > s.h.lastReset
  }

  ghost predicate TopicTraced(s: System, name: string)
    requires name in s.cache.topics
  {
    && name in s.h.topicFrom
    && CurrentFetch(s, s.h.topicFrom[name])
    && Described(s.h.applied[s.h.topicFrom[name]], name, s.cache.topics[name])
  }

  ghost predicate BrokerTraced(s: System, id: int)
    requires id in s.cache.brokers
  {
    && id in s.h.brokerFrom
    && match s.h.brokerFrom[id]
       case FromFetch(f) => CurrentFetch(s, f) && LastBroker(s.h.applied[f].brokers, id) == Some(s.cache.brokers[id])
       case FromHint(at) => s.h.lastReset < at <= s.tick
  }

  /** Every topic and broker of the snapshot goes back to a fetch, or a hint, since the latest rebootstrap. */
  ghost predicate Traced(s: System) {
    && (forall name :: name in s.cache.topics ==> TopicTraced(s, name))
    && (forall id :: id in s.cache.brokers ==> BrokerTraced(s, id))
  }

  /** A pass whose reset epoch is still the cache's began after the latest rebootstrap. */
  ghost predicate PassesFenced(s: System) {
    && s.h.lastReset <= s.tick
    && s.h.applied.Keys <= s.h.passes.Keys
    && (forall id :: id in s.h.passes ==>
          && id < s.h.nextPass
          && s.h.passes[id].began <= s.tick
          && s.h.passes[id].epoch <= s.cache.resetEpoch
          && (s.h.passes[id].epoch == s.cache.resetEpoch ==> s.h.passes[id].began > s.h.lastReset))
  }

  ghost predicate PassOf(s: System, f: Fetch, id: nat) {
    && id in s.h.passes
    && f.began < s.h.passes[id].began
    && s.h.passes[id].topics == BatchTopics(f.batch)
  }

  /** The writer's local variables agree with the passes it started. */
  ghost predicate PcOk(s: System) {
    match s.pc
    case Connecting(f, id, epoch) => PassOf(s, f, id) && s.h.passes[id].epoch == epoch && id !in s.h.applied
    case InFlight(f, id, epoch) => PassOf(s, f, id) && s.h.passes[id].epoch == epoch && id !in s.h.applied
    case Received(f, id, epoch, _) => PassOf(s, f, id) && s.h.passes[id].epoch == epoch && id !in s.h.applied
    case Cleared(f, id, epoch, _) => PassOf(s, f, id) && s.h.passes[id].epoch == epoch && id !in s.h.applied
    case Finished(f, Some(id)) => PassOf(s, f, id) && id in s.h.applied
    case Answering(f, Some(id), _) => PassOf(s, f, id) && id in s.h.applied
    case Attempt(f) => f.began <= s.tick
    case Pass(f) => f.began <= s.tick
    case Resetting(_, _, ToPass(f)) => f.began <= s.tick
    case _ => true
  }

  ghost predicate ProvenanceInv(s: System) {
    PassesFenced(s) && PcOk(s) && Traced(s)
  }

  /** A step that leaves the snapshot and its provenance alone; it may at most start a pass. */
  ghost predicate Quiet(s: System, s': System) {
    && s'.tick == s.tick + 1
    && s'.cache.topics == s.cache.topics && s'.cache.brokers == s.cache.brokers
    && s'.cache.resetEpoch == s.cache.resetEpoch
    && s'.h.lastReset == s.h.lastReset && s'.h.applied == s.h.applied
    && s'.h.topicFrom == s.h.topicFrom && s'.h.brokerFrom == s.h.brokerFrom
    && PassesGrow(s, s')
  }

  /** The passes are the same, or one more has just read the reset epoch. */
  ghost predicate PassesGrow(s: System, s': System) {
    || (s'.h.passes == s.h.passes && s'.h.nextPass == s.h.nextPass)
    || (&& s'.h.nextPass == s.h.nextPass + 1
        && exists topics {:trigger PassInfo(s.tick + 1, s.cache.resetEpoch, topics)} ::
             s'.h.passes == s.h.passes[s.h.nextPass := PassInfo(s.tick + 1, s.cache.resetEpoch, topics)])
  }

  lemma QuietKeepsTraced(s: System, s': System)
    requires Quiet(s, s') && PassesFenced(s) && Traced(s)
    ensures PassesFenced(s') && Traced(s')
  {
  }

  /** What a hint that changes the snapshot does to it and to its provenance. */
  ghost predicate Hints(s: System, s': System, hint: Hint) {
    && ApplyHint(s.cache, hint) == Some(s'.cache)
    && s'.h == HistoryOfHint(s, hint) && s'.tick == s.tick + 1
  }

  lemma HintKeepsTopics(s: System, s': System, hint: Hint)
    requires Hints(s, s', hint) && PassesFenced(s) && Traced(s)
    ensures PassesFenced(s') && forall name :: name in s'.cache.topics ==> TopicTraced(s', name)
  {
    hide ApplyHint;
    HintFrame(s.cache, hint, s'.cache);
    forall name | name in s'.cache.topics ensures TopicTraced(s', name) {
      assert TopicTraced(s, name);
    }
  }

  lemma HintKeepsBrokers(s: System, s': System, hint: Hint)
    requires Hints(s, s', hint) && PassesFenced(s) && Traced(s)
    ensures forall id :: id in s'.cache.brokers ==> BrokerTraced(s', id)
  {
    forall id | id in s'.cache.brokers ensures BrokerTraced(s', id) {
      assert id in s.cache.brokers ==> BrokerTraced(s, id);
    }
  }

  lemma HintKeepsTraced(c: Config, s: System, s': System, hint: Hint)
    requires IsStep(c, s, LeaderHint(hint), s') && PassesFenced(s) && Traced(s) && ApplyHint(s.cache, hint).Some?
    ensures PassesFenced(s') && Traced(s')
  {
    hide PendingAfter, StreakAfter, LimiterAfter, WakingAfter, UsersAfter, PassesFenced, TopicTraced, BrokerTraced, ApplyHint;
    assert Hints(s, s', hint);
    HintKeepsTopics(s, s', hint);
    HintKeepsBrokers(s, s', hint);
  }

  lemma ResetKeepsTraced(c: Config, s: System, s': System, e: Event)
    requires IsStep(c, s, e, s') && (e.UserWrites? || e == WriterGoes(ResetWrite)) && PassesFenced(s)
    ensures PassesFenced(s') && Traced(s')
  {
    hide PcAfter, PendingAfter, StreakAfter, LimiterAfter, WakingAfter, UsersAfter;
  }

  lemma EnvIsQuiet(c: Config, s: System, s': System, e: Event)
    requires !e.WriterGoes? && IsStep(c, s, e, s')
    requires !e.UserWrites? && !(e.LeaderHint? && ApplyHint(s.cache, e.hint).Some?)
    ensures Quiet(s, s')
  {
    hide PcAfter, PendingAfter, StreakAfter, LimiterAfter, WakingAfter, UsersAfter;
  }

  lemma EnvKeepsPcOk(c: Config, s: System, s': System, e: Event)
    requires !e.WriterGoes? && IsStep(c, s, e, s') && PcOk(s)
    ensures PcOk(s')
  {
    hide CacheAfter, PendingAfter, StreakAfter, LimiterAfter, WakingAfter, UsersAfter;
    assert s'.pc == s.pc && s'.h.passes == s.h.passes && s'.h.applied == s.h.applied && s'.tick == s.tick + 1;
  }

  lemma EnvKeepsProvenance(c: Config, s: System, s': System, e: Event)
    requires !e.WriterGoes? && IsStep(c, s, e, s') && ProvenanceInv(s)
    ensures ProvenanceInv(s')
  {
    hide Step, PassesFenced, PcOk, Traced;
    EnvKeepsPcOk(c, s, s', e);
    if e.LeaderHint? && ApplyHint(s.cache, e.hint).Some? {
      HintKeepsTraced(c, s, s', e.hint);
    } else if e.UserWrites? {
      ResetKeepsTraced(c, s, s', e);
    } else {
      EnvIsQuiet(c, s, s', e);
      QuietKeepsTraced(s, s');
    }
  }

  /** What an applied response does to the snapshot and to its provenance. */
  ghost predicate Merges(c: Config, s: System, s': System, nowMs: nat) {
    && s.pc.Cleared? && IsMerge(s.cache, s.pc.r, MergeArgsOf(c, s, s.pc.f, nowMs), s'.cache)
    && s'.h == HistoryOfMerge(s, s.pc.r, s.pc.id, s'.cache) && s'.tick == s.tick + 1
    && s.cache.resetEpoch == s.pc.epoch
  }

  lemma MergeKeepsTopics(c: Config, s: System, s': System, nowMs: nat)
    requires Merges(c, s, s', nowMs) && ProvenanceInv(s)
    ensures forall name :: name in s'.cache.topics ==> TopicTraced(s', name)
  {
    hide BuiltBy, Described, IsMerge;
    forall name | name in s'.cache.topics ensures TopicTraced(s', name) {
      KeptOrBuilt(s.cache, s.pc.r, MergeArgsOf(c, s, s.pc.f, nowMs), s'.cache, name);
      if !BuiltBy(s.cache, s.pc.r, name, s'.cache.topics[name]) {
        assert TopicTraced(s, name);
      }
    }
  }

  lemma MergeKeepsBrokers(c: Config, s: System, s': System, nowMs: nat)
    requires Merges(c, s, s', nowMs) && ProvenanceInv(s)
    ensures PassesFenced(s') && forall id :: id in s'.cache.brokers ==> BrokerTraced(s', id)
  {
    hide BuiltBy, IsSlotted, IdsIndexed, Traced;
    forall id | id in s'.cache.brokers ensures BrokerTraced(s', id) {
      assert Lookup(s'.cache.brokers, id) == LastBroker(s.pc.r.brokers, id);
    }
  }

  lemma ApplyKeepsTraced(c: Config, s: System, s': System, nowMs: nat, next: Snapshot)
    requires IsStep(c, s, WriterGoes(Apply(nowMs, next)), s') && ProvenanceInv(s)
    requires Applies(s, WriterGoes(Apply(nowMs, next)))
    ensures PassesFenced(s') && Traced(s')
  {
    hide PcAfter, PendingAfter, StreakAfter, LimiterAfter, WakingAfter, UsersAfter, PassesFenced, TopicTraced, BrokerTraced;
    hide IsMerge, HistoryOfMerge;
    assert Merges(c, s, s', nowMs);
    MergeKeepsTopics(c, s, s', nowMs);
    MergeKeepsBrokers(c, s, s', nowMs);
  }

  /** A merged entry is the cached one, or the response describes it. */
  lemma KeptOrBuilt(cur: Snapshot, r: Response, a: MergeArgs, next: Snapshot, name: string)
    requires IsMerge(cur, r, a, next) && name in next.topics
    ensures BuiltBy(cur, r, name, next.topics[name]) || Lookup(cur.topics, name) == Some(next.topics[name])
    ensures BuiltBy(cur, r, name, next.topics[name]) ==> Described(r, name, next.topics[name])
  {
    assert Lookup(next.topics, name) == SlotAfter(cur, a, name, r.topics).entry;
    var k := EntryOrigin(cur, a, name, r.topics);
    if BuiltBy(cur, r, name, next.topics[name]) {
      BuiltIsDescribed(cur, r, name, next.topics[name]);
    }
  }

  lemma BuiltIsDescribed(cur: Snapshot, r: Response, name: string, t: TopicInfo)
    requires BuiltBy(cur, r, name, t)
    ensures Described(r, name, t)
  {
    var k :| 0 <= k < |r.topics| && r.topics[k].name == Some(name) && r.topics[k].errorCode == NO_ERROR
             && t == Built(Lookup(cur.topics, name), name, r.topics[k]);
    var items := r.topics[k].partitions;
    forall id ensures id in t.partitions <==> id in PartitionIds(items) {
      LastPartitionFinds(items, id);
      assert Lookup(t.partitions, id) ==
             PartitionAfter(name, Fenceable(Lookup(cur.topics, name), t.topicId), items, id);
    }
    assert IsHealthy(r.topics[k], name);
  }

  lemma WriterIsQuiet(c: Config, s: System, s': System, e: WriterEvent)
    requires IsStep(c, s, WriterGoes(e), s') && PassesFenced(s)
    requires !e.ResetWrite? && !Applies(s, WriterGoes(e))
    ensures Quiet(s, s')
  {
    hide PcAfter, PendingAfter, StreakAfter, LimiterAfter, WakingAfter, UsersAfter, BuiltBy, IsMerge;
    assert s'.cache == s.cache;
    if e.BeginPass? {
      var topics := BatchTopics(s.pc.f.batch);
      assert s'.h.passes == s.h.passes[s.h.nextPass := PassInfo(s.tick + 1, s.cache.resetEpoch, topics)];
    } else {
      assert s'.h == s.h.(log := s'.h.log);
    }
  }

  lemma EnvPasses(c: Config, s: System, s': System, e: Event)
    requires !e.WriterGoes? && IsStep(c, s, e, s')
    ensures s'.tick == s.tick + 1
    ensures s'.h.passes == s.h.passes && s'.h.nextPass == s.h.nextPass && s'.h.applied == s.h.applied
  {
    hide CacheAfter, PendingAfter, PcAfter, StreakAfter, LimiterAfter, WakingAfter, UsersAfter, EndpointIsNew;
  }

  lemma WriterPasses(c: Config, s: System, s': System, e: WriterEvent)
    requires IsStep(c, s, WriterGoes(e), s')
    ensures s'.tick == s.tick + 1
    ensures if e.BeginPass? then s.pc.Pass? && s'.h == HistoryOfPass(s, s.pc.f)
            else s'.h.passes == s.h.passes && s'.h.nextPass == s.h.nextPass
    ensures s'.h.applied == if Applies(s, WriterGoes(e)) then s.h.applied[s.pc.id := s.pc.r] else s.h.applied
  {
    hide CacheAfter, PendingAfter, PcAfter, StreakAfter, LimiterAfter, WakingAfter, UsersAfter, BuiltBy, IsMerge;
  }

  /** Which events the records of passes and of applied responses go back to. */
  lemma StepPasses(c: Config, s: System, s': System, e: Event)
    requires IsStep(c, s, e, s')
    ensures s'.tick == s.tick + 1
    ensures e == WriterGoes(BeginPass) ==>
              && s.pc.Pass? && s'.h.nextPass == s.h.nextPass + 1
              && s'.h.passes == s.h.passes[s.h.nextPass :=
                   PassInfo(s.tick + 1, s.cache.resetEpoch, BatchTopics(s.pc.f.batch))]
    ensures e != WriterGoes(BeginPass) ==> s'.h.passes == s.h.passes && s'.h.nextPass == s.h.nextPass
    ensures s'.h.applied == if Applies(s, e) then s.h.applied[s.pc.id := s.pc.r] else s.h.applied
  {
    hide IsStep;
    if e.WriterGoes? {
      WriterPasses(c, s, s', e.go);
    } else {
      EnvPasses(c, s, s', e);
    }
  }

  lemma WriterKeepsPcOk(c: Config, s: System, s': System, e: WriterEvent)
    requires IsStep(c, s, WriterGoes(e), s') && PassesFenced(s) && PcOk(s)
    ensures PcOk(s')
  {
    hide CacheAfter, PendingAfter, StreakAfter, LimiterAfter, WakingAfter, UsersAfter, HistoryAfter;
    hide IsMerge, TimerFires, MayRebootstrap, BackoffOver, IsEmptyBatch, BatchTopics;
    WriterPasses(c, s, s', e);
  }

  lemma WriterKeepsProvenance(c: Config, s: System, s': System, e: WriterEvent)
    requires IsStep(c, s, WriterGoes(e), s') && ProvenanceInv(s)
    ensures ProvenanceInv(s')
  {
    hide Step, PassesFenced, PcOk, Traced;
    WriterKeepsPcOk(c, s, s', e);
    if Applies(s, WriterGoes(e)) {
      ApplyKeepsTraced(c, s, s', e.nowMs, e.next);
    } else if e.ResetWrite? {
      ResetKeepsTraced(c, s, s', WriterGoes(e));
    } else {
      WriterIsQuiet(c, s, s', e);
      QuietKeepsTraced(s, s');
    }
  }

  /**
   Safety of the snapshot over every run: each topic and each broker traces to
   a fetch that read its reset epoch after the latest rebootstrap, or, for a
   broker, to a hint applied since.
   */
  lemma {:induction false} SnapshotIsTraced(c: Config, states: seq<System>, events: seq<Event>, i: nat)
    requires IsRun(c, states, events) && i < |states|
    ensures ProvenanceInv(states[i])
  {
    hide IsStep;
    if i > 0 {
      SnapshotIsTraced(c, states, events, i - 1);
      var e := events[i - 1];
      assert IsStep(c, states[i - 1], e, states[i]);
      if e.WriterGoes? {
        WriterKeepsProvenance(c, states[i - 1], states[i], e.go);
      } else {
        EnvKeepsProvenance(c, states[i - 1], states[i], e);
      }
    }
  }

  // ---- waiters ----

  /** The call of `refresh` the writer is in. */
  function PcFetch(pc: Pc): Option<Fetch> {
    match pc
    case Attempt(f) => Some(f)
    case Resetting(_, _, ToPass(f)) => Some(f)
    case Pass(f) => Some(f)
    case Connecting(f, _, _) => Some(f)
    case InFlight(f, _, _) => Some(f)
    case Received(f, _, _, _) => Some(f)
    case Cleared(f, _, _, _) => Some(f)
    case Finished(f, _) => Some(f)
    case Answering(f, _, _) => Some(f)
    case _ => None
  }

  /** The batch the writer holds. */
  function PcBatch(pc: Pc): Batch {
    match pc
    case Taken(b) => b
    case Admitted(b) => b
    case Resetting(_, _, ToAdmitted(b)) => b
    case _ => if PcFetch(pc).Some? then PcFetch(pc).value.batch else EMPTY_BATCH
  }

  function PcBegan(pc: Pc): Option<nat> {
    if PcFetch(pc).Some? then Some(PcFetch(pc).value.began) else None
  }

  /** The waiters the writer still has to answer. */
  function PcWaiters(pc: Pc): set<nat> {
    match pc
    case Answering(_, _, left) => left
    case Failing(left) => left
    case _ => PcBatch(pc).waiters
  }

  predicate Answered(log: seq<LogEntry>, w: nat) {
    exists i :: 0 <= i < |log| && log[i].waiter == w
  }

  /** Each waiter is in exactly one place: queued with the writer's next batch, in its hands, or answered. */
  ghost predicate WaitersPlaced(s: System) {
    && s.pending.waiters !! PcWaiters(s.pc)
    && (forall w :: w in s.pending.waiters || w in PcWaiters(s.pc) ==> w in s.h.queued && !Answered(s.h.log, w))
    && (forall i :: 0 <= i < |s.h.log| ==> s.h.log[i].waiter in s.h.queued)
    && (forall i, j :: 0 <= i < j < |s.h.log| ==> s.h.log[i].waiter != s.h.log[j].waiter)
    && (forall w :: w in s.h.queued ==>
          w in s.pending.waiters || w in PcWaiters(s.pc) || w in s.h.cancelled || Answered(s.h.log, w))
  }

  /** The batches cover the requests queued in them, and a fetch begins after the requests it covers. */
  ghost predicate WaitersCovered(s: System) {
    && (forall w :: w in s.h.queued ==> s.h.queued[w].at <= s.tick)
    && (forall w :: w in s.pending.waiters && w in s.h.queued ==>
          Covers(BatchTopics(s.pending), s.h.queued[w].want))
    && (forall w :: w in PcWaiters(s.pc) && w in s.h.queued && !s.pc.Failing? ==>
          && Covers(BatchTopics(PcBatch(s.pc)), s.h.queued[w].want)
          && (PcBegan(s.pc).Some? ==> s.h.queued[w].at < PcBegan(s.pc).value))
    && (s.pc.Answering? ==> s.pc.left <= s.pc.f.batch.waiters)
    && (s.pc.Failing? ==> s.closed)
  }

  /** An answer comes from a fetch that began after the request and covers it, and `Ok` only after its response was applied. */
  ghost predicate AnswerOk(s: System, entry: LogEntry) {
    entry.waiter in s.h.queued &&
    var q := s.h.queued[entry.waiter];
    match entry.answer
    case FetchApplied(id) =>
      id in s.h.passes && id in s.h.applied && q.at < s.h.passes[id].began && Covers(s.h.passes[id].topics, q.want)
    case FetchFailed(began, topics) => q.at < began && Covers(topics, q.want)
    case HandleDropped => s.closed
  }

  ghost predicate AnswersOk(s: System) {
    forall i :: 0 <= i < |s.h.log| ==> AnswerOk(s, s.h.log[i])
  }

  ghost predicate WaiterInv(s: System) {
    WaitersPlaced(s) && WaitersCovered(s) && AnswersOk(s)
  }

  /** Nothing is answered and nobody queues: waiters at most change hands, or are dropped once cancelled. */
  ghost predicate Handover(s: System, s': System) {
    && s'.tick == s.tick + 1
    && s'.h.log == s.h.log && s'.h.queued == s.h.queued && s.h.cancelled <= s'.h.cancelled
    && (s.closed ==> s'.closed)
    && PassesGrow(s, s') && s.h.applied.Keys <= s'.h.applied.Keys
    && s'.pending.waiters !! PcWaiters(s'.pc)
    && s'.pending.waiters + PcWaiters(s'.pc) <= s.pending.waiters + PcWaiters(s.pc)
    && s.pending.waiters + PcWaiters(s.pc) <= s'.pending.waiters + PcWaiters(s'.pc) + s.h.cancelled
  }

  lemma HandoverKeepsWaiters(s: System, s': System)
    requires Handover(s, s') && WaitersPlaced(s) && AnswersOk(s) && PassesFenced(s)
    ensures WaitersPlaced(s') && AnswersOk(s')
  {
  }

  /** A caller joins the next batch. */
  ghost predicate Joins(s: System, s': System, w: nat, want: Option<set<string>>) {
    && w !in s.h.queued && s'.pending == Joined(s.pending, want, w)
    && s'.h == s.h.(queued := s.h.queued[w := Queued(want, s.tick + 1)])
    && s'.pc == s.pc && s'.closed == s.closed && s'.tick == s.tick + 1
  }

  lemma JoinKeepsPlaced(s: System, s': System, w: nat, want: Option<set<string>>)
    requires Joins(s, s', w, want) && WaitersPlaced(s) && AnswersOk(s)
    ensures WaitersPlaced(s') && AnswersOk(s')
  {
    hide PcWaiters;
    assert !Answered(s.h.log, w);
    forall i | 0 <= i < |s'.h.log| ensures AnswerOk(s', s'.h.log[i]) {
      assert AnswerOk(s, s.h.log[i]);
    }
  }

  lemma JoinKeepsCovered(s: System, s': System, w: nat, want: Option<set<string>>)
    requires Joins(s, s', w, want) && WaitersPlaced(s) && WaitersCovered(s)
    ensures WaitersCovered(s')
  {
    hide PcWaiters, PcBatch, PcBegan, Answered;
  }

  lemma JoinKeepsWaiters(c: Config, s: System, s': System, w: nat, want: Option<set<string>>)
    requires IsStep(c, s, Queue(w, want), s') && WaiterInv(s)
    ensures WaiterInv(s')
  {
    assert Joins(s, s', w, want) by {
      hide CacheAfter, StreakAfter, LimiterAfter, WakingAfter, UsersAfter, WaiterInv;
    }
    hide Step, WaitersPlaced, WaitersCovered, AnswersOk;
    JoinKeepsPlaced(s, s', w, want);
    JoinKeepsCovered(s, s', w, want);
  }

  lemma EnvHandsOver(c: Config, s: System, s': System, e: Event)
    requires !e.WriterGoes? && !e.Queue? && IsStep(c, s, e, s') && s.pending.waiters !! PcWaiters(s.pc)
    ensures Handover(s, s')
    ensures WaitersCovered(s) ==> WaitersCovered(s')
  {
    hide CacheAfter, StreakAfter, LimiterAfter, WakingAfter, UsersAfter, ApplyHint, EndpointIsNew;
  }

  lemma EnvKeepsWaiters(c: Config, s: System, s': System, e: Event)
    requires !e.WriterGoes? && IsStep(c, s, e, s') && WaiterInv(s) && PassesFenced(s)
    ensures WaiterInv(s')
  {
    if e.Queue? {
      JoinKeepsWaiters(c, s, s', e.w, e.want);
    } else {
      hide Step, Handover, AnswersOk, WaitersCovered;
      EnvHandsOver(c, s, s', e);
      HandoverKeepsWaiters(s, s');
    }
  }

  /** Appending an answer for a waiter that has none. */
  lemma LogGrows(s: System, s': System, w: nat)
    requires |s'.h.log| == |s.h.log| + 1 && s'.h.log[..|s.h.log|] == s.h.log
    requires s'.h.log[|s.h.log|].waiter == w
    ensures forall v :: Answered(s'.h.log, v) <==> Answered(s.h.log, v) || v == w
    ensures forall i :: 0 <= i < |s.h.log| ==> s'.h.log[i] == s.h.log[i]
  {
  }

  /** What an answering step does: one waiter leaves the writer's hands, answered unless it was cancelled. */
  ghost predicate Delivers(s: System, s': System, w: nat, a: Answer) {
    && s'.tick == s.tick + 1 && s'.pending == s.pending && s'.closed == s.closed
    && s'.h.queued == s.h.queued && s'.h.cancelled == s.h.cancelled
    && s'.h.passes == s.h.passes && s'.h.applied == s.h.applied
    && w in PcWaiters(s.pc) && PcWaiters(s'.pc) == PcWaiters(s.pc) - {w}
    && s'.h.log == if w in s.h.cancelled then s.h.log else s.h.log + [LogEntry(w, a)]
  }

  lemma WriterDelivers(c: Config, s: System, s': System, e: WriterEvent)
    requires e.FailOne? || e.AnswerOne?
    requires IsStep(c, s, WriterGoes(e), s') && WaitersCovered(s)
    ensures Delivers(s, s', e.waiter,
                     if e.FailOne? then HandleDropped else AnswerOf(s.pc.f, s.pc.result))
    ensures WaitersCovered(s')
  {
    hide CacheAfter, StreakAfter, LimiterAfter, WakingAfter, UsersAfter, IsMerge, TimerFires, MayRebootstrap, BackoffOver, IsEmptyBatch;
  }

  lemma DeliveryKeepsPlaced(s: System, s': System, w: nat, a: Answer)
    requires Delivers(s, s', w, a) && WaitersPlaced(s) && AnswersOk(s)
    requires AnswerOk(s, LogEntry(w, a))
    ensures WaitersPlaced(s') && AnswersOk(s')
  {
    if w !in s.h.cancelled {
      LogGrows(s, s', w);
    }
    forall i | 0 <= i < |s'.h.log| ensures AnswerOk(s', s'.h.log[i]) {
      if i < |s.h.log| { assert AnswerOk(s, s.h.log[i]); }
    }
  }

  lemma DeliveryKeepsWaiters(c: Config, s: System, s': System, e: WriterEvent)
    requires e.FailOne? || e.AnswerOne?
    requires IsStep(c, s, WriterGoes(e), s') && WaiterInv(s) && PcOk(s)
    ensures WaiterInv(s')
  {
    hide Step;
    WriterDelivers(c, s, s', e);
    DeliveryKeepsPlaced(s, s', e.waiter,
                        if e.FailOne? then HandleDropped else AnswerOf(s.pc.f, s.pc.result));
  }

  /** The events at which the writer picks a batch up or puts it down. */
  predicate ChangesBatch(e: WriterEvent) {
    e.Stop? || e.Take? || e.Begin? || e.FailOne? || e.AnswerOne? || e.Done? || e.Halt?
  }

  /** Between taking a batch and answering it, the writer keeps the batch and its start. */
  lemma WriterKeepsBatch(c: Config, s: System, s': System, e: WriterEvent)
    requires IsStep(c, s, WriterGoes(e), s') && !ChangesBatch(e)
    ensures && s'.pending == s.pending && PcBatch(s'.pc) == PcBatch(s.pc) && PcBegan(s'.pc) == PcBegan(s.pc)
            && PcWaiters(s'.pc) == PcWaiters(s.pc) && s'.pc.Failing? == s.pc.Failing?
            && (s'.pc.Answering? ==> s'.pc.left <= s'.pc.f.batch.waiters)
  {
    hide CacheAfter, HistoryAfter, StreakAfter, LimiterAfter, WakingAfter, UsersAfter, IsMerge, TimerFires, MayRebootstrap, BackoffOver, IsEmptyBatch;
  }

  lemma WriterKeepsRecords(c: Config, s: System, s': System, e: WriterEvent)
    requires IsStep(c, s, WriterGoes(e), s') && PassesFenced(s) && !e.FailOne? && !e.AnswerOne?
    ensures && s'.tick == s.tick + 1 && s'.closed == s.closed
            && s'.h.log == s.h.log && s'.h.queued == s.h.queued && s'.h.cancelled == s.h.cancelled
            && PassesGrow(s, s') && s.h.applied.Keys <= s'.h.applied.Keys
  {
    hide CacheAfter, PcAfter, PendingAfter, StreakAfter, LimiterAfter, WakingAfter, UsersAfter, BuiltBy, IsMerge;
  }

  lemma WriterHandsOver(c: Config, s: System, s': System, e: WriterEvent)
    requires IsStep(c, s, WriterGoes(e), s') && WaitersPlaced(s) && PassesFenced(s)
    requires !e.FailOne? && !e.AnswerOne?
    ensures Handover(s, s')
  {
    hide CacheAfter, HistoryAfter, StreakAfter, LimiterAfter, WakingAfter, UsersAfter, IsMerge, TimerFires, MayRebootstrap, BackoffOver, IsEmptyBatch;
    WriterKeepsRecords(c, s, s', e);
    if !ChangesBatch(e) {
      WriterKeepsBatch(c, s, s', e);
    }
  }

  /** A batch that is picked up or put down stays covered. */
  lemma ChangeKeepsCover(c: Config, s: System, s': System, e: WriterEvent)
    requires IsStep(c, s, WriterGoes(e), s') && WaitersCovered(s) && WaitersPlaced(s) && PassesFenced(s)
    requires ChangesBatch(e) && !e.FailOne? && !e.AnswerOne?
    ensures WaitersCovered(s')
  {
    hide CacheAfter, HistoryAfter, StreakAfter, LimiterAfter, WakingAfter, UsersAfter, BackoffOver, Answered;
    WriterKeepsRecords(c, s, s', e);
  }

  lemma WriterKeepsCover(c: Config, s: System, s': System, e: WriterEvent)
    requires IsStep(c, s, WriterGoes(e), s') && WaitersCovered(s) && WaitersPlaced(s) && PassesFenced(s)
    requires !e.FailOne? && !e.AnswerOne?
    ensures WaitersCovered(s')
  {
    hide Step, WriterEnabled;
    if ChangesBatch(e) {
      ChangeKeepsCover(c, s, s', e);
    } else {
      WriterKeepsRecords(c, s, s', e);
      WriterKeepsBatch(c, s, s', e);
    }
  }

  lemma WriterKeepsWaiters(c: Config, s: System, s': System, e: WriterEvent)
    requires IsStep(c, s, WriterGoes(e), s') && WaiterInv(s) && ProvenanceInv(s)
    ensures WaiterInv(s')
  {
    hide Step;
    if e.FailOne? || e.AnswerOne? {
      DeliveryKeepsWaiters(c, s, s', e);
    } else {
      WriterHandsOver(c, s, s', e);
      HandoverKeepsWaiters(s, s');
      WriterKeepsCover(c, s, s', e);
    }
  }

  /**
   Over every run: no waiter is answered twice or lost, and every answer comes
   from a fetch that began after the request was queued and covers it; an `Ok`
   means that fetch's response was applied.
   */
  lemma {:induction false} WaitersAreServed(c: Config, states: seq<System>, events: seq<Event>, i: nat)
    requires IsRun(c, states, events) && i < |states|
    ensures WaiterInv(states[i])
  {
    hide IsStep;
    if i > 0 {
      WaitersAreServed(c, states, events, i - 1);
      SnapshotIsTraced(c, states, events, i - 1);
      var e := events[i - 1];
      assert IsStep(c, states[i - 1], e, states[i]);
      if e.WriterGoes? {
        WriterKeepsWaiters(c, states[i - 1], states[i], e.go);
      } else {
        EnvKeepsWaiters(c, states[i - 1], states[i], e);
      }
    }
  }
}
