/**
 Statements about whole runs of the metadata protocol, in terms of the events
 of the run.
 */
module MetadataRuns {
  import opened Wrappers
  import opened MetadataTypes
  import opened MetadataMerge
  import opened MetadataMergeLaws
  import opened MetadataHint
  import opened MetadataProtocol
  import opened MetadataSafety

  /** The event publishes an empty snapshot. */
  predicate IsResetWrite(e: Event) {
    e.UserWrites? || e == WriterGoes(ResetWrite)
  }

  // ---- the bookkeeping stands for events ----

  lemma {:induction false} TickIsIndex(c: Config, states: seq<System>, events: seq<Event>, i: nat)
    requires IsRun(c, states, events) && i < |states|
    ensures states[i].tick == i
  {
    hide IsStep;
    if i > 0 {
      TickIsIndex(c, states, events, i - 1);
      StepRecords(c, states[i - 1], states[i], events[i - 1]);
    }
  }

  /** At `p` a pass of the writer's loop reads the reset epoch. */
  ghost predicate PassAt(states: seq<System>, events: seq<Event>, p: nat, id: nat, info: PassInfo)
    requires |states| == |events| + 1
  {
    && p < |events| && events[p] == WriterGoes(BeginPass) && states[p].h.nextPass == id
    && info.began == p + 1 && info.epoch == states[p].cache.resetEpoch
    && states[p].pc.Pass? && info.topics == BatchTopics(states[p].pc.f.batch)
  }

  lemma {:induction false} PassHappened(c: Config, states: seq<System>, events: seq<Event>, i: nat, id: nat)
    requires IsRun(c, states, events) && i < |states| && id in states[i].h.passes
    ensures states[i].h.passes[id].began <= i
    ensures states[i].h.passes[id].began > 0
    ensures PassAt(states, events, states[i].h.passes[id].began - 1, id, states[i].h.passes[id])
  {
    hide IsStep, Traced;
    if i > 0 {
      SnapshotIsTraced(c, states, events, i - 1);
      TickIsIndex(c, states, events, i - 1);
      assert IsStep(c, states[i - 1], events[i - 1], states[i]);
      StepPasses(c, states[i - 1], states[i], events[i - 1]);
      if id in states[i - 1].h.passes {
        PassHappened(c, states, events, i - 1, id);
      }
    }
  }

  /** At `q` the response of pass `id` is merged into the snapshot. */
  ghost predicate AppliedAt(c: Config, states: seq<System>, events: seq<Event>, q: nat, id: nat)
    requires |states| == |events| + 1
  {
    && q < |events| && events[q].WriterGoes? && events[q].go.Apply?
    && states[q].pc.Cleared? && states[q].pc.id == id
    && states[q].pc.epoch == states[q].cache.resetEpoch
    && IsMerge(states[q].cache, states[q].pc.r,
               MergeArgs(states[q].pc.f.batch.full, c.ttl, states[q].time, events[q].go.nowMs), states[q + 1].cache)
  }

  lemma AppliesNow(c: Config, states: seq<System>, events: seq<Event>, q: nat)
    requires IsRun(c, states, events) && q < |events| && Applies(states[q], events[q])
    ensures AppliedAt(c, states, events, q, states[q].pc.id)
  {
    hide PcAfter, PendingAfter, StreakAfter, LimiterAfter, WakingAfter, UsersAfter, HistoryAfter, IsMerge;
    assert IsStep(c, states[q], events[q], states[q + 1]);
  }

  lemma {:induction false} ApplyHappened(c: Config, states: seq<System>, events: seq<Event>, i: nat, id: nat)
    returns (q: nat)
    requires IsRun(c, states, events) && i < |states| && id in states[i].h.applied
    ensures q < i && AppliedAt(c, states, events, q, id) && states[q].pc.r == states[i].h.applied[id]
    ensures id in states[q].h.passes && id in states[i].h.passes
    ensures states[q].h.passes[id] == states[i].h.passes[id]
  {
    hide IsStep, Traced, IsMerge, AppliedAt;
    SnapshotIsTraced(c, states, events, i - 1);
    assert IsStep(c, states[i - 1], events[i - 1], states[i]);
    StepPasses(c, states[i - 1], states[i], events[i - 1]);
    if id in states[i - 1].h.applied && states[i].h.applied[id] == states[i - 1].h.applied[id] {
      q := ApplyHappened(c, states, events, i - 1, id);
    } else {
      q := i - 1;
      AppliesNow(c, states, events, q);
    }
  }

  lemma WriterRecords(c: Config, s: System, s': System, e: WriterEvent)
    requires IsStep(c, s, WriterGoes(e), s')
    ensures s'.tick == s.tick + 1 && s'.h.queued == s.h.queued
    ensures s'.h.lastReset == if e.ResetWrite? then s.tick + 1 else s.h.lastReset
  {
    hide CacheAfter, PendingAfter, PcAfter, StreakAfter, LimiterAfter, WakingAfter, UsersAfter, BuiltBy, IsMerge;
  }

  lemma EnvRecords(c: Config, s: System, s': System, e: Event)
    requires !e.WriterGoes? && IsStep(c, s, e, s')
    ensures s'.tick == s.tick + 1
    ensures s'.h.lastReset == if e.UserWrites? then s.tick + 1 else s.h.lastReset
    ensures s'.h.queued == if e.Queue? then s.h.queued[e.w := Queued(e.want, s.tick + 1)] else s.h.queued
  {
    hide CacheAfter, PendingAfter, PcAfter, StreakAfter, LimiterAfter, WakingAfter, UsersAfter, EndpointIsNew;
  }

  /** Which events the bookkeeping of requests and resets records. */
  lemma StepRecords(c: Config, s: System, s': System, e: Event)
    requires IsStep(c, s, e, s')
    ensures s'.tick == s.tick + 1
    ensures s'.h.lastReset == if IsResetWrite(e) then s.tick + 1 else s.h.lastReset
    ensures s'.h.queued == if e.Queue? then s.h.queued[e.w := Queued(e.want, s.tick + 1)] else s.h.queued
  {
    hide IsStep;
    if e.WriterGoes? {
      WriterRecords(c, s, s', e.go);
    } else {
      EnvRecords(c, s, s', e);
    }
  }

  lemma {:induction false} NoResetSince(c: Config, states: seq<System>, events: seq<Event>, i: nat)
    requires IsRun(c, states, events) && i < |states|
    ensures states[i].h.lastReset <= i
    ensures forall j :: states[i].h.lastReset <= j < i ==> !IsResetWrite(events[j])
  {
    hide IsStep;
    if i > 0 {
      NoResetSince(c, states, events, i - 1);
      TickIsIndex(c, states, events, i - 1);
      StepRecords(c, states[i - 1], states[i], events[i - 1]);
    }
  }

  lemma {:induction false} QueueHappened(c: Config, states: seq<System>, events: seq<Event>, i: nat, w: nat)
    requires IsRun(c, states, events) && i < |states| && w in states[i].h.queued
    ensures var q := states[i].h.queued[w];
            0 < q.at <= i && events[q.at - 1] == Queue(w, q.want)
  {
    hide IsStep;
    if i > 0 {
      TickIsIndex(c, states, events, i - 1);
      StepRecords(c, states[i - 1], states[i], events[i - 1]);
      if w in states[i - 1].h.queued && states[i].h.queued[w] == states[i - 1].h.queued[w] {
        QueueHappened(c, states, events, i - 1, w);
      }
    }
  }

  // ---- provenance ----

  /**
   Every cached topic was described by a response merged at `q`, fetched by a
   pass that read the reset epoch at `p`; no rebootstrap was written from `p`
   on.
   */
  lemma TopicsAreCurrent(c: Config, states: seq<System>, events: seq<Event>, i: nat, name: string)
    returns (p: nat, q: nat)
    requires IsRun(c, states, events) && i < |states| && name in states[i].cache.topics
    ensures p < q < i
    ensures events[p] == WriterGoes(BeginPass)
    ensures AppliedAt(c, states, events, q, states[p].h.nextPass)
    ensures Described(states[q].pc.r, name, states[i].cache.topics[name])
    ensures forall j :: p <= j < i ==> !IsResetWrite(events[j])
  {
    SnapshotIsTraced(c, states, events, i);
    assert TopicTraced(states[i], name);
    p, q := CurrentFetchHappened(c, states, events, i, states[i].h.topicFrom[name]);
  }

  lemma CurrentFetchHappened(c: Config, states: seq<System>, events: seq<Event>, i: nat, id: nat)
    returns (p: nat, q: nat)
    requires IsRun(c, states, events) && i < |states|
    requires CurrentFetch(states[i], id)
    ensures p < q < i && PassAt(states, events, p, id, states[i].h.passes[id])
    ensures AppliedAt(c, states, events, q, id) && states[q].pc.r == states[i].h.applied[id]
    ensures forall j :: p <= j < i ==> !IsResetWrite(events[j])
  {
    hide IsStep, Traced, PcOk, IsMerge;
    PassHappened(c, states, events, i, id);
    p := states[i].h.passes[id].began - 1;
    q := ApplyHappened(c, states, events, i, id);
    SnapshotIsTraced(c, states, events, q);
    TickIsIndex(c, states, events, q);
    NoResetSince(c, states, events, i);
  }

  /** Every cached broker is listed by such a response, or was registered by a later hint with no rebootstrap since. */
  lemma BrokersAreCurrent(c: Config, states: seq<System>, events: seq<Event>, i: nat, id: int)
    returns (p: nat, q: nat)
    requires IsRun(c, states, events) && i < |states| && id in states[i].cache.brokers
    ensures p <= q < i
    ensures forall j :: p <= j < i ==> !IsResetWrite(events[j])
    ensures
      || (&& p < q && events[p] == WriterGoes(BeginPass)
          && AppliedAt(c, states, events, q, states[p].h.nextPass)
          && LastBroker(states[q].pc.r.brokers, id) == Some(states[i].cache.brokers[id]))
      || (p == q && events[q].LeaderHint? && events[q].hint.endpoint == Some(states[i].cache.brokers[id]))
  {
    SnapshotIsTraced(c, states, events, i);
    assert BrokerTraced(states[i], id);
    match states[i].h.brokerFrom[id] {
      case FromFetch(f) =>
        p, q := CurrentFetchHappened(c, states, events, i, f);
      case FromHint(at) =>
        TickIsIndex(c, states, events, i);
        NoResetSince(c, states, events, i);
        HintHappened(c, states, events, i, id);
        p, q := at - 1, at - 1;
    }
  }

  lemma {:induction false} HintHappened(c: Config, states: seq<System>, events: seq<Event>, i: nat, id: int)
    requires IsRun(c, states, events) && i < |states|
    requires id in states[i].cache.brokers && id in states[i].h.brokerFrom && states[i].h.brokerFrom[id].FromHint?
    ensures var at := states[i].h.brokerFrom[id].at;
            && 0 < at <= i && events[at - 1].LeaderHint?
            && events[at - 1].hint.endpoint == Some(states[i].cache.brokers[id])
  {
    hide IsStep;
    if i > 0 {
      TickIsIndex(c, states, events, i - 1);
      var e := events[i - 1];
      assert IsStep(c, states[i - 1], e, states[i]);
      if e.WriterGoes? {
        WriterBroker(c, states[i - 1], states[i], e.go, id);
      } else {
        EnvBroker(c, states[i - 1], states[i], e, id);
      }
      if SameBroker(states[i - 1], states[i], id) {
        HintHappened(c, states, events, i - 1, id);
      }
    }
  }

  /** The step keeps the broker and its provenance. */
  ghost predicate SameBroker(s: System, s': System, id: int)
    requires id in s'.cache.brokers && id in s'.h.brokerFrom
  {
    && id in s.cache.brokers && s.cache.brokers[id] == s'.cache.brokers[id]
    && id in s.h.brokerFrom && s.h.brokerFrom[id] == s'.h.brokerFrom[id]
  }

  lemma EnvBroker(c: Config, s: System, s': System, e: Event, id: int)
    requires !e.WriterGoes? && IsStep(c, s, e, s')
    requires id in s'.cache.brokers && id in s'.h.brokerFrom && s'.h.brokerFrom[id].FromHint?
    ensures || SameBroker(s, s', id)
            || (e.LeaderHint? && s'.h.brokerFrom[id].at == s.tick + 1 && e.hint.endpoint == Some(s'.cache.brokers[id]))
  {
    hide PendingAfter, PcAfter, StreakAfter, LimiterAfter, WakingAfter, UsersAfter;
  }

  lemma WriterBroker(c: Config, s: System, s': System, e: WriterEvent, id: int)
    requires IsStep(c, s, WriterGoes(e), s')
    requires id in s'.cache.brokers && id in s'.h.brokerFrom && s'.h.brokerFrom[id].FromHint?
    ensures SameBroker(s, s', id)
  {
    hide PendingAfter, PcAfter, StreakAfter, LimiterAfter, WakingAfter, UsersAfter, BuiltBy, IsMerge;
    if !(e.Apply? && s.cache.resetEpoch == s.pc.epoch) && !e.ResetWrite? {
      assert s'.cache == s.cache;
      assert s'.h.brokerFrom == s.h.brokerFrom;
    }
  }

  // ---- answers ----

  /**
   An `Ok` answer: the request was queued at `a`, then a pass covering it read
   the reset epoch at `p`, then that pass's response was merged at `q`.
   */
  lemma OkMeansApplied(c: Config, states: seq<System>, events: seq<Event>, i: nat, k: nat)
    returns (a: nat, p: nat, q: nat)
    requires IsRun(c, states, events) && i < |states|
    requires k < |states[i].h.log| && states[i].h.log[k].answer.FetchApplied?
    ensures a < p < q < i
    ensures events[p] == WriterGoes(BeginPass)
    ensures AppliedAt(c, states, events, q, states[p].h.nextPass)
    ensures events[a].Queue? && events[a].w == states[i].h.log[k].waiter
    ensures states[q].pc.f.batch.full || (events[a].want.Some? && events[a].want.value <= states[q].pc.f.batch.topics)
  {
    hide IsStep, IsMerge, WaitersPlaced, WaitersCovered, Traced;
    var entry := states[i].h.log[k];
    WaitersAreServed(c, states, events, i);
    assert AnswerOk(states[i], entry);
    QueueHappened(c, states, events, i, entry.waiter);
    a := states[i].h.queued[entry.waiter].at - 1;
    PassHappened(c, states, events, i, entry.answer.id);
    p := states[i].h.passes[entry.answer.id].began - 1;
    q := ApplyHappened(c, states, events, i, entry.answer.id);
    SnapshotIsTraced(c, states, events, q);
    TickIsIndex(c, states, events, q);
  }

  // ---- generation ----

  /** The snapshots differ at most in when topics were last used. */
  ghost predicate SameUpToUse(s: Snapshot, t: Snapshot) {
    && s == t.(stamps := s.stamps)
    && s.stamps.Keys == t.stamps.Keys
    && forall n :: n in s.stamps ==> s.stamps[n].refreshed == t.stamps[n].refreshed
  }

  lemma StepGeneration(c: Config, s: System, e: Event, s': System)
    requires IsStep(c, s, e, s')
    ensures || s'.cache.generation == s.cache.generation + 1
            || (s'.cache.generation == s.cache.generation && SameUpToUse(s.cache, s'.cache))
  {
    hide PendingAfter, PcAfter, StreakAfter, LimiterAfter, WakingAfter, UsersAfter, HistoryAfter;
    if e.WriterGoes? {
      WriterGeneration(c, s, s', e.go);
    }
  }

  lemma WriterGeneration(c: Config, s: System, s': System, e: WriterEvent)
    requires IsStep(c, s, WriterGoes(e), s')
    ensures s'.cache == s.cache || s'.cache.generation == s.cache.generation + 1
  {
    hide PendingAfter, PcAfter, StreakAfter, LimiterAfter, WakingAfter, UsersAfter, HistoryAfter;
  }

  /** The generation versions the snapshot: it never falls, and two equal ones mean the same snapshot. */
  lemma {:induction false} GenerationVersions(c: Config, states: seq<System>, events: seq<Event>, i: nat, j: nat)
    requires IsRun(c, states, events) && i <= j < |states|
    ensures states[i].cache.generation <= states[j].cache.generation
    ensures states[i].cache.generation == states[j].cache.generation ==>
              SameUpToUse(states[i].cache, states[j].cache)
    decreases j - i
  {
    hide IsStep;
    if i < j {
      GenerationVersions(c, states, events, i, j - 1);
      assert IsStep(c, states[j - 1], events[j - 1], states[j]);
      StepGeneration(c, states[j - 1], events[j - 1], states[j]);
    }
  }

  // ---- leader epochs ----

  lemma StepEpochs(c: Config, s: System, e: Event, s': System, topic: string, partition: int)
    requires IsStep(c, s, e, s')
    ensures EpochKeptOrLost(s.cache, s'.cache, topic, partition)
  {
    hide PendingAfter, PcAfter, StreakAfter, LimiterAfter, WakingAfter, UsersAfter, HistoryAfter;
    if e.LeaderHint? && ApplyHint(s.cache, e.hint).Some? {
      HintRaisesEpochs(s.cache, e.hint, s'.cache, topic, partition);
    } else if e.WriterGoes? {
      WriterEpochs(c, s, s', e.go, topic, partition);
    } else {
      assert s'.cache.topics == s.cache.topics || s'.cache.topics == map[];
    }
  }

  lemma WriterEpochs(c: Config, s: System, s': System, e: WriterEvent, topic: string, partition: int)
    requires IsStep(c, s, WriterGoes(e), s')
    ensures EpochKeptOrLost(s.cache, s'.cache, topic, partition)
  {
    hide PendingAfter, PcAfter, StreakAfter, LimiterAfter, WakingAfter, UsersAfter, HistoryAfter;
    if e.Apply? && s.cache.resetEpoch == s.pc.epoch {
      MergeKeepsEpochs(s.cache, s.pc.r, MergeArgsOf(c, s, s.pc.f, e.nowMs), s'.cache, topic, partition);
    } else {
      assert s'.cache.topics == s.cache.topics || s'.cache.topics == map[];
    }
  }

  /**
   Along any run a partition's known leader epoch does not decrease while every
   snapshot in between knows it and the topic is not re-created.
   */
  lemma {:induction false} EpochsNeverFall(c: Config, states: seq<System>, events: seq<Event>, i: nat, j: nat,
                                           topic: string, partition: int)
    requires IsRun(c, states, events) && i <= j < |states|
    requires forall k :: i <= k <= j ==> EpochAt(states[k].cache, topic, partition) >= 0
    requires forall k :: i <= k < j ==> !Recreated(states[k].cache, states[k + 1].cache, topic)
    ensures EpochAt(states[i].cache, topic, partition) <= EpochAt(states[j].cache, topic, partition)
    decreases j - i
  {
    hide IsStep;
    if i < j {
      EpochsNeverFall(c, states, events, i, j - 1, topic, partition);
      assert IsStep(c, states[j - 1], events[j - 1], states[j]);
      StepEpochs(c, states[j - 1], events[j - 1], states[j], topic, partition);
      assert !Recreated(states[j - 1].cache, states[j - 1 + 1].cache, topic);
    }
  }

  // ---- well-formed snapshots ----

  /** The event merges a response that describes some topic and later denies it. */
  ghost predicate OrphaningMerge(s: System, e: Event) {
    && e.WriterGoes? && e.go.Apply? && s.pc.Cleared? && s.pc.epoch == s.cache.resetEpoch
    && exists name :: Orphans(s.cache, s.pc.r.topics, name)
  }

  lemma EnvKeepsSound(c: Config, s: System, s': System, e: Event)
    requires !e.WriterGoes? && IsStep(c, s, e, s') && Sound(s.cache)
    ensures Sound(s'.cache)
    ensures StampsCoverTopics(s.cache) ==> StampsCoverTopics(s'.cache)
  {
    hide PendingAfter, PcAfter, StreakAfter, LimiterAfter, WakingAfter, UsersAfter, HistoryAfter;
    if e.LeaderHint? && ApplyHint(s.cache, e.hint).Some? {
      HintKeepsSound(s.cache, e.hint, ApplyHint(s.cache, e.hint).value);
    }
  }

  lemma WriterKeepsSound(c: Config, s: System, s': System, e: WriterEvent)
    requires IsStep(c, s, WriterGoes(e), s') && Sound(s.cache)
    ensures Sound(s'.cache)
    ensures OrphaningMerge(s, WriterGoes(e)) ==> !WellFormed(s'.cache)
    ensures !OrphaningMerge(s, WriterGoes(e)) && StampsCoverTopics(s.cache) ==>
              WellFormed(s'.cache)
  {
    hide PendingAfter, PcAfter, StreakAfter, LimiterAfter, WakingAfter, UsersAfter, HistoryAfter, IsMerge, Orphans, IdsIndexed, TopicsOk;
    if e.Apply? && s.cache.resetEpoch == s.pc.epoch {
      MergeKeepsSound(s.cache, s.pc.r, MergeArgsOf(c, s, s.pc.f, e.nowMs), s'.cache);
    } else if e.ResetWrite? {
      ResetIsWellFormed(s.cache, s.time);
    } else {
      assert s'.cache == s.cache;
    }
  }

  lemma ResetIsWellFormed(cur: Snapshot, now: nat)
    ensures WellFormed(ResetSnapshot(cur, now))
  {
  }

  /** Whatever the brokers answer, every snapshot of every run is sound. */
  lemma {:induction false} SnapshotsSound(c: Config, states: seq<System>, events: seq<Event>, i: nat)
    requires IsRun(c, states, events) && i < |states|
    ensures Sound(states[i].cache)
  {
    hide Sound, IsStep;
    if i == 0 {
      InitialIsWellFormed(states[0].time);
    } else {
      SnapshotsSound(c, states, events, i - 1);
      StepKeepsSound(c, states[i - 1], events[i - 1], states[i]);
    }
  }

  lemma InitialIsWellFormed(time: nat)
    ensures Sound(Initial(time).cache) && WellFormed(Initial(time).cache)
  {
  }

  lemma StepKeepsSound(c: Config, s: System, e: Event, s': System)
    requires IsStep(c, s, e, s') && Sound(s.cache)
    ensures Sound(s'.cache)
    ensures OrphaningMerge(s, e) ==> !WellFormed(s'.cache)
    ensures !OrphaningMerge(s, e) && WellFormed(s.cache) ==> WellFormed(s'.cache)
  {
    hide Sound, Step;
    if e.WriterGoes? {
      WriterKeepsSound(c, s, s', e.go);
    } else {
      EnvKeepsSound(c, s, s', e);
    }
  }

  lemma {:induction false} NoOrphanNoStray(c: Config, states: seq<System>, events: seq<Event>, i: nat)
    requires IsRun(c, states, events) && i < |states|
    requires forall q :: 0 <= q < |events| ==> !OrphaningMerge(states[q], events[q])
    ensures WellFormed(states[i].cache)
  {
    hide Sound, IsStep, WellFormed;
    if i == 0 {
      InitialIsWellFormed(states[0].time);
    } else {
      NoOrphanNoStray(c, states, events, i - 1);
      SnapshotsSound(c, states, events, i - 1);
      StepKeepsSound(c, states[i - 1], events[i - 1], states[i]);
    }
  }

  /** Every snapshot of a run is well formed exactly when no merge of the run orphans a name. */
  lemma WellFormedIsExact(c: Config, states: seq<System>, events: seq<Event>)
    requires IsRun(c, states, events)
    ensures (forall i :: 0 <= i < |states| ==> WellFormed(states[i].cache)) <==>
            (forall q :: 0 <= q < |events| ==> !OrphaningMerge(states[q], events[q]))
  {
    hide Sound, IsStep, WellFormed, OrphaningMerge;
    if q :| 0 <= q < |events| && OrphaningMerge(states[q], events[q]) {
      SnapshotsSound(c, states, events, q);
      assert IsStep(c, states[q], events[q], states[q + 1]);
      StepKeepsSound(c, states[q], events[q], states[q + 1]);
      assert !WellFormed(states[q + 1].cache);
    } else {
      forall i: nat | i < |states| ensures WellFormed(states[i].cache) {
        NoOrphanNoStray(c, states, events, i);
      }
    }
  }

  /** Every response received names a topic at most once. */
  ghost predicate NamesOnce(events: seq<Event>) {
    forall i :: 0 <= i < |events| ==> NamesOnceEvent(events[i])
  }

  ghost predicate NamesOnceEvent(e: Event) {
    e.WriterGoes? && e.go.Receive? ==> DistinctNames(e.go.r.topics)
  }

  ghost predicate HeldResponseDistinct(pc: Pc) {
    match pc
    case Received(_, _, _, r) => DistinctNames(r.topics)
    case Cleared(_, _, _, r) => DistinctNames(r.topics)
    case _ => true
  }

  lemma WriterHolds(c: Config, s: System, s': System, e: WriterEvent)
    requires IsStep(c, s, WriterGoes(e), s') && NamesOnceEvent(WriterGoes(e)) && HeldResponseDistinct(s.pc)
    ensures HeldResponseDistinct(s'.pc)
  {
    hide CacheAfter, PendingAfter, StreakAfter, LimiterAfter, WakingAfter, UsersAfter, HistoryAfter, IsMerge, DistinctNames;
  }

  lemma EnvKeepsPc(c: Config, s: System, s': System, e: Event)
    requires !e.WriterGoes? && IsStep(c, s, e, s')
    ensures s'.pc == s.pc
  {
    hide CacheAfter, PendingAfter, StreakAfter, LimiterAfter, WakingAfter, UsersAfter, HistoryAfter;
  }

  lemma {:induction false} HeldIsDistinct(c: Config, states: seq<System>, events: seq<Event>, i: nat)
    requires IsRun(c, states, events) && i < |states| && NamesOnce(events)
    ensures HeldResponseDistinct(states[i].pc)
  {
    if i > 0 {
      hide Step, HeldResponseDistinct;
      HeldIsDistinct(c, states, events, i - 1);
      assert IsStep(c, states[i - 1], events[i - 1], states[i]);
      assert NamesOnceEvent(events[i - 1]);
      if events[i - 1].WriterGoes? {
        WriterHolds(c, states[i - 1], states[i], events[i - 1].go);
      } else {
        EnvKeepsPc(c, states[i - 1], states[i], events[i - 1]);
      }
    }
  }

  /** In particular, brokers that name each topic at most once keep every snapshot well formed. */
  lemma SnapshotsWellFormed(c: Config, states: seq<System>, events: seq<Event>, i: nat)
    requires IsRun(c, states, events) && i < |states| && NamesOnce(events)
    ensures WellFormed(states[i].cache)
  {
    hide Step, WellFormed, Orphans;
    forall q | 0 <= q < |events| ensures !OrphaningMerge(states[q], events[q]) {
      HeldIsDistinct(c, states, events, q);
      if states[q].pc.Cleared? {
        forall name ensures !Orphans(states[q].cache, states[q].pc.r.topics, name) {
          DistinctNeverOrphans(states[q].cache, states[q].pc.r.topics, name);
        }
      }
    }
    NoOrphanNoStray(c, states, events, i);
  }
}
