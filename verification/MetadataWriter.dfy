/**
 What the writer's decisions come to over a run: which responses are merged and
 what they leave, when it rebootstraps, what a fetch asks for, and what a failed
 fetch means.
 */
module MetadataWriter {
  import opened Wrappers
  import opened MetadataTypes
  import opened MetadataMerge
  import opened MetadataMergeLaws
  import opened MetadataHint
  import opened MetadataProtocol
  import opened MetadataSafety
  import opened MetadataBounds
  import opened MetadataRuns

  // ---- which responses are merged ----

  /** At `q` the writer merges the response it holds. */
  ghost predicate MergesAt(states: seq<System>, events: seq<Event>, q: nat)
    requires |states| == |events| + 1
  {
    && q < |events| && events[q].WriterGoes? && events[q].go.Apply?
    && states[q].pc.Cleared? && states[q].pc.epoch == states[q].cache.resetEpoch
  }

  /** The response the writer holds, with the call, the pass and the reset epoch it belongs to. */
  function Held(pc: Pc): Option<(Fetch, nat, nat, Response)> {
    match pc
    case Received(f, id, epoch, r) => Some((f, id, epoch, r))
    case Cleared(f, id, epoch, r) => Some((f, id, epoch, r))
    case _ => None
  }

  lemma WriterHoldsReceived(c: Config, s: System, s': System, e: WriterEvent)
    requires IsStep(c, s, WriterGoes(e), s') && Held(s'.pc).Some?
    ensures || Held(s.pc) == Held(s'.pc)
            || (&& e.Receive? && e.r.errorCode == NO_ERROR && s.pc.InFlight?
                && Held(s'.pc) == Some((s.pc.f, s.pc.id, s.pc.epoch, e.r)))
  {
    hide CacheAfter, PendingAfter, StreakAfter, LimiterAfter, WakingAfter, UsersAfter, HistoryAfter, IsMerge;
  }

  /** A response in the writer's hands was received without error by the pass it is held for. */
  lemma {:induction false} HeldWasReceived(c: Config, states: seq<System>, events: seq<Event>, i: nat) returns (p: nat)
    requires IsRun(c, states, events) && i < |states| && Held(states[i].pc).Some?
    ensures p < i && states[p].pc.InFlight?
    ensures Held(states[i].pc).value.3.errorCode == NO_ERROR
    ensures events[p] == WriterGoes(Receive(Held(states[i].pc).value.3))
    ensures Held(states[i].pc).value == (states[p].pc.f, states[p].pc.id, states[p].pc.epoch, Held(states[i].pc).value.3)
  {
    hide IsStep;
    assert IsStep(c, states[i - 1], events[i - 1], states[i]);
    p := i - 1;
    if events[i - 1].WriterGoes? {
      WriterHoldsReceived(c, states[i - 1], states[i], events[i - 1].go);
    } else {
      EnvKeepsPc(c, states[i - 1], states[i], events[i - 1]);
    }
    if Held(states[i - 1].pc) == Held(states[i].pc) {
      p := HeldWasReceived(c, states, events, i - 1);
    }
  }

  lemma MergeIsMerge(c: Config, states: seq<System>, events: seq<Event>, q: nat)
    requires IsRun(c, states, events) && MergesAt(states, events, q)
    ensures IsMerge(states[q].cache, states[q].pc.r,
                    MergeArgs(states[q].pc.f.batch.full, c.ttl, states[q].time, events[q].go.nowMs), states[q + 1].cache)
  {
    hide IsMerge;
    AppliesNow(c, states, events, q);
  }

  /**
   What a merge of the run leaves of a name its response does not mention. A
   fetch of every topic leaves none. A fetch by name leaves it exactly as it
   was, unless a TTL is set and both its last fetch and its last use are longer
   ago. The response itself was received without error.
   */
  lemma MergeSparesUnnamed(c: Config, states: seq<System>, events: seq<Event>, q: nat, name: string)
    requires IsRun(c, states, events) && MergesAt(states, events, q)
    requires forall k :: 0 <= k < |states[q].pc.r.topics| ==> states[q].pc.r.topics[k].name != Some(name)
    ensures states[q].pc.r.errorCode == NO_ERROR
    ensures states[q].pc.f.batch.full ==> name !in states[q + 1].cache.topics
    ensures !states[q].pc.f.batch.full && c.ttl.None? ==>
              Lookup(states[q + 1].cache.topics, name) == Lookup(states[q].cache.topics, name)
    ensures !states[q].pc.f.batch.full && c.ttl.Some? ==>
              (name in states[q + 1].cache.topics <==>
                 && name in states[q].cache.topics && name in states[q].cache.stamps
                 && var stamp := states[q].cache.stamps[name];
                    (|| states[q].time <= stamp.refreshed + c.ttl.value
                     || (stamp.lastUsedMs != 0 && events[q].go.nowMs <= stamp.lastUsedMs + c.ttl.value / 1_000_000)))
    ensures name in states[q + 1].cache.topics ==>
              && Lookup(states[q].cache.topics, name) == Some(states[q + 1].cache.topics[name])
              && Lookup(states[q + 1].cache.stamps, name) == Lookup(states[q].cache.stamps, name)
  {
    hide IsMerge, IsStep;
    var _ := HeldWasReceived(c, states, events, q);
    MergeIsMerge(c, states, events, q);
    var a := MergeArgs(states[q].pc.f.batch.full, c.ttl, states[q].time, events[q].go.nowMs);
    MergeEvicts(states[q].cache, states[q].pc.r, a, states[q + 1].cache, name);
    SnapshotsSound(c, states, events, q + 1);
  }

  // ---- topics in use ----

  /** Marking a topic as in use renews its last use, and changes nothing else. */
  lemma TouchMarksUse(c: Config, states: seq<System>, events: seq<Event>, i: nat, name: string, nowMs: nat)
    requires IsRun(c, states, events) && i < |events| && events[i] == Touch(name, nowMs)
    ensures name in states[i].cache.stamps && states[i + 1].cache == states[i].cache.(stamps := states[i + 1].cache.stamps)
    ensures states[i + 1].cache.stamps ==
            states[i].cache.stamps[name := TopicStamp(states[i].cache.stamps[name].refreshed, nowMs)]
  {
    hide PcAfter, PendingAfter, StreakAfter, LimiterAfter, WakingAfter, UsersAfter, HistoryAfter;
    assert IsStep(c, states[i], events[i], states[i + 1]);
  }

  /** The event neither uses the topic nor replaces the snapshot. */
  ghost predicate LeavesStamp(s: System, e: Event, name: string) {
    !(e.Touch? && e.name == name) && !IsResetWrite(e) && !Applies(s, e)
  }

  lemma StepKeepsStamp(c: Config, s: System, s': System, e: Event, name: string)
    requires IsStep(c, s, e, s') && LeavesStamp(s, e, name)
    ensures Lookup(s'.cache.stamps, name) == Lookup(s.cache.stamps, name)
    ensures name in s'.cache.topics <==> name in s.cache.topics
  {
    hide PcAfter, PendingAfter, StreakAfter, LimiterAfter, WakingAfter, UsersAfter, HistoryAfter;
    if e.LeaderHint? && ApplyHint(s.cache, e.hint).Some? {
      HintFrame(s.cache, e.hint, s'.cache);
    }
  }

  lemma {:induction false} StampStays(c: Config, states: seq<System>, events: seq<Event>, i: nat, q: nat, name: string)
    requires IsRun(c, states, events) && i <= q < |states|
    requires forall j :: i <= j < q ==> LeavesStamp(states[j], events[j], name)
    ensures Lookup(states[q].cache.stamps, name) == Lookup(states[i].cache.stamps, name)
    ensures name in states[q].cache.topics <==> name in states[i].cache.topics
    decreases q
  {
    hide IsStep, LeavesStamp;
    if i < q {
      StampStays(c, states, events, i, q - 1, name);
      assert IsStep(c, states[q - 1], events[q - 1], states[q]);
      StepKeepsStamp(c, states[q - 1], states[q], events[q - 1], name);
    }
  }

  /** A topic used at `usedMs` outlives the next merge that was not asked for it, for as long as the TTL from then. */
  lemma UsedTopicSurvives(c: Config, states: seq<System>, events: seq<Event>, i: nat, q: nat, name: string, usedMs: nat)
    requires IsRun(c, states, events) && i < q && MergesAt(states, events, q)
    requires events[i] == Touch(name, usedMs) && usedMs > 0 && name in states[i].cache.topics
    requires forall j :: i < j < q ==> LeavesStamp(states[j], events[j], name)
    requires !states[q].pc.f.batch.full && c.ttl.Some? && events[q].go.nowMs <= usedMs + c.ttl.value / 1_000_000
    requires forall k :: 0 <= k < |states[q].pc.r.topics| ==> states[q].pc.r.topics[k].name != Some(name)
    ensures name in states[q + 1].cache.topics
    ensures Lookup(states[q + 1].cache.topics, name) == Lookup(states[q].cache.topics, name)
  {
    hide IsStep, LeavesStamp;
    TouchMarksUse(c, states, events, i, name, usedMs);
    StampStays(c, states, events, i + 1, q, name);
    MergeSparesUnnamed(c, states, events, q, name);
  }

  // ---- when the writer rebootstraps, and how a call ends ----

  /** The writer has a reason to rebootstrap: it was asked to, the timer is due, nothing answers, or a broker wants it. */
  ghost predicate HasReason(c: Config, s: System, e: WriterEvent) {
    match e
    case Admit => s.pc.Taken? && s.pc.batch.rebootstrap
    case CheckTimer(jitter) =>
      c.rebootstrapEnabled && s.attemptStart.Some? && s.time >= s.attemptStart.value + c.trigger + jitter
    case ConnectFails =>
      s.pc.Connecting? && c.rebootstrapEnabled && !s.pc.f.rebootstrapped && s.cache.brokers != map[]
    case Receive(r) =>
      s.pc.InFlight? && c.rebootstrapEnabled && !s.pc.f.rebootstrapped && r.errorCode == 129
    case _ => false
  }

  lemma WriterResetsWithReason(c: Config, s: System, s': System, e: WriterEvent)
    requires IsStep(c, s, WriterGoes(e), s') && !s.pc.Resetting?
    requires s.attemptStart.Some? ==> s.attemptStart.value <= s.time
    ensures s'.pc.Resetting? <==> HasReason(c, s, e)
  {
    hide CacheAfter, PendingAfter, StreakAfter, LimiterAfter, WakingAfter, UsersAfter, HistoryAfter, IsMerge, Abandoned, BackoffOver;
  }

  /** The failure streak started in the past, and so did every reading that may replace its start. */
  ghost predicate ReadInPast(s: System) {
    && (s.attemptStart.Some? ==> s.attemptStart.value <= s.time)
    && (s.pc.Resetting? && s.pc.phase.Stamped? ==> s.pc.phase.at <= s.time)
    && (forall u :: u in s.users && s.users[u].Stamped? ==> s.users[u].at <= s.time)
  }

  lemma StepReadsPast(c: Config, s: System, s': System, e: Event)
    requires IsStep(c, s, e, s') && ReadInPast(s)
    ensures ReadInPast(s')
  {
    hide CacheAfter, PendingAfter, LimiterAfter, WakingAfter, HistoryAfter, IsMerge, TimerFires, MayRebootstrap, BackoffOver, Abandoned;
  }

  lemma {:induction false} StreakInPast(c: Config, states: seq<System>, events: seq<Event>, i: nat)
    requires IsRun(c, states, events) && i < |states|
    ensures ReadInPast(states[i])
  {
    hide IsStep;
    if i > 0 {
      StreakInPast(c, states, events, i - 1);
      assert IsStep(c, states[i - 1], events[i - 1], states[i]);
      StepReadsPast(c, states[i - 1], states[i], events[i - 1]);
    }
  }

  /** Over every run the writer turns to a rebootstrap exactly when one of the four reasons holds. */
  lemma WriterResetsExactly(c: Config, states: seq<System>, events: seq<Event>, i: nat)
    requires IsRun(c, states, events) && i < |events| && !states[i].pc.Resetting?
    ensures states[i + 1].pc.Resetting? <==> events[i].WriterGoes? && HasReason(c, states[i], events[i].go)
  {
    hide IsStep, HasReason;
    StreakInPast(c, states, events, i);
    assert IsStep(c, states[i], events[i], states[i + 1]);
    if events[i].WriterGoes? {
      WriterResetsWithReason(c, states[i], states[i + 1], events[i].go);
    } else {
      EnvKeepsPc(c, states[i], states[i + 1], events[i]);
    }
  }

  /** The call is over without a merge: passes used up, a send lost, an error answered, or no connection, and no rebootstrap left to try. */
  ghost predicate GivesUp(c: Config, s: System, e: WriterEvent) {
    match e
    case Exhaust => true
    case SendFails => true
    case ConnectFails => !HasReason(c, s, e)
    case Receive(r) => r.errorCode != 0 && !HasReason(c, s, e)
    case _ => false
  }

  lemma WriterEndsCall(c: Config, s: System, s': System, e: WriterEvent)
    requires IsStep(c, s, WriterGoes(e), s') && !s.pc.Finished?
    ensures s'.pc.Finished? && s'.pc.result.Some? <==> e.Apply? && s.pc.Cleared? && s.pc.epoch == s.cache.resetEpoch
    ensures s'.pc.Finished? && s'.pc.result.None? <==> GivesUp(c, s, e)
    ensures s'.pc.Finished? && s'.pc.result.Some? ==> s'.pc.result.value == s.pc.id
    ensures e.Apply? && !s'.pc.Finished? ==> s.pc.Cleared? && s'.pc == Pass(s.pc.f)
  {
    hide CacheAfter, PendingAfter, StreakAfter, LimiterAfter, WakingAfter, UsersAfter, HistoryAfter, IsMerge, Abandoned, BackoffOver, TimerFires;
  }

  /** A call of `refresh` succeeds exactly by a merge, and fails exactly when it gives up; a response from before a reset costs a pass. */
  lemma CallEndsExactly(c: Config, states: seq<System>, events: seq<Event>, i: nat)
    requires IsRun(c, states, events) && i < |events| && !states[i].pc.Finished?
    ensures states[i + 1].pc.Finished? && states[i + 1].pc.result.Some? <==> MergesAt(states, events, i)
    ensures states[i + 1].pc.Finished? && states[i + 1].pc.result.None? <==>
              events[i].WriterGoes? && GivesUp(c, states[i], events[i].go)
    ensures MergesAt(states, events, i) ==> states[i + 1].pc.result == Some(states[i].pc.id)
  {
    hide IsStep, GivesUp;
    assert IsStep(c, states[i], events[i], states[i + 1]);
    if events[i].WriterGoes? {
      WriterEndsCall(c, states[i], states[i + 1], events[i].go);
    } else {
      EnvKeepsPc(c, states[i], states[i + 1], events[i]);
    }
  }

  lemma BeginNeedsWaiter(c: Config, s: System, s': System)
    requires IsStep(c, s, WriterGoes(Begin), s')
    ensures s.pc.Admitted?
    ensures s'.pc.Attempt? <==> exists w :: w in s.pc.batch.waiters && w !in s.h.cancelled
    ensures s'.pc.Attempt? || s'.pc == Top
  {
    hide CacheAfter, PendingAfter, StreakAfter, LimiterAfter, WakingAfter, UsersAfter, HistoryAfter;
  }

  /** A batch is fetched exactly when one of its callers still waits. */
  lemma FetchNeedsWaiter(c: Config, states: seq<System>, events: seq<Event>, i: nat)
    requires IsRun(c, states, events) && i < |events| && events[i] == WriterGoes(Begin)
    ensures states[i].pc.Admitted?
    ensures states[i + 1].pc.Attempt? <==> exists w :: w in states[i].pc.batch.waiters && w !in states[i].h.cancelled
    ensures states[i + 1].pc.Attempt? || states[i + 1].pc == Top
  {
    hide IsStep;
    assert IsStep(c, states[i], events[i], states[i + 1]);
    BeginNeedsWaiter(c, states[i], states[i + 1]);
  }

  // ---- what a fetch asks for ----

  /** Waiter `w` of the batch asked for every topic. */
  predicate WantsAll(queued: map<nat, Queued>, w: nat) {
    w in queued && queued[w].want.None?
  }

  predicate Wants(queued: map<nat, Queued>, w: nat, name: string) {
    w in queued && queued[w].want.Some? && name in queued[w].want.value
  }

  /** The batch asks for what its waiters asked for, and for nothing else. */
  ghost predicate AsksExactly(b: Batch, queued: map<nat, Queued>) {
    && b.waiters <= queued.Keys
    && (b.full <==> exists w :: w in b.waiters && WantsAll(queued, w))
    && (forall name :: name in b.topics <==> exists w :: w in b.waiters && Wants(queued, w, name))
  }

  lemma JoinAsks(b: Batch, queued: map<nat, Queued>, w: nat, want: Option<set<string>>, at: nat)
    requires AsksExactly(b, queued) && w !in queued
    ensures AsksExactly(Joined(b, want, w), queued[w := Queued(want, at)])
  {
    var b', queued' := Joined(b, want, w), queued[w := Queued(want, at)];
    assert forall v :: v in b.waiters ==> WantsAll(queued', v) == WantsAll(queued, v);
    assert WantsAll(queued', w) <==> want.None?;
    forall name ensures name in b'.topics <==> exists v :: v in b'.waiters && Wants(queued', v, name) {
      assert forall v :: v in b.waiters ==> Wants(queued', v, name) == Wants(queued, v, name);
      assert Wants(queued', w, name) <==> want.Some? && name in want.value;
      if name in b.topics {
        var v :| v in b.waiters && Wants(queued, v, name);
        assert v in b'.waiters;
      }
      if want.Some? && name in want.value {
        assert w in b'.waiters;
      }
    }
    if b.full {
      var v :| v in b.waiters && WantsAll(queued, v);
      assert v in b'.waiters;
    }
    if want.None? {
      assert w in b'.waiters;
    }
  }

  lemma KeepsAsking(b: Batch, queued: map<nat, Queued>, w: nat, q: Queued)
    requires AsksExactly(b, queued) && w !in queued
    ensures AsksExactly(b, queued[w := q])
  {
    var queued' := queued[w := q];
    assert forall v :: v in b.waiters ==> WantsAll(queued', v) == WantsAll(queued, v);
    assert forall v, name :: v in b.waiters ==> Wants(queued', v, name) == Wants(queued, v, name);
    forall name | name in b.topics ensures exists v :: v in b.waiters && Wants(queued', v, name) {
      var v :| v in b.waiters && Wants(queued, v, name);
      assert Wants(queued', v, name);
    }
    forall name | exists v :: v in b.waiters && Wants(queued', v, name) ensures name in b.topics {
      var v :| v in b.waiters && Wants(queued', v, name);
      assert Wants(queued, v, name);
    }
  }

  ghost predicate BatchesAsk(s: System) {
    AsksExactly(s.pending, s.h.queued) && AsksExactly(PcBatch(s.pc), s.h.queued)
  }

  /** Where the two batches of the next state come from. */
  lemma StepBatches(c: Config, s: System, s': System, e: Event)
    requires IsStep(c, s, e, s')
    ensures if e.Queue? then s'.pending == Joined(s.pending, e.want, e.w) && e.w !in s.h.queued
            else s'.pending in {EMPTY_BATCH, s.pending, s.pending.(rebootstrap := true)}
    ensures PcBatch(s'.pc) in {EMPTY_BATCH, s.pending, PcBatch(s.pc)} && (e.Queue? ==> s'.pc == s.pc)
  {
    hide CacheAfter, StreakAfter, LimiterAfter, WakingAfter, UsersAfter, HistoryAfter, IsMerge, TimerFires, MayRebootstrap, BackoffOver, IsEmptyBatch, Abandoned, Joined;
  }

  lemma StepKeepsAsking(c: Config, s: System, s': System, e: Event)
    requires IsStep(c, s, e, s') && BatchesAsk(s)
    ensures BatchesAsk(s')
  {
    hide IsStep, Joined, PcBatch;
    StepBatches(c, s, s', e);
    StepRecords(c, s, s', e);
    if e.Queue? {
      JoinAsks(s.pending, s.h.queued, e.w, e.want, s.tick + 1);
      KeepsAsking(PcBatch(s.pc), s.h.queued, e.w, Queued(e.want, s.tick + 1));
    }
  }

  lemma {:induction false} BatchesAskExactly(c: Config, states: seq<System>, events: seq<Event>, i: nat)
    requires IsRun(c, states, events) && i < |states|
    ensures BatchesAsk(states[i])
  {
    hide IsStep, AsksExactly;
    if i == 0 {
      EmptyAsksNothing();
    } else {
      BatchesAskExactly(c, states, events, i - 1);
      assert IsStep(c, states[i - 1], events[i - 1], states[i]);
      StepKeepsAsking(c, states[i - 1], states[i], events[i - 1]);
    }
  }

  lemma EmptyAsksNothing()
    ensures AsksExactly(EMPTY_BATCH, map[])
  {
  }

  /** Waiter `w` of the run asked for `want`. */
  ghost predicate AskedFor(events: seq<Event>, i: nat, w: nat, want: Option<set<string>>) {
    exists a :: 0 <= a < i && a < |events| && events[a] == Queue(w, want)
  }

  /**
   What a call of `refresh` fetches, in terms of the requests of the run: every
   topic exactly when one of its waiters asked for every topic, and otherwise
   exactly the names its waiters asked for.
   */
  lemma FetchAsksExactly(c: Config, states: seq<System>, events: seq<Event>, i: nat, name: string)
    requires IsRun(c, states, events) && i < |states| && PcFetch(states[i].pc).Some?
    ensures var b := PcFetch(states[i].pc).value.batch;
            && (b.full <==> exists w :: w in b.waiters && AskedFor(events, i, w, None))
            && (name in b.topics <==> exists w, names :: w in b.waiters && name in names && AskedFor(events, i, w, Some(names)))
  {
    hide IsStep, WaitersPlaced, AskedFor;
    BatchesAskExactly(c, states, events, i);
    var s := states[i];
    var b := PcFetch(s.pc).value.batch;
    assert b == PcBatch(s.pc);
    forall w | w in b.waiters ensures AskedFor(events, i, w, s.h.queued[w].want) {
      RequestIsRecorded(c, states, events, i, w);
    }
    if name in b.topics {
      var w :| w in b.waiters && Wants(s.h.queued, w, name);
      assert AskedFor(events, i, w, Some(s.h.queued[w].want.value));
    }
    if w, names :| w in b.waiters && name in names && AskedFor(events, i, w, Some(names)) {
      RequestIsUnique(c, states, events, i, w, Some(names));
      assert Wants(s.h.queued, w, name);
    }
    if w :| w in b.waiters && AskedFor(events, i, w, None) {
      RequestIsUnique(c, states, events, i, w, None);
      assert WantsAll(s.h.queued, w);
    }
  }

  lemma RequestIsRecorded(c: Config, states: seq<System>, events: seq<Event>, i: nat, w: nat)
    requires IsRun(c, states, events) && i < |states| && w in states[i].h.queued
    ensures AskedFor(events, i, w, states[i].h.queued[w].want)
  {
    QueueHappened(c, states, events, i, w);
    assert events[states[i].h.queued[w].at - 1] == Queue(w, states[i].h.queued[w].want);
  }

  lemma {:induction false} RequestIsUnique(c: Config, states: seq<System>, events: seq<Event>, i: nat, w: nat, want: Option<set<string>>)
    requires IsRun(c, states, events) && i < |states| && AskedFor(events, i, w, want)
    ensures w in states[i].h.queued && states[i].h.queued[w].want == want
  {
    hide IsStep;
    var a :| 0 <= a < i && a < |events| && events[a] == Queue(w, want);
    assert IsStep(c, states[i - 1], events[i - 1], states[i]);
    StepRecords(c, states[i - 1], states[i], events[i - 1]);
    StepBatches(c, states[i - 1], states[i], events[i - 1]);
    if a < i - 1 {
      assert AskedFor(events, i - 1, w, want);
      RequestIsUnique(c, states, events, i - 1, w, want);
    }
  }

  // ---- a rebootstrap that was asked for ----

  lemma {:induction false} AskIsKept(c: Config, states: seq<System>, events: seq<Event>, r: nat, a: nat)
    requires IsRun(c, states, events) && r < a < |states| && events[r] == AskRebootstrap
    requires forall j :: r < j < a ==> events[j] != WriterGoes(Take) && events[j] != WriterGoes(Stop)
    ensures states[a].pending.rebootstrap
    decreases a
  {
    hide CacheAfter, PcAfter, StreakAfter, LimiterAfter, WakingAfter, UsersAfter, HistoryAfter;
    assert IsStep(c, states[a - 1], events[a - 1], states[a]);
    if r < a - 1 {
      AskIsKept(c, states, events, r, a - 1);
    }
  }

  lemma TakenStays(c: Config, s: System, s': System, e: Event)
    requires IsStep(c, s, e, s') && s.pc.Taken? && s.pc.batch.rebootstrap
    ensures s'.pc == if e == WriterGoes(Admit) then Resetting(Sleeping, Requested, ToAdmitted(s.pc.batch)) else s.pc
  {
    hide CacheAfter, PendingAfter, StreakAfter, LimiterAfter, WakingAfter, UsersAfter, HistoryAfter;
  }

  lemma {:induction false} TakenIsAdmitted(c: Config, states: seq<System>, events: seq<Event>, i: nat, j: nat) returns (k: nat)
    requires IsRun(c, states, events) && i < j < |states|
    requires states[i].pc.Taken? && states[i].pc.batch.rebootstrap && states[j].pc.Admitted?
    ensures i < k < j && states[k].pc.Resetting? && states[k].pc.phase == Sleeping
    decreases j - i
  {
    hide IsStep;
    assert IsStep(c, states[i], events[i], states[i + 1]);
    TakenStays(c, states[i], states[i + 1], events[i]);
    k := i + 1;
    if events[i] != WriterGoes(Admit) {
      k := TakenIsAdmitted(c, states, events, i + 1, j);
    }
  }

  lemma TakeTakes(c: Config, s: System, s': System)
    requires IsStep(c, s, WriterGoes(Take), s')
    ensures s'.pc == Taken(s.pending)
  {
    hide CacheAfter, StreakAfter, LimiterAfter, WakingAfter, UsersAfter, HistoryAfter;
  }

  /**
   A rebootstrap asked for at `r` is written before the batch it was asked in,
   taken at `a`, is begun at `b`.
   */
  lemma AskedResetIsDone(c: Config, states: seq<System>, events: seq<Event>, r: nat, a: nat, b: nat) returns (k: nat)
    requires IsRun(c, states, events) && r < a < b < |events|
    requires events[r] == AskRebootstrap && events[a] == WriterGoes(Take) && events[b] == WriterGoes(Begin)
    requires forall j :: r < j < a ==> events[j] != WriterGoes(Take) && events[j] != WriterGoes(Stop)
    ensures a < k < b && events[k] == WriterGoes(ResetWrite)
  {
    hide IsStep;
    AskIsKept(c, states, events, r, a);
    assert IsStep(c, states[a], events[a], states[a + 1]) && IsStep(c, states[b], events[b], states[b + 1]);
    TakeTakes(c, states[a], states[a + 1]);
    BeginNeedsWaiter(c, states[b], states[b + 1]);
    var k0 := TakenIsAdmitted(c, states, events, a + 1, b);
    k := ResetComesFirst(c, states, events, k0, b);
  }

  // ---- the failure streak ----

  /** The event stores `at` as the start of the failure streak. */
  ghost predicate Stores(s: System, e: Event, at: nat) {
    || (e.UserStores? && e.u in s.users && s.users[e.u] == Stamped(at))
    || (e == WriterGoes(ResetStore) && s.pc.Resetting? && s.pc.phase == Stamped(at))
  }

  /** The event begins a fetch while no streak is running. */
  ghost predicate StartsStreak(s: System, e: Event, s': System) {
    e == WriterGoes(Begin) && s'.pc.Attempt? && s.attemptStart.None?
  }

  lemma StepStreak(c: Config, s: System, s': System, e: Event)
    requires IsStep(c, s, e, s')
    ensures e == WriterGoes(ClearStreak) ==> s'.attemptStart.None?
    ensures forall at: nat :: Stores(s, e, at) ==> s'.attemptStart == Some(at)
    ensures StartsStreak(s, e, s') ==> s'.attemptStart == Some(s.time)
    ensures || s'.attemptStart == s.attemptStart || e == WriterGoes(ClearStreak) || StartsStreak(s, e, s')
            || (s'.attemptStart.Some? && Stores(s, e, s'.attemptStart.value))
    ensures s'.pc.Attempt? && !s.pc.Attempt? ==> s'.attemptStart.Some?
  {
    hide CacheAfter, PendingAfter, LimiterAfter, WakingAfter, UsersAfter, HistoryAfter, TimerFires, MayRebootstrap, BackoffOver, IsMerge;
  }

  /** A running streak goes back to the first fetch begun, or the last rebootstrap stored, since a response was accepted. */
  lemma {:induction false} StreakGoesBack(c: Config, states: seq<System>, events: seq<Event>, i: nat) returns (k: nat)
    requires IsRun(c, states, events) && i < |states| && states[i].attemptStart.Some?
    ensures k < i
    ensures || Stores(states[k], events[k], states[i].attemptStart.value)
            || (StartsStreak(states[k], events[k], states[k + 1]) && states[k].time == states[i].attemptStart.value)
    ensures forall j :: k < j < i ==> events[j] != WriterGoes(ClearStreak)
    ensures forall j, at: nat :: k < j < i ==> !Stores(states[j], events[j], at) || at == states[i].attemptStart.value
  {
    hide IsStep, Stores, StartsStreak;
    assert IsStep(c, states[i - 1], events[i - 1], states[i]);
    StepStreak(c, states[i - 1], states[i], events[i - 1]);
    k := i - 1;
    if states[i - 1].attemptStart == states[i].attemptStart {
      k := StreakGoesBack(c, states, events, i - 1);
    }
  }

  /** Without a running streak, a response was accepted since the last fetch that was begun. */
  lemma {:induction false} NoStreakAfterSuccess(c: Config, states: seq<System>, events: seq<Event>, k: nat, i: nat) returns (j: nat)
    requires IsRun(c, states, events) && k < i < |states|
    requires events[k] == WriterGoes(Begin) && states[k + 1].pc.Attempt? && states[i].attemptStart.None?
    ensures k < j < i && events[j] == WriterGoes(ClearStreak)
    decreases i
  {
    hide IsStep, Stores, StartsStreak;
    assert IsStep(c, states[i - 1], events[i - 1], states[i]);
    StepStreak(c, states[i - 1], states[i], events[i - 1]);
    j := i - 1;
    if k == i - 1 {
      BeginNeedsWaiter(c, states[k], states[i]);
    } else if events[i - 1] != WriterGoes(ClearStreak) {
      j := NoStreakAfterSuccess(c, states, events, k, i - 1);
    }
  }

  /** When the timer resets, no response was accepted for the trigger and the jitter, counted from a start `k` of the streak. */
  lemma TimerMeansFailing(c: Config, states: seq<System>, events: seq<Event>, i: nat, jitter: nat) returns (k: nat, start: nat)
    requires IsRun(c, states, events) && i < |events| && events[i] == WriterGoes(CheckTimer(jitter))
    requires states[i + 1].pc.Resetting?
    ensures k < i && states[i].time >= start + c.trigger + jitter
    ensures || Stores(states[k], events[k], start)
            || (StartsStreak(states[k], events[k], states[k + 1]) && states[k].time == start)
    ensures forall j :: k < j < i ==> events[j] != WriterGoes(ClearStreak)
  {
    hide IsStep, Stores, StartsStreak;
    TimerIsChecked(c, states[i], states[i + 1], jitter);
    WriterResetsExactly(c, states, events, i);
    k := StreakGoesBack(c, states, events, i);
    start := states[i].attemptStart.value;
  }

  /** A streak a fifth longer than the trigger resets at the next fetch, whatever the jitter. */
  lemma LongStreakResets(c: Config, states: seq<System>, events: seq<Event>, i: nat, jitter: nat)
    requires IsRun(c, states, events) && i < |events| && events[i] == WriterGoes(CheckTimer(jitter))
    requires c.rebootstrapEnabled && states[i].attemptStart.Some?
    requires 5 * states[i].time >= 5 * states[i].attemptStart.value + 6 * c.trigger
    ensures states[i + 1].pc.Resetting?
  {
    hide IsStep;
    assert IsStep(c, states[i], events[i], states[i + 1]);
    TimerIsChecked(c, states[i], states[i + 1], jitter);
    WriterResetsExactly(c, states, events, i);
  }

  lemma TimerIsChecked(c: Config, s: System, s': System, jitter: nat)
    requires IsStep(c, s, WriterGoes(CheckTimer(jitter)), s')
    ensures s.pc.Attempt? && 5 * jitter <= c.trigger
  {
    hide Step;
  }

  // ---- what a failed fetch means ----

  /** The call has merged its response. */
  predicate Succeeded(pc: Pc) {
    (pc.Finished? || pc.Answering?) && pc.result.Some?
  }

  /** The call answers its waiters that it failed. */
  predicate TellsFailure(pc: Pc) {
    pc.Answering? && pc.result.None?
  }

  lemma WriterStepsCall(c: Config, s: System, s': System, e: WriterEvent)
    requires IsStep(c, s, WriterGoes(e), s')
    ensures PcBegan(s'.pc).Some? ==> PcBegan(s'.pc) == if e.Begin? then Some(s.tick + 1) else PcBegan(s.pc)
    ensures PcBegan(s'.pc).Some? && !e.Begin? && Succeeded(s.pc) ==> Succeeded(s'.pc)
    ensures PcBegan(s'.pc).Some? && !e.Begin? && TellsFailure(s.pc) ==> TellsFailure(s'.pc)
    ensures Applies(s, WriterGoes(e)) ==> Succeeded(s'.pc)
  {
    hide CacheAfter, PendingAfter, StreakAfter, LimiterAfter, WakingAfter, UsersAfter, HistoryAfter, IsMerge, TimerFires, MayRebootstrap, BackoffOver, IsEmptyBatch, Abandoned;
  }

  lemma OthersDoNotLog(c: Config, s: System, s': System, e: Event)
    requires IsStep(c, s, e, s') && !(e.WriterGoes? && (e.go.FailOne? || e.go.AnswerOne?))
    ensures s'.h.log == s.h.log
  {
    hide CacheAfter, PcAfter, PendingAfter, StreakAfter, LimiterAfter, WakingAfter, UsersAfter, BuiltBy, IsMerge, EndpointIsNew;
  }

  lemma AnswersLog(c: Config, s: System, s': System, e: WriterEvent)
    requires IsStep(c, s, WriterGoes(e), s') && (e.FailOne? || e.AnswerOne?)
    ensures s'.h.log == if e.waiter in s.h.cancelled then s.h.log
                        else s.h.log + [LogEntry(e.waiter, if e.FailOne? then HandleDropped else AnswerOf(s.pc.f, s.pc.result))]
    ensures e.AnswerOne? ==> s.pc.Answering? && s'.pc == s.pc.(left := s.pc.left - {e.waiter})
  {
    hide CacheAfter, PendingAfter, StreakAfter, LimiterAfter, WakingAfter, UsersAfter;
  }

  lemma StepLogs(c: Config, s: System, s': System, e: Event)
    requires IsStep(c, s, e, s')
    ensures || s'.h.log == s.h.log
            || (&& |s'.h.log| == |s.h.log| + 1 && s'.h.log[..|s.h.log|] == s.h.log
                && (s'.h.log[|s.h.log|].answer.FetchFailed? ==>
                      && TellsFailure(s.pc) && TellsFailure(s'.pc) && PcBegan(s'.pc) == PcBegan(s.pc)
                      && PcBegan(s.pc) == Some(s'.h.log[|s.h.log|].answer.began)))
  {
    hide IsStep;
    if e.WriterGoes? && (e.go.FailOne? || e.go.AnswerOne?) {
      AnswersLog(c, s, s', e.go);
    } else {
      OthersDoNotLog(c, s, s', e);
    }
  }

  /** No merge before `i` belongs to the call that began at `began`. */
  ghost predicate NotMerged(states: seq<System>, events: seq<Event>, i: nat, began: nat)
    requires |states| == |events| + 1
  {
    forall q: nat :: q < i && MergesAt(states, events, q) ==> states[q].pc.f.began != began
  }

  /** Calls follow one another: a call that is running began last, and has merged exactly when it says so. */
  ghost predicate CallsInOrder(states: seq<System>, events: seq<Event>, i: nat)
    requires i < |states| == |events| + 1
  {
    && (PcBegan(states[i].pc).Some? ==> PcBegan(states[i].pc).value <= i)
    && (forall q: nat :: q < i && MergesAt(states, events, q) ==>
          && states[q].pc.f.began <= i
          && (PcBegan(states[i].pc) == Some(states[q].pc.f.began) ==> Succeeded(states[i].pc)))
  }

  /** Failures were told by calls that did not merge, none of which is still fetching. */
  ghost predicate FailuresAreTrue(states: seq<System>, events: seq<Event>, i: nat)
    requires i < |states| == |events| + 1
  {
    forall k {:trigger states[i].h.log[k]} :: 0 <= k < |states[i].h.log| && states[i].h.log[k].answer.FetchFailed? ==>
      && var began := states[i].h.log[k].answer.began;
      && began <= i && NotMerged(states, events, i, began)
      && (PcBegan(states[i].pc) == Some(began) ==> TellsFailure(states[i].pc))
  }

  lemma StepCall(c: Config, s: System, s': System, e: Event)
    requires IsStep(c, s, e, s')
    ensures PcBegan(s'.pc).Some? ==> PcBegan(s'.pc) == if e == WriterGoes(Begin) then Some(s.tick + 1) else PcBegan(s.pc)
    ensures PcBegan(s'.pc).Some? && e != WriterGoes(Begin) && Succeeded(s.pc) ==> Succeeded(s'.pc)
    ensures PcBegan(s'.pc).Some? && e != WriterGoes(Begin) && TellsFailure(s.pc) ==> TellsFailure(s'.pc)
    ensures Applies(s, e) ==> Succeeded(s'.pc) && PcBegan(s.pc) == Some(s.pc.f.began)
  {
    hide IsStep, Succeeded, TellsFailure;
    if e.WriterGoes? {
      WriterStepsCall(c, s, s', e.go);
    } else {
      EnvKeepsPc(c, s, s', e);
    }
  }

  lemma {:induction false} CallsAreInOrder(c: Config, states: seq<System>, events: seq<Event>, i: nat)
    requires IsRun(c, states, events) && i < |states|
    ensures CallsInOrder(states, events, i)
  {
    hide IsStep, Succeeded, PcBegan;
    if i == 0 {
      InitialCall(states[0].time);
    } else {
      CallsAreInOrder(c, states, events, i - 1);
      assert IsStep(c, states[i - 1], events[i - 1], states[i]);
      TickIsIndex(c, states, events, i - 1);
      StepCall(c, states[i - 1], states[i], events[i - 1]);
      forall q: nat | q < i && MergesAt(states, events, q)
        ensures states[q].pc.f.began <= i
        ensures PcBegan(states[i].pc) == Some(states[q].pc.f.began) ==> Succeeded(states[i].pc)
      {
        assert q == i - 1 ==> Applies(states[q], events[q]);
      }
    }
  }

  lemma InitialCall(time: nat)
    ensures PcBegan(Initial(time).pc).None?
  {
  }

  lemma {:induction false} FailuresHold(c: Config, states: seq<System>, events: seq<Event>, i: nat)
    requires IsRun(c, states, events) && i < |states|
    ensures FailuresAreTrue(states, events, i)
  {
    hide IsStep, Succeeded, TellsFailure, PcBegan, MergesAt;
    if i > 0 {
      var s, s', e := states[i - 1], states[i], events[i - 1];
      FailuresHold(c, states, events, i - 1);
      CallsAreInOrder(c, states, events, i - 1);
      assert IsStep(c, s, e, s');
      TickIsIndex(c, states, events, i - 1);
      StepCall(c, s, s', e);
      StepLogs(c, s, s', e);
      forall k | 0 <= k < |s'.h.log| && s'.h.log[k].answer.FetchFailed?
        ensures var began := s'.h.log[k].answer.began;
                && began <= i && NotMerged(states, events, i, began)
                && (PcBegan(s'.pc) == Some(began) ==> TellsFailure(s'.pc))
      {
        FailureStaysTrue(c, states, events, i, k);
      }
    }
  }

  /** A waiter that is told its fetch failed was served by a call none of whose responses was merged. */
  lemma FailedMeansNotMerged(c: Config, states: seq<System>, events: seq<Event>, i: nat, k: nat, q: nat)
    requires IsRun(c, states, events) && i < |states| && q < i && MergesAt(states, events, q)
    requires k < |states[i].h.log| && states[i].h.log[k].answer.FetchFailed?
    ensures states[q].pc.f.began != states[i].h.log[k].answer.began
  {
    hide IsStep;
    FailuresHold(c, states, events, i);
  }

  /** One answer, one step later. */
  lemma FailureStaysTrue(c: Config, states: seq<System>, events: seq<Event>, i: nat, k: nat)
    requires IsRun(c, states, events) && 0 < i < |states|
    requires CallsInOrder(states, events, i - 1) && FailuresAreTrue(states, events, i - 1)
    requires k < |states[i].h.log| && states[i].h.log[k].answer.FetchFailed?
    ensures var began := states[i].h.log[k].answer.began;
            && began <= i && NotMerged(states, events, i, began)
            && (PcBegan(states[i].pc) == Some(began) ==> TellsFailure(states[i].pc))
  {
    hide IsStep, PcBegan, Applies;
    var s, s', e := states[i - 1], states[i], events[i - 1];
    RunSteps(c, states, events, i - 1);
    var began := s'.h.log[k].answer.began;
    StepCall(c, s, s', e);
    StepLogs(c, s, s', e);
    if k < |s.h.log| {
      assert s.h.log[k] == s'.h.log[..|s.h.log|][k];
    }
    forall q: nat | q < i && MergesAt(states, events, q) ensures states[q].pc.f.began != began {
      if q == i - 1 {
        MergeApplies(states, events, q);
      }
    }
  }

  lemma RunSteps(c: Config, states: seq<System>, events: seq<Event>, i: nat)
    requires IsRun(c, states, events) && i < |events|
    ensures IsStep(c, states[i], events[i], states[i + 1]) && states[i].tick == i
  {
    hide IsStep;
    TickIsIndex(c, states, events, i);
    assert IsStep(c, states[i], events[i], states[i + 1]);
  }

  lemma MergeApplies(states: seq<System>, events: seq<Event>, q: nat)
    requires |states| == |events| + 1 && MergesAt(states, events, q)
    ensures Applies(states[q], events[q])
  {
  }
}
