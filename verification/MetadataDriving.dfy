/** Runs of the metadata protocol built step by step, for showing that something can happen. */
module MetadataDriving {
  import opened Wrappers
  import opened Backoff
  import opened MetadataTypes
  import opened MetadataMerge
  import opened MetadataProtocol

  /** Some events lead from `s` to `t`. */
  ghost predicate Reach(c: Config, s: System, t: System) {
    exists states, events :: IsPiece(c, states, events, s, t)
  }

  /** A piece of a run. */
  ghost predicate IsPiece(c: Config, states: seq<System>, events: seq<Event>, s: System, t: System) {
    && |states| == |events| + 1 && states[0] == s && states[|events|] == t
    && forall i {:trigger events[i]} :: 0 <= i < |events| ==> IsStep(c, states[i], events[i], states[i + 1])
  }

  lemma ReachByStep(c: Config, s: System, e: Event, t: System)
    requires IsStep(c, s, e, t)
    ensures Reach(c, s, t)
  {
    hide IsStep;
    assert IsPiece(c, [s, t], [e], s, t);
  }

  lemma ReachThrough(c: Config, s: System, t: System, u: System)
    requires Reach(c, s, t) && Reach(c, t, u)
    ensures Reach(c, s, u)
  {
    hide IsStep;
    var a, d :| IsPiece(c, a, d, s, t);
    var b, e :| IsPiece(c, b, e, t, u);
    var states, events := a + b[1..], d + e;
    forall i | 0 <= i < |events| ensures IsStep(c, states[i], events[i], states[i + 1]) {
      if i < |d| {
        assert events[i] == d[i] && states[i] == a[i] && states[i + 1] == a[i + 1];
      } else {
        var k := i - |d|;
        assert events[i] == e[k] && states[i] == b[k] && states[i + 1] == b[k + 1];
      }
    }
    assert IsPiece(c, states, events, s, u);
  }

  /** `states'` and `events'` are a run that goes on where `states` and `events` end. */
  ghost predicate Continues(c: Config, states: seq<System>, events: seq<Event>, states': seq<System>, events': seq<Event>) {
    IsRun(c, states', events') && states <= states' && events <= events'
  }

  /** Whatever its last state leads to, a run can go on to. */
  lemma Continued(c: Config, states: seq<System>, events: seq<Event>, t: System)
    returns (states': seq<System>, events': seq<Event>)
    requires IsRun(c, states, events) && Reach(c, states[|events|], t)
    ensures Continues(c, states, events, states', events') && states'[|events'|] == t
  {
    hide IsStep;
    var b, e :| IsPiece(c, b, e, states[|events|], t);
    states', events' := states + b[1..], events + e;
    forall i | 0 <= i < |events'| ensures IsStep(c, states'[i], events'[i], states'[i + 1]) {
      if i < |events| {
        assert events'[i] == events[i] && states'[i] == states[i] && states'[i + 1] == states[i + 1];
      } else {
        var k := i - |events|;
        assert events'[i] == e[k] && states'[i] == b[k] && states'[i + 1] == b[k + 1];
      }
    }
  }

  /** The callers, the users and the clock are where they were. */
  ghost predicate Keeps(s: System, s': System) {
    && s'.time == s.time && s'.users == s.users && s'.closed == s.closed
    && s'.h.queued == s.h.queued && s'.h.cancelled == s.h.cancelled
  }

  /** What a step of the writer leaves alone. */
  lemma WriterFrame(c: Config, s: System, s': System, e: WriterEvent)
    requires IsStep(c, s, WriterGoes(e), s')
    ensures Keeps(s, s') && WriterEnabled(c, s, e) && s'.pc == PcAfter(c, s, e)
    ensures e.Stop? || e.Take? || s'.pending == s.pending
    ensures e.Finish? || s'.limiter == s.limiter
    ensures e.Apply? || e.ResetWrite? || s'.cache == s.cache
  {
    hide PcAfter, StreakAfter, IsMerge, BuiltBy;
  }

  /** One step of the writer. */
  lemma WriterStep(c: Config, s: System, e: WriterEvent) returns (t: System)
    requires WriterEnabled(c, s, e)
    ensures IsStep(c, s, WriterGoes(e), t) && Reach(c, s, t)
    ensures Keeps(s, t) && t.pc == PcAfter(c, s, e)
    ensures e.Stop? || e.Take? || t.pending == s.pending
    ensures e.Finish? || t.limiter == s.limiter
    ensures e.Apply? || e.ResetWrite? || t.cache == s.cache
  {
    hide Step, WriterEnabled, PcAfter, Reach;
    t := Step(c, s, WriterGoes(e));
    ReachByStep(c, s, WriterGoes(e), t);
    WriterFrame(c, s, t, e);
  }

  lemma ResetWrites(c: Config, s: System, s': System)
    requires IsStep(c, s, WriterGoes(ResetWrite), s')
    ensures s'.cache == ResetSnapshot(s.cache, s.time)
  {
    hide PcAfter, StreakAfter, LimiterAfter, PendingAfter, WakingAfter, UsersAfter, HistoryAfter;
  }

  /** The first half of a rebootstrap of the writer: the write, and the reading of the clock. */
  lemma ResetsHalf(c: Config, s: System) returns (t: System)
    requires s.pc.Resetting? && s.pc.phase == Sleeping
    ensures Reach(c, s, t) && Keeps(s, t) && t.pending == s.pending && t.limiter == s.limiter
    ensures t.pc == Resetting(Stamped(s.time), s.pc.reason, s.pc.resume)
    ensures t.cache == ResetSnapshot(s.cache, s.time)
  {
    hide Reach, IsStep, IsMerge, ResetSnapshot, Rebootstrap, TimerFires, BackoffOver;
    var a := WriterStep(c, s, ResetWrite);
    assert a.pc == Resetting(Written, s.pc.reason, s.pc.resume);
    ResetWrites(c, s, a);
    t := WriterStep(c, a, ResetReadClock);
    ReachThrough(c, s, a, t);
  }

  /** A rebootstrap of the writer, from its write to its store. */
  lemma Resets(c: Config, s: System) returns (t: System)
    requires s.pc.Resetting? && s.pc.phase == Sleeping
    ensures Reach(c, s, t) && Keeps(s, t) && t.pending == s.pending && t.limiter == s.limiter
    ensures t.pc == match s.pc.resume case ToAdmitted(b) => Admitted(b) case ToPass(f) => Pass(f)
    ensures t.cache == ResetSnapshot(s.cache, s.time)
  {
    hide Reach, IsStep, IsMerge, ResetSnapshot, Rebootstrap, TimerFires, BackoffOver;
    var a := ResetsHalf(c, s);
    t := WriterStep(c, a, ResetStore);
    ReachThrough(c, s, a, t);
  }

  const EMPTY_RESPONSE := Response([], None, -1, [], NO_ERROR)

  /** An empty response leaves an empty snapshot empty. */
  lemma EmptyMerge(now: nat, generation: nat, epoch: nat, a: MergeArgs)
    ensures IsMerge(EmptySnapshot(now, generation, epoch), EMPTY_RESPONSE, a, EmptySnapshot(a.now, generation + 1, epoch))
  {
  }

  /** A pass connects. */
  lemma Connects(c: Config, s: System) returns (t: System)
    requires s.pc.Pass? && s.pc.f.pass < 3
    ensures Reach(c, s, t) && Keeps(s, t) && t.pending == s.pending && t.cache == s.cache
    ensures t.pc.InFlight? && t.pc.epoch == t.cache.resetEpoch
  {
    hide Reach, IsStep, IsMerge;
    var a := WriterStep(c, s, BeginPass);
    assert a.pc.Connecting? && a.pc.epoch == s.cache.resetEpoch;
    t := WriterStep(c, a, ConnectWorks);
    ReachThrough(c, s, a, t);
  }

  /** A response is received, and ends the failure streak. */
  lemma Receives(c: Config, s: System) returns (t: System)
    requires s.pc.InFlight? && s.pc.epoch == s.cache.resetEpoch
    ensures Reach(c, s, t) && Keeps(s, t) && t.pending == s.pending && t.cache == s.cache
    ensures t.pc.Cleared? && t.pc.r == EMPTY_RESPONSE && t.pc.epoch == t.cache.resetEpoch
  {
    hide Reach, IsStep, IsMerge;
    var a := WriterStep(c, s, Receive(EMPTY_RESPONSE));
    assert a.pc == Received(s.pc.f, s.pc.id, s.pc.epoch, EMPTY_RESPONSE);
    t := WriterStep(c, a, ClearStreak);
    ReachThrough(c, s, a, t);
  }

  lemma FinishDrawsInitial(c: Config, s: System, s': System)
    requires IsStep(c, s, WriterGoes(Finish(0.0)), s') && s.pc.Finished? && s.pc.result.Some? && c.policy.Some?
    ensures s'.limiter.lastCompleted == Some(s.time) && s'.limiter.delay == c.policy.value.initial as real
  {
    hide CacheAfter, PcAfter, StreakAfter, PendingAfter, WakingAfter, UsersAfter, HistoryAfter, Delay;
    InitialIsDrawn(c.policy.value);
  }

  /** An empty response succeeds on an empty snapshot, and the shortest delay is drawn. */
  lemma Succeeds(c: Config, s: System, now: nat) returns (t: System)
    requires s.pc.Pass? && s.pc.f.pass < 3
    requires s.cache == EmptySnapshot(now, s.cache.generation, s.cache.resetEpoch)
    ensures Reach(c, s, t) && Keeps(s, t) && t.pc.Answering? && t.pending == s.pending
    ensures c.policy.Some? ==>
              t.limiter.lastCompleted == Some(s.time) && t.limiter.delay == c.policy.value.initial as real
  {
    hide Reach, IsStep, IsMerge;
    var connected := Connects(c, s);
    var a := Receives(c, connected);
    ReachThrough(c, s, connected, a);
    var args := MergeArgsOf(c, a, a.pc.f, 1);
    EmptyMerge(now, a.cache.generation, a.cache.resetEpoch, args);
    var b := WriterStep(c, a, Apply(1, EmptySnapshot(args.now, a.cache.generation + 1, a.cache.resetEpoch)));
    ReachThrough(c, s, a, b);
    t := WriterStep(c, b, Finish(0.0));
    ReachThrough(c, s, b, t);
    if c.policy.Some? {
      FinishDrawsInitial(c, b, t);
    }
  }

  /** Every waiter is answered, and the writer is back at the top. */
  lemma {:induction false} Answers(c: Config, s: System) returns (t: System)
    requires s.pc.Answering?
    ensures Reach(c, s, t) && Keeps(s, t) && t.pc == Top && t.pending == s.pending && t.limiter == s.limiter
    decreases |s.pc.left|
  {
    hide Reach, IsStep;
    if s.pc.left == {} {
      t := WriterStep(c, s, Done);
    } else {
      var w :| w in s.pc.left;
      var a := WriterStep(c, s, AnswerOne(w));
      t := Answers(c, a);
      ReachThrough(c, s, a, t);
    }
  }

  lemma QueueJoins(c: Config, s: System, s': System, w: nat)
    requires IsStep(c, s, Queue(w, None), s')
    ensures s'.pc == s.pc && w in s'.pending.waiters && s'.waking.callers > 0
    ensures s'.time == s.time && s'.users == s.users && s'.closed == s.closed
    ensures s'.limiter == s.limiter && s'.h.cancelled == s.h.cancelled
  {
    hide CacheAfter, StreakAfter;
  }

  lemma WakeStarts(c: Config, s: System, s': System)
    requires IsStep(c, s, WakeWriter, s')
    ensures Keeps(s, s') && s'.pc == s.pc && s'.pending == s.pending && s'.waking.started && s'.limiter == s.limiter
  {
    hide CacheAfter, StreakAfter;
  }

  /** A fresh request joins the batch, and its caller wakes the writer. */
  lemma Calls(c: Config, s: System, w: nat) returns (t: System)
    requires w !in s.h.queued
    ensures Reach(c, s, t) && t.pc == s.pc && w in t.pending.waiters && t.waking.started && t.closed == s.closed
    ensures t.time == s.time && t.users == s.users && t.limiter == s.limiter && t.h.cancelled == s.h.cancelled
  {
    hide Reach, Step;
    var a := Step(c, s, Queue(w, None));
    ReachByStep(c, s, Queue(w, None), a);
    QueueJoins(c, s, a, w);
    t := Step(c, a, WakeWriter);
    ReachByStep(c, a, WakeWriter, t);
    ReachThrough(c, s, a, t);
    WakeStarts(c, a, t);
  }

  /** A fresh request makes the writer see a batch. */
  lemma Requests(c: Config, s: System, w: nat) returns (t: System)
    requires s.pc == Top && !s.closed && w !in s.h.queued
    ensures Reach(c, s, t) && t.pc == Ready && w in t.pending.waiters && !t.closed
    ensures t.time == s.time && t.users == s.users && t.limiter == s.limiter && t.h.cancelled == s.h.cancelled
  {
    hide Reach, IsStep, IsMerge;
    var a := Calls(c, s, w);
    var b := WriterStep(c, a, SeeOpen);
    ReachThrough(c, s, a, b);
    t := WriterStep(c, b, SeeBatch);
    ReachThrough(c, s, b, t);
  }

  /** A batch is taken and, if it asks for that, a rebootstrap comes first. */
  lemma Admits(c: Config, s: System) returns (t: System)
    requires s.pc == Ready && BackoffOver(c, s)
    ensures Reach(c, s, t) && Keeps(s, t) && t.pc == Admitted(s.pending)
  {
    hide Reach, IsStep;
    var a := WriterStep(c, s, Take);
    t := WriterStep(c, a, Admit);
    ReachThrough(c, s, a, t);
    if s.pending.rebootstrap {
      var b := t;
      t := Resets(c, b);
      ReachThrough(c, s, b, t);
    }
  }

  /** A batch somebody waits for is taken up to the check of the timer. */
  lemma Takes(c: Config, s: System, w: nat) returns (t: System)
    requires s.pc == Ready && BackoffOver(c, s) && w in s.pending.waiters && w !in s.h.cancelled
    ensures Reach(c, s, t) && Keeps(s, t) && t.pc.Attempt?
  {
    hide Reach, IsStep, BackoffOver;
    var a := Admits(c, s);
    assert !Abandoned(a, a.pc.batch);
    t := WriterStep(c, a, Begin);
    ReachThrough(c, s, a, t);
  }

  /** Time passes. */
  lemma Waits(c: Config, s: System, dt: nat) returns (t: System)
    ensures Reach(c, s, t) && t == s.(time := s.time + dt, tick := s.tick + 1)
  {
    hide Reach;
    t := Step(c, s, Tick(dt));
    ReachByStep(c, s, Tick(dt), t);
  }

  lemma StoresReading(c: Config, s: System, s': System, u: nat)
    requires IsStep(c, s, UserStores(u), s')
    ensures u in s.users && s.users[u].Stamped? && s'.attemptStart == Some(s.users[u].at)
    ensures s'.pc == s.pc && s'.users == s.users - {u} && s'.time == s.time && s'.closed == s.closed
  {
    hide CacheAfter, PendingAfter, WakingAfter, HistoryAfter;
  }

  /** A reading that is old enough is stored just before the timer is checked, so that it fires. */
  lemma Stores(c: Config, s: System, u: nat) returns (t: System)
    requires s.pc.Attempt? && c.rebootstrapEnabled
    requires u in s.users && s.users[u].Stamped? && s.time >= s.users[u].at + c.trigger
    ensures Reach(c, s, t) && t.pc.Attempt? && TimerFires(c, t, 0)
    ensures t.users == s.users - {u} && t.closed == s.closed && t.time == s.time
  {
    hide Reach, Step;
    t := Step(c, s, UserStores(u));
    ReachByStep(c, s, UserStores(u), t);
    StoresReading(c, s, t, u);
  }
}
