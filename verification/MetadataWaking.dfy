/** The writer is woken: no request and no closing of the handle passes it by while it is parked. */
module MetadataWaking {
  import opened MetadataProtocol
  import opened MetadataSafety

  /** The writer holds a permit, or somebody is about to give it one. */
  predicate WakeupDue(w: Waking) {
    w.permit || w.callers > 0 || w.dropping
  }

  ghost predicate WakeInv(s: System) {
    && (!s.waking.started ==> s.pc == Top && (IsEmptyBatch(s.pending) || s.waking.callers > 0))
    && (s.pc.Parked? ==> IsEmptyBatch(s.pending) || WakeupDue(s.waking))
    && (s.pc.Parked? || s.pc.Open? ==> !s.closed || WakeupDue(s.waking))
  }

  lemma EnvKeepsWakeups(c: Config, s: System, s': System, e: Event)
    requires !e.WriterGoes? && IsStep(c, s, e, s') && WakeInv(s)
    ensures WakeInv(s')
  {
    hide CacheAfter, StreakAfter, LimiterAfter, UsersAfter, HistoryAfter;
  }

  lemma WriterKeepsWakeups(c: Config, s: System, s': System, e: WriterEvent)
    requires IsStep(c, s, WriterGoes(e), s') && WakeInv(s)
    ensures WakeInv(s')
  {
    hide CacheAfter, StreakAfter, LimiterAfter, UsersAfter, HistoryAfter;
  }

  lemma {:induction false} RunKeepsWakeups(c: Config, states: seq<System>, events: seq<Event>, i: nat)
    requires IsRun(c, states, events) && i < |states|
    ensures WakeInv(states[i])
  {
    hide IsStep;
    if i > 0 {
      RunKeepsWakeups(c, states, events, i - 1);
      var e := events[i - 1];
      assert IsStep(c, states[i - 1], e, states[i]);
      if e.WriterGoes? {
        WriterKeepsWakeups(c, states[i - 1], states[i], e.go);
      } else {
        EnvKeepsWakeups(c, states[i - 1], states[i], e);
      }
    }
  }

  /**
   No wakeup is lost: in every reachable state a parked writer with something to
   do has a permit or a caller that will give it one, and a writer that was
   never spawned has a caller that will spawn it.
   */
  lemma ParkedWriterIsWoken(c: Config, states: seq<System>, events: seq<Event>, i: nat)
    requires IsRun(c, states, events) && i < |states|
    ensures var b := states[i].pending;
            && (states[i].pc == Parked && (b.full || b.rebootstrap || b.waiters != {} || states[i].closed) ==>
                  states[i].waking.permit || states[i].waking.callers > 0 || states[i].waking.dropping)
            && (!states[i].waking.started && (b.full || b.rebootstrap || b.waiters != {}) ==> states[i].waking.callers > 0)
  {
    hide IsStep;
    RunKeepsWakeups(c, states, events, i);
  }

  /** The writer wakes only with a permit, and uses it up. */
  lemma PermitIsUsedOnce(c: Config, states: seq<System>, events: seq<Event>, i: nat)
    requires IsRun(c, states, events) && i < |events| && states[i].pc.Parked? && !states[i + 1].pc.Parked?
    ensures states[i].waking.permit && !states[i + 1].waking.permit && states[i + 1].pc == Top
  {
    hide CacheAfter, PendingAfter, StreakAfter, LimiterAfter, UsersAfter, HistoryAfter;
    assert IsStep(c, states[i], events[i], states[i + 1]);
  }

  /** With its permit, a parked writer turns to the batch in three steps of its own, or stops in two. */
  lemma PermitWakes(c: Config, s: System)
    returns (top: System, open: System, next: System)
    requires s.pc == Parked && s.waking.started && s.waking.permit
    requires s.pending.full || s.pending.rebootstrap || s.pending.waiters != {} || s.closed
    ensures IsStep(c, s, WriterGoes(Unpark), top) && top.pending == s.pending
    ensures s.closed ==> IsStep(c, top, WriterGoes(Stop), next) && next.pc == Failing(s.pending.waiters)
    ensures !s.closed ==> IsStep(c, top, WriterGoes(SeeOpen), open) && IsStep(c, open, WriterGoes(SeeBatch), next)
    ensures !s.closed ==> next.pc == Ready && next.pending == s.pending
  {
    hide CacheAfter, StreakAfter, LimiterAfter, UsersAfter, HistoryAfter;
    top := Step(c, s, WriterGoes(Unpark));
    open := top;
    if s.closed {
      next := Step(c, top, WriterGoes(Stop));
    } else {
      open := Step(c, top, WriterGoes(SeeOpen));
      next := Step(c, open, WriterGoes(SeeBatch));
    }
  }

  /**
   A request that is neither answered nor given up is in the writer's hands, or
   in its next batch with the writer running or about to be woken, unless the
   handle is gone.
   */
  lemma WaiterIsNotForgotten(c: Config, states: seq<System>, events: seq<Event>, i: nat, w: nat)
    requires IsRun(c, states, events) && i < |states| && w in states[i].h.queued
    requires w !in states[i].h.cancelled && !Answered(states[i].h.log, w) && !states[i].closed
    ensures var s := states[i];
            || w in PcWaiters(s.pc)
            || (w in s.pending.waiters && ((s.waking.started && !s.pc.Parked? && !s.pc.Stopped?) || WakeupDue(s.waking)))
  {
    hide IsStep;
    WaitersAreServed(c, states, events, i);
    RunKeepsWakeups(c, states, events, i);
    StoppedIsClosed(c, states, events, i);
  }

  lemma {:induction false} StoppedIsClosed(c: Config, states: seq<System>, events: seq<Event>, i: nat)
    requires IsRun(c, states, events) && i < |states|
    ensures states[i].pc.Failing? || states[i].pc.Stopped? ==> states[i].closed
  {
    hide CacheAfter, PendingAfter, StreakAfter, LimiterAfter, WakingAfter, UsersAfter, HistoryAfter;
    if i > 0 {
      StoppedIsClosed(c, states, events, i - 1);
      assert IsStep(c, states[i - 1], events[i - 1], states[i]);
    }
  }
}
