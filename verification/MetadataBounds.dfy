/** Bounds on one fetch, on rebootstraps for unreachability, and on the rate of fetches. */
module MetadataBounds {
  import opened Wrappers
  import opened Backoff
  import opened MetadataMerge
  import opened MetadataProtocol
  import opened MetadataSafety

  // ---- one call of refresh ----

  /** How many passes began in `[from, to)`. */
  function PassesIn(events: seq<Event>, from: nat, to: nat): nat
    requires from <= to <= |events|
  {
    if from == to then 0
    else PassesIn(events, from, to - 1) + (if events[to - 1] == WriterGoes(BeginPass) then 1 else 0)
  }

  /** The writer decides to rebootstrap on its own. */
  predicate Decides(s: System, s': System) {
    !s.pc.Resetting? && s'.pc.Resetting? && s'.pc.reason != Requested
  }

  /** How often the writer decided to rebootstrap in `[from, to)`. */
  function DecisionsIn(states: seq<System>, from: nat, to: nat): nat
    requires from <= to < |states|
  {
    if from == to then 0
    else DecisionsIn(states, from, to - 1) + (if Decides(states[to - 1], states[to]) then 1 else 0)
  }

  /** The same call of `refresh` goes on from `s` to `s'`. */
  ghost predicate Continues(s: System, s': System) {
    PcFetch(s.pc).Some? && PcFetch(s'.pc).Some?
  }

  lemma EnvContinues(c: Config, s: System, s': System, e: Event)
    requires !e.WriterGoes? && IsStep(c, s, e, s')
    ensures s'.pc == s.pc
  {
    hide CacheAfter, PendingAfter, StreakAfter, LimiterAfter, WakingAfter, UsersAfter, HistoryAfter;
  }

  lemma CallBegins(c: Config, s: System, s': System)
    requires IsStep(c, s, WriterGoes(Begin), s') && PcFetch(s'.pc).Some?
    ensures var f := PcFetch(s'.pc).value; f.pass == 0 && !f.rebootstrapped
  {
    hide CacheAfter, PendingAfter, StreakAfter, LimiterAfter, WakingAfter, UsersAfter, HistoryAfter;
  }

  /** One step inside a call: a pass counts up, a decision uses up the one rebootstrap. */
  lemma WriterContinues(c: Config, s: System, s': System, e: WriterEvent)
    requires IsStep(c, s, WriterGoes(e), s') && Continues(s, s')
    requires PcFetch(s.pc).value.pass <= 3
    requires s.pc.Attempt? ==> !PcFetch(s.pc).value.rebootstrapped
    ensures var f, s' := PcFetch(s.pc).value, s';
            var f' := PcFetch(s'.pc).value;
            && f'.pass == f.pass + (if e.BeginPass? then 1 else 0) <= 3
            && (if Decides(s, s') then !f.rebootstrapped && f'.rebootstrapped else f'.rebootstrapped == f.rebootstrapped)
            && (s'.pc.Attempt? ==> !f'.rebootstrapped)
  {
    hide CacheAfter, PendingAfter, StreakAfter, LimiterAfter, WakingAfter, UsersAfter, HistoryAfter, IsMerge, TimerFires;
  }

  /** The writer is inside one call of `refresh` in all of `states[b + 1..m + 1]`. */
  ghost predicate InOneCall(c: Config, states: seq<System>, events: seq<Event>, b: nat, m: nat)
    requires IsRun(c, states, events)
  {
    && b < m <= |events| && events[b] == WriterGoes(Begin)
    && forall k :: b < k <= m ==> PcFetch(states[k].pc).Some?
  }

  /** One call of `refresh` makes at most three passes and at most one rebootstrap of its own. */
  lemma {:induction false} OneCallIsBounded(c: Config, states: seq<System>, events: seq<Event>, b: nat, m: nat)
    requires IsRun(c, states, events) && InOneCall(c, states, events, b, m)
    ensures PassesIn(events, b + 1, m) == PcFetch(states[m].pc).value.pass <= 3
    ensures DecisionsIn(states, b + 1, m) == (if PcFetch(states[m].pc).value.rebootstrapped then 1 else 0)
    ensures states[m].pc.Attempt? ==> !PcFetch(states[m].pc).value.rebootstrapped
    decreases m
  {
    hide IsStep;
    var e := events[m - 1];
    assert IsStep(c, states[m - 1], e, states[m]);
    if m == b + 1 {
      CallBegins(c, states[b], states[b + 1]);
    } else {
      OneCallIsBounded(c, states, events, b, m - 1);
      if e.WriterGoes? {
        WriterContinues(c, states[m - 1], states[m], e.go);
      } else {
        EnvContinues(c, states[m - 1], states[m], e);
      }
    }
  }

  // ---- unreachability ----

  /** At `i` the writer, unable to connect, decides to rebootstrap. */
  ghost predicate UnreachableAt(states: seq<System>, events: seq<Event>, i: nat)
    requires |states| == |events| + 1
  {
    i < |events| && events[i] == WriterGoes(ConnectFails) && states[i + 1].pc.Resetting?
  }

  /** A writer that has to reset does nothing else first. */
  lemma {:induction false} ResetComesFirst(c: Config, states: seq<System>, events: seq<Event>, i: nat, j: nat)
    returns (k: nat)
    requires IsRun(c, states, events) && i < j < |states|
    requires states[i].pc.Resetting? && states[i].pc.phase == Sleeping && !states[j].pc.Resetting?
    ensures i <= k < j && events[k] == WriterGoes(ResetWrite)
    decreases j - i
  {
    hide CacheAfter, PendingAfter, StreakAfter, LimiterAfter, WakingAfter, UsersAfter, HistoryAfter, IsMerge;
    assert IsStep(c, states[i], events[i], states[i + 1]);
    if events[i] == WriterGoes(ResetWrite) {
      k := i;
    } else {
      assert states[i + 1].pc == states[i].pc;
      k := ResetComesFirst(c, states, events, i + 1, j);
    }
  }

  /** A broker map that is empty at `k` and not at `j` was filled by one write in between. */
  lemma {:induction false} RefillHappens(c: Config, states: seq<System>, events: seq<Event>, k: nat, j: nat)
    returns (m: nat)
    requires IsRun(c, states, events) && k < j < |states|
    requires states[k].cache.brokers == map[] && states[j].cache.brokers != map[]
    ensures k <= m < j
    ensures states[m].cache.brokers == map[] && states[m + 1].cache.brokers != map[]
    ensures events[m].LeaderHint? || (events[m].WriterGoes? && events[m].go.Apply?)
    decreases j - k
  {
    hide IsStep;
    assert IsStep(c, states[k], events[k], states[k + 1]);
    if states[k + 1].cache.brokers != map[] {
      m := k;
      OnlyWritesFill(c, states[k], states[k + 1], events[k]);
    } else {
      m := RefillHappens(c, states, events, k + 1, j);
    }
  }

  lemma OnlyWritesFill(c: Config, s: System, s': System, e: Event)
    requires IsStep(c, s, e, s') && s.cache.brokers == map[] && s'.cache.brokers != map[]
    ensures e.LeaderHint? || (e.WriterGoes? && e.go.Apply?)
  {
    hide PcAfter, PendingAfter, StreakAfter, LimiterAfter, WakingAfter, UsersAfter, HistoryAfter;
  }

  lemma ResetEmpties(c: Config, s: System, s': System)
    requires IsStep(c, s, WriterGoes(ResetWrite), s')
    ensures s'.cache.brokers == map[]
  {
    hide PcAfter, PendingAfter, StreakAfter, LimiterAfter, WakingAfter, UsersAfter, HistoryAfter;
  }

  /** Unable to connect, the writer rebootstraps only from a non-empty broker map. */
  lemma UnreachableHadBrokers(c: Config, s: System, s': System)
    requires IsStep(c, s, WriterGoes(ConnectFails), s') && s'.pc.Resetting?
    ensures s.pc.Connecting? && s.cache.brokers != map[] && s'.pc.phase == Sleeping
  {
    hide CacheAfter, PendingAfter, StreakAfter, LimiterAfter, WakingAfter, UsersAfter, HistoryAfter;
  }

  /**
   A rebootstrap for unreachability cannot repeat until, after its reset, some
   hint or applied response has made the broker map non-empty again.
   */
  lemma UnreachableNeedsRefill(c: Config, states: seq<System>, events: seq<Event>, i: nat, j: nat)
    returns (k: nat, m: nat)
    requires IsRun(c, states, events) && i < j
    requires UnreachableAt(states, events, i) && UnreachableAt(states, events, j)
    ensures i < k < m < j && events[k] == WriterGoes(ResetWrite)
    ensures states[m].cache.brokers == map[] && states[m + 1].cache.brokers != map[]
    ensures events[m].LeaderHint? || (events[m].WriterGoes? && events[m].go.Apply?)
  {
    hide IsStep;
    assert IsStep(c, states[i], events[i], states[i + 1]) && IsStep(c, states[j], events[j], states[j + 1]);
    UnreachableHadBrokers(c, states[i], states[i + 1]);
    UnreachableHadBrokers(c, states[j], states[j + 1]);
    k := ResetComesFirst(c, states, events, i + 1, j);
    ResetEmpties(c, states[k], states[k + 1]);
    m := RefillHappens(c, states, events, k + 1, j);
  }

  // ---- the rate of fetches ----

  predicate IsFinish(e: Event) {
    e.WriterGoes? && e.go.Finish?
  }

  /** How many fetches in a row have failed by `i`, as many as the counter can count. */
  ghost function FailureStreak(states: seq<System>, events: seq<Event>, i: nat): nat
    requires i < |states| == |events| + 1
  {
    if i == 0 then 0
    else if IsFinish(events[i - 1]) && states[i - 1].pc.Finished? then
      if states[i - 1].pc.result.Some? then 0
      else if FailureStreak(states, events, i - 1) < U32_MAX then FailureStreak(states, events, i - 1) + 1
      else U32_MAX
    else FailureStreak(states, events, i - 1)
  }

  /** The limiter counts the streak of the run. */
  lemma {:induction false} LimiterCounts(c: Config, states: seq<System>, events: seq<Event>, i: nat)
    requires IsRun(c, states, events) && i < |states| && c.policy.Some?
    ensures states[i].limiter.failures == FailureStreak(states, events, i)
  {
    hide CacheAfter, PendingAfter, PcAfter, StreakAfter, WakingAfter, UsersAfter, HistoryAfter, Delay, IsMerge;
    if i > 0 {
      LimiterCounts(c, states, events, i - 1);
      assert IsStep(c, states[i - 1], events[i - 1], states[i]);
    }
  }

  lemma StepTime(c: Config, s: System, s': System, e: Event)
    requires IsStep(c, s, e, s')
    ensures s'.time >= s.time
    ensures !IsFinish(e) ==> s'.limiter == s.limiter
  {
    hide CacheAfter, PendingAfter, PcAfter, StreakAfter, WakingAfter, UsersAfter, HistoryAfter, Delay, IsMerge;
  }

  lemma {:induction false} LimiterKept(c: Config, states: seq<System>, events: seq<Event>, i: nat, k: nat)
    requires IsRun(c, states, events) && i <= k < |states|
    requires forall j :: i <= j < k ==> !IsFinish(events[j])
    ensures states[k].limiter == states[i].limiter && states[k].time >= states[i].time
    decreases k
  {
    hide IsStep;
    if i < k {
      LimiterKept(c, states, events, i, k - 1);
      assert IsStep(c, states[k - 1], events[k - 1], states[k]);
      StepTime(c, states[k - 1], states[k], events[k - 1]);
    }
  }

  /** What the policy asks for after a fetch that completed at `i` and drew `draw`. */
  ghost function DelayAfter(p: Policy, states: seq<System>, events: seq<Event>, i: nat, draw: real): real
    requires i < |events| && |states| == |events| + 1
  {
    Delay(p, if FailureStreak(states, events, i + 1) == 0 then 1 else FailureStreak(states, events, i + 1), draw)
  }

  lemma FinishDraws(c: Config, s: System, s': System, draw: real)
    requires IsStep(c, s, WriterGoes(Finish(draw)), s') && c.policy.Some?
    ensures IsDraw(draw) && s'.time == s.time && s'.limiter.lastCompleted == Some(s.time)
    ensures s'.limiter.delay == Delay(c.policy.value, if s'.limiter.failures == 0 then 1 else s'.limiter.failures, draw)
  {
    hide CacheAfter, PendingAfter, PcAfter, StreakAfter, WakingAfter, UsersAfter, HistoryAfter, Delay;
  }

  lemma TakeWaits(c: Config, s: System, s': System)
    requires IsStep(c, s, WriterGoes(Take), s') && c.policy.Some?
    ensures Allows(s.limiter, s.time)
  {
    hide Step;
  }

  /**
   The next batch is taken no sooner than the policy's delay after a fetch
   completed: its point on the curve is the number of failures in a row.
   */
  lemma FetchesAreSpaced(c: Config, states: seq<System>, events: seq<Event>, i: nat, k: nat, draw: real)
    requires IsRun(c, states, events) && i < k < |events| && c.policy.Some?
    requires events[i] == WriterGoes(Finish(draw)) && events[k] == WriterGoes(Take)
    requires forall j :: i < j < k ==> !IsFinish(events[j])
    ensures (states[k].time - states[i].time) as real >= DelayAfter(c.policy.value, states, events, i, draw)
    ensures states[k].time >= states[i].time + c.policy.value.initial
  {
    hide Delay, IsStep, FailureStreak;
    LimiterCounts(c, states, events, i + 1);
    LimiterKept(c, states, events, i + 1, k);
    assert IsStep(c, states[i], events[i], states[i + 1]) && IsStep(c, states[k], events[k], states[k + 1]);
    FinishDraws(c, states[i], states[i + 1], draw);
    TakeWaits(c, states[k], states[k + 1]);
    var n := FailureStreak(states, events, i + 1);
    DelayBounds(c.policy.value, if n == 0 then 1 else n, draw);
  }
}
