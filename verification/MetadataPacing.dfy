/** How far apart the failure-streak timer fires, and exactly when the trigger is kept. */
module MetadataPacing {
  import opened Wrappers
  import opened Backoff
  import opened MetadataProtocol
  import opened MetadataDriving

  /** The timer fires at this event. */
  ghost predicate FiresIn(c: Config, s: System, e: Event) {
    e.WriterGoes? && e.go.CheckTimer? && s.pc.Attempt? && TimerFires(c, s, e.go.jitter)
  }

  ghost predicate FiresAt(c: Config, states: seq<System>, events: seq<Event>, i: nat)
    requires |states| == |events| + 1
  {
    i < |events| && FiresIn(c, states[i], events[i])
  }

  lemma FiringResets(c: Config, s: System, s': System, e: Event)
    requires IsStep(c, s, e, s') && FiresIn(c, s, e)
    ensures s'.pc == Rebootstrap(s.pc.f, Timer) && s'.time == s.time && s'.users == s.users && s'.closed == s.closed
  {
    hide CacheAfter, PendingAfter, StreakAfter, LimiterAfter, WakingAfter, HistoryAfter;
  }

  lemma StepTime(c: Config, s: System, s': System, e: Event)
    requires IsStep(c, s, e, s')
    ensures s.time <= s'.time && (s.closed ==> s'.closed)
  {
    hide CacheAfter, PendingAfter, PcAfter, StreakAfter, LimiterAfter, WakingAfter, UsersAfter, HistoryAfter;
  }

  // ---- the readings stored after a firing ----

  ghost predicate StoresAtLeast(s: System, e: Event, bound: nat) {
    e.UserStores? && e.u in s.users && s.users[e.u].Stamped? ==> s.users[e.u].at >= bound
  }

  /** Every user rebootstrap that stores between `i` and `k` read the clock at `bound` or later. */
  ghost predicate StoresFrom(states: seq<System>, events: seq<Event>, i: nat, k: nat, bound: nat)
    requires |states| == |events| + 1
  {
    forall q :: i < q < k && q < |events| ==> StoresAtLeast(states[q], events[q], bound)
  }

  /** The streak start, and the reading a rebootstrap is about to store, are not before `bound`. */
  ghost predicate StartsFrom(s: System, bound: nat) {
    && bound <= s.time
    && (s.pc.Resetting? && s.pc.phase.Stamped? ==> s.pc.phase.at >= bound)
    && (|| (s.pc.Resetting? && s.pc.reason == Timer)
        || s.attemptStart.None? || s.attemptStart.value >= bound)
  }

  lemma StepKeepsStart(c: Config, s: System, s': System, e: Event, bound: nat)
    requires IsStep(c, s, e, s') && StartsFrom(s, bound) && StoresAtLeast(s, e, bound)
    ensures StartsFrom(s', bound)
  {
    hide CacheAfter, PendingAfter, LimiterAfter, WakingAfter, UsersAfter, HistoryAfter;
  }

  lemma {:induction false} StartAfterFire(c: Config, states: seq<System>, events: seq<Event>, i: nat, m: nat, bound: nat)
    requires IsRun(c, states, events) && FiresAt(c, states, events, i)
    requires i < m < |states| && bound <= states[i].time && StoresFrom(states, events, i, m, bound)
    ensures StartsFrom(states[m], bound)
    decreases m
  {
    hide IsStep, FiresIn;
    var e := events[m - 1];
    assert IsStep(c, states[m - 1], e, states[m]);
    if m > i + 1 {
      assert StoresAtLeast(states[m - 1], e, bound);
      StartAfterFire(c, states, events, i, m - 1, bound);
      StepKeepsStart(c, states[m - 1], states[m], e, bound);
    } else {
      FiringResets(c, states[i], states[m], e);
    }
  }

  /**
   Two rebootstraps fired by the timer are at least the trigger apart, counted
   from `bound`: the earlier firing itself, unless a user's rebootstrap stores
   a clock reading it took before that.
   */
  lemma TimerIsPaced(c: Config, states: seq<System>, events: seq<Event>, i: nat, k: nat, bound: nat)
    requires IsRun(c, states, events) && i < k
    requires FiresAt(c, states, events, i) && FiresAt(c, states, events, k)
    requires bound <= states[i].time && StoresFrom(states, events, i, k, bound)
    ensures states[k].time >= bound + c.trigger
  {
    hide IsStep;
    StartAfterFire(c, states, events, i, k, bound);
  }

  /** No user holds a clock reading from before `bound`. */
  ghost predicate ReadingsFrom(s: System, bound: nat) {
    bound <= s.time && forall u :: u in s.users && s.users[u].Stamped? ==> s.users[u].at >= bound
  }

  lemma StepKeepsReadings(c: Config, s: System, s': System, e: Event, bound: nat)
    requires IsStep(c, s, e, s') && ReadingsFrom(s, bound)
    ensures ReadingsFrom(s', bound) && StoresAtLeast(s, e, bound)
  {
    hide CacheAfter, PendingAfter, PcAfter, StreakAfter, LimiterAfter, WakingAfter, HistoryAfter;
  }

  lemma {:induction false} ReadingsStay(c: Config, states: seq<System>, events: seq<Event>, i: nat, k: nat, bound: nat)
    requires IsRun(c, states, events) && i <= k < |states| && ReadingsFrom(states[i], bound)
    ensures ReadingsFrom(states[k], bound)
    decreases k
  {
    hide IsStep, ReadingsFrom;
    if i < k {
      ReadingsStay(c, states, events, i, k - 1, bound);
      assert IsStep(c, states[k - 1], events[k - 1], states[k]);
      StepKeepsReadings(c, states[k - 1], states[k], events[k - 1], bound);
    }
  }

  /** Readings taken after a firing are no older than it. */
  lemma FreshReadingsPace(c: Config, states: seq<System>, events: seq<Event>, i: nat, k: nat)
    requires IsRun(c, states, events) && i < k && FiresAt(c, states, events, i) && FiresAt(c, states, events, k)
    requires ReadingsFrom(states[i + 1], states[i].time)
    ensures states[k].time >= states[i].time + c.trigger
  {
    hide IsStep, ReadingsFrom, FiresIn;
    forall q | i < q < k && q < |events| ensures StoresAtLeast(states[q], events[q], states[i].time) {
      ReadingsStay(c, states, events, i + 1, q, states[i].time);
      assert IsStep(c, states[q], events[q], states[q + 1]);
      StepKeepsReadings(c, states[q], states[q + 1], events[q], states[i].time);
    }
    TimerIsPaced(c, states, events, i, k, states[i].time);
  }

  // ---- a closed handle ----

  /** A closed handle lets the writer finish its fetch, and start no other. */
  ghost predicate Closing(s: System) {
    && s.closed
    && !s.pc.Open? && !s.pc.Parked? && !s.pc.Ready? && !s.pc.Taken? && !s.pc.Admitted? && !s.pc.Attempt?
    && (s.pc.Resetting? ==> s.pc.resume.ToPass?)
  }

  lemma StepKeepsClosing(c: Config, s: System, s': System, e: Event)
    requires IsStep(c, s, e, s') && Closing(s)
    ensures Closing(s')
  {
    hide CacheAfter, PendingAfter, StreakAfter, LimiterAfter, WakingAfter, UsersAfter, HistoryAfter;
  }

  lemma {:induction false} ClosingStays(c: Config, states: seq<System>, events: seq<Event>, i: nat, k: nat)
    requires IsRun(c, states, events) && i <= k < |states| && Closing(states[i])
    ensures Closing(states[k])
    decreases k
  {
    hide IsStep, Closing;
    if i < k {
      ClosingStays(c, states, events, i, k - 1);
      assert IsStep(c, states[k - 1], events[k - 1], states[k]);
      StepKeepsClosing(c, states[k - 1], states[k], events[k - 1]);
    }
  }

  // ---- a slow backoff ----

  /** The shortest delay between fetches is no shorter than the trigger. */
  predicate SlowBackoff(c: Config) {
    c.policy.Some? && c.policy.value.initial >= c.trigger
  }

  /** Inside a call of `refresh`, past the check of the timer. */
  predicate Fetching(pc: Pc) {
    || (pc.Resetting? && pc.resume.ToPass?)
    || pc.Pass? || pc.Connecting? || pc.InFlight? || pc.Received? || pc.Cleared? || pc.Finished?
  }

  /** Between a fetch and the next batch. */
  predicate BetweenBatches(pc: Pc) {
    pc.Answering? || pc.Top? || pc.Open? || pc.Parked? || pc.Ready? || pc.Failing? || pc.Stopped?
  }

  /** Since a firing at `from`: its fetch is not over, or the backoff counts from its end, or has been waited out. */
  ghost predicate Slowed(p: Policy, s: System, from: nat) {
    && from <= s.time
    && (|| Fetching(s.pc)
        || s.time >= from + p.initial
        || (&& BetweenBatches(s.pc) && s.limiter.lastCompleted.Some? && s.limiter.lastCompleted.value >= from
            && s.limiter.delay >= p.initial as real))
  }

  lemma StepKeepsSlowed(c: Config, s: System, s': System, e: Event, from: nat)
    requires IsStep(c, s, e, s') && c.policy.Some? && Slowed(c.policy.value, s, from)
    ensures Slowed(c.policy.value, s', from)
  {
    hide CacheAfter, PendingAfter, StreakAfter, WakingAfter, UsersAfter, HistoryAfter, Delay;
    if e.WriterGoes? && e.go.Finish? {
      var ok := s.pc.result.Some?;
      DelayBounds(c.policy.value, if ok then 1 else s'.limiter.failures, e.go.draw);
    }
  }

  lemma {:induction false} SlowedStays(c: Config, states: seq<System>, events: seq<Event>, i: nat, k: nat, from: nat)
    requires IsRun(c, states, events) && i <= k < |states| && c.policy.Some? && Slowed(c.policy.value, states[i], from)
    ensures Slowed(c.policy.value, states[k], from)
    decreases k
  {
    hide IsStep, Slowed;
    if i < k {
      SlowedStays(c, states, events, i, k - 1, from);
      assert IsStep(c, states[k - 1], events[k - 1], states[k]);
      StepKeepsSlowed(c, states[k - 1], states[k], events[k - 1], from);
    }
  }

  // ---- exactly when the trigger is kept ----

  /** A user holds a clock reading from before the firing. */
  ghost predicate Stale(s: System, u: nat) {
    u in s.users && s.users[u].Stamped? && s.users[u].at < s.time
  }

  /** Whatever happens after a firing that ends the run, the next one keeps its distance. */
  ghost predicate PacedFrom(c: Config, states: seq<System>, events: seq<Event>)
    requires |states| == |events| + 1
  {
    forall states': seq<System>, events': seq<Event>, k: nat ::
      Continues(c, states, events, states', events') && |events| <= k && FiresAt(c, states', events', k) ==>
        states'[k].time >= states[|events|].time + c.trigger
  }

  /** What a caller can check at the firing. */
  ghost predicate CanBreak(c: Config, s: System) {
    c.trigger > 0 && !s.closed && !SlowBackoff(c) && exists u :: Stale(s, u)
  }

  lemma {:induction false} TimeRuns(c: Config, states: seq<System>, events: seq<Event>, i: nat, k: nat)
    requires IsRun(c, states, events) && i <= k < |states|
    ensures states[i].time <= states[k].time
    decreases k
  {
    hide IsStep;
    if i < k {
      TimeRuns(c, states, events, i, k - 1);
      assert IsStep(c, states[k - 1], events[k - 1], states[k]);
      StepTime(c, states[k - 1], states[k], events[k - 1]);
    }
  }

  /** Without these conditions every later firing keeps its distance. */
  lemma Unbreakable(c: Config, states: seq<System>, events: seq<Event>, i: nat, k: nat)
    requires IsRun(c, states, events) && i < k && FiresAt(c, states, events, i) && FiresAt(c, states, events, k)
    requires !CanBreak(c, states[i + 1])
    ensures states[k].time >= states[i].time + c.trigger
  {
    hide IsStep;
    var s := states[i + 1];
    assert IsStep(c, states[i], events[i], s);
    FiringResets(c, states[i], s, events[i]);
    TimeRuns(c, states, events, i, k);
    if s.closed {
      ClosingStays(c, states, events, i + 1, k);
    } else if SlowBackoff(c) {
      SlowedStays(c, states, events, i + 1, k, states[i].time);
    } else if c.trigger > 0 {
      forall u | u in s.users && s.users[u].Stamped? ensures s.users[u].at >= states[i].time {
        assert !Stale(s, u);
      }
      FreshReadingsPace(c, states, events, i, k);
    }
  }

  /** A fetch whose first pass is still to come: nothing was counted yet. */
  lemma {:induction false} AttemptIsFresh(c: Config, states: seq<System>, events: seq<Event>, i: nat)
    requires IsRun(c, states, events) && i < |states|
    ensures states[i].pc.Attempt? ==> states[i].pc.f.pass == 0
  {
    hide CacheAfter, PendingAfter, StreakAfter, LimiterAfter, WakingAfter, UsersAfter, HistoryAfter;
    if i > 0 {
      AttemptIsFresh(c, states, events, i - 1);
      assert IsStep(c, states[i - 1], events[i - 1], states[i]);
    }
  }

  /** A number no caller has used. */
  lemma {:induction false} FreshWaiter(s: set<nat>) returns (w: nat)
    ensures forall x :: x in s ==> x < w
    decreases |s|
  {
    w := 0;
    if x :| x in s {
      var rest := s - {x};
      var b := FreshWaiter(rest);
      w := if x < b then b else x + 1;
      forall y | y in s ensures y < w {
        assert y == x || y in rest;
      }
    }
  }

  /** From a firing, with everything against it: the fetch succeeds at once and its waiters are answered. */
  lemma FetchEnds(c: Config, s: System) returns (t: System)
    requires s.pc.Resetting? && s.pc.phase == Sleeping && s.pc.resume.ToPass? && s.pc.resume.fetch.pass < 3
    ensures Reach(c, s, t) && Keeps(s, t) && t.pc == Top
    ensures c.policy.Some? ==>
              t.limiter.lastCompleted == Some(s.time) && t.limiter.delay == c.policy.value.initial as real
  {
    hide Reach;
    var a := Resets(c, s);
    var b := Succeeds(c, a, s.time);
    ReachThrough(c, s, a, b);
    t := Answers(c, b);
    ReachThrough(c, s, b, t);
  }

  /** A new request is taken up to the check of the timer once the backoff is over. */
  lemma NextFetchBegins(c: Config, s: System, dt: nat) returns (t: System)
    requires s.pc == Top && !s.closed
    requires c.policy.Some? && s.limiter.lastCompleted.Some? ==>
               SatSub(s.time + dt, s.limiter.lastCompleted.value) as real >= s.limiter.delay
    ensures Reach(c, s, t) && t.pc.Attempt? && t.users == s.users && !t.closed && t.time == s.time + dt
  {
    hide Reach;
    var used := s.h.queued.Keys + s.h.cancelled;
    var w := FreshWaiter(used);
    assert w !in used;
    var a := Requests(c, s, w);
    var b := Waits(c, a, dt);
    ReachThrough(c, s, a, b);
    t := Takes(c, b, w);
    ReachThrough(c, s, b, t);
  }

  /** A stale reading makes the timer fire again before the trigger has passed. */
  lemma StaleBreaks(c: Config, s: System, u: nat) returns (t: System)
    requires c.rebootstrapEnabled && c.trigger > 0 && !s.closed && !SlowBackoff(c) && Stale(s, u)
    requires s.pc.Resetting? && s.pc.phase == Sleeping && s.pc.resume.ToPass? && s.pc.resume.fetch.pass < 3
    ensures Reach(c, s, t) && t.pc.Attempt? && TimerFires(c, t, 0) && t.time < s.time + c.trigger
  {
    hide Reach;
    var at := s.users[u].at;
    var pause := if c.policy.Some? then c.policy.value.initial else 0;
    var dt := if at + c.trigger > s.time + pause then at + c.trigger - s.time else pause;
    var a := FetchEnds(c, s);
    var b := NextFetchBegins(c, a, dt);
    ReachThrough(c, s, a, b);
    t := Stores(c, b, u);
    ReachThrough(c, s, b, t);
  }

  /**
   After a firing, exactly: every way the run can go on keeps the next firing
   the trigger away, if and only if the trigger is zero, or the handle is
   closed, or the backoff is as long as the trigger, or no user's rebootstrap
   holds a clock reading from before the firing that it has still to store.
   */
  lemma PacedFromIff(c: Config, states: seq<System>, events: seq<Event>)
    requires IsRun(c, states, events) && events != [] && FiresAt(c, states, events, |events| - 1)
    ensures PacedFrom(c, states, events) <==> !CanBreak(c, states[|events|])
  {
    hide IsStep;
    var i, s := |events| - 1, states[|events|];
    assert IsStep(c, states[i], events[i], s);
    FiringResets(c, states[i], s, events[i]);
    if CanBreak(c, s) {
      var u :| Stale(s, u);
      AttemptIsFresh(c, states, events, i);
      var t := StaleBreaks(c, s, u);
      var states', events' := Continued(c, states, events, t);
      FiresNext(c, states, events, states', events');
    } else {
      forall states': seq<System>, events': seq<Event>, k: nat |
        Continues(c, states, events, states', events') && |events| <= k && FiresAt(c, states', events', k)
        ensures states'[k].time >= s.time + c.trigger
      {
        assert states'[i] == states[i] && events'[i] == events[i] && states'[i + 1] == s;
        Unbreakable(c, states', events', i, k);
      }
    }
  }

  /** A run that ends just before the timer fires can fire. */
  lemma FiresNext(c: Config, states: seq<System>, events: seq<Event>, states': seq<System>, events': seq<Event>)
    requires Continues(c, states, events, states', events') && |states| == |events| + 1
    requires var t := states'[|events'|]; t.pc.Attempt? && TimerFires(c, t, 0) && t.time < states[|events|].time + c.trigger
    ensures !PacedFrom(c, states, events)
  {
    hide IsStep;
    var more, evs := FireOnce(c, states', events');
    assert Continues(c, states, events, more, evs) && FiresAt(c, more, evs, |events'|);
  }

  lemma FireOnce(c: Config, states: seq<System>, events: seq<Event>)
    returns (states': seq<System>, events': seq<Event>)
    requires IsRun(c, states, events) && states[|events|].pc.Attempt?
    ensures IsRun(c, states', events') && states <= states' && events' == events + [WriterGoes(CheckTimer(0))]
  {
    hide Step;
    var e := WriterGoes(CheckTimer(0));
    states', events' := states + [Step(c, states[|events|], e)], events + [e];
    forall i | 0 <= i < |events'| ensures IsStep(c, states'[i], events'[i], states'[i + 1]) {
      if i < |events| {
        assert events'[i] == events[i] && states'[i] == states[i] && states'[i + 1] == states[i + 1];
      }
    }
  }

  // ---- which configurations are always paced ----

  /** In every run, two firings of the timer are at least the trigger apart. */
  ghost predicate AlwaysPaced(c: Config) {
    forall states: seq<System>, events: seq<Event>, i: nat, k: nat ::
      IsRun(c, states, events) && i < k && FiresAt(c, states, events, i) && FiresAt(c, states, events, k) ==>
        states[k].time >= states[i].time + c.trigger
  }

  lemma UserReads(c: Config, s: System, u: nat) returns (t: System)
    requires u !in s.users
    ensures Reach(c, s, t) && t.users == s.users[u := Stamped(s.time)]
    ensures t.time == s.time && t.closed == s.closed && t.pc == s.pc && t.limiter == s.limiter
  {
    hide Reach, CacheAfter, PendingAfter, StreakAfter, WakingAfter, HistoryAfter;
    var a := Step(c, s, UserCalls(u));
    ReachByStep(c, s, UserCalls(u), a);
    var b := Step(c, a, UserWrites(u));
    ReachByStep(c, a, UserWrites(u), b);
    ReachThrough(c, s, a, b);
    t := Step(c, b, UserReadsClock(u));
    ReachByStep(c, b, UserReadsClock(u), t);
    ReachThrough(c, s, b, t);
  }

  /** Two users read the clock; one stores its reading a trigger later, and the timer fires on the other's. */
  lemma StraddleHappens(c: Config) returns (states: seq<System>, events: seq<Event>)
    requires c.rebootstrapEnabled && c.trigger > 0
    ensures IsRun(c, states, events) && events != [] && FiresAt(c, states, events, |events| - 1)
    ensures !states[|events|].closed && Stale(states[|events|], 0)
  {
    hide Reach, IsStep;
    var s := Initial(0);
    var a := UserReads(c, s, 0);
    var b := UserReads(c, a, 1);
    ReachThrough(c, s, a, b);
    var d := NextFetchBegins(c, b, c.trigger);
    ReachThrough(c, s, b, d);
    var t := Stores(c, d, 1);
    ReachThrough(c, s, d, t);
    states, events := Continued(c, [s], [], t);
    var before, done := states, events;
    states, events := FireOnce(c, states, events);
    var i := |done|;
    assert states[i] == before[i] && events[i] == WriterGoes(CheckTimer(0));
    assert IsStep(c, states[i], events[i], states[i + 1]);
    FiringResets(c, states[i], states[i + 1], events[i]);
  }

  /** The configurations all of whose runs are paced have no timer, a zero trigger, or a backoff as long as the trigger. */
  lemma AlwaysPacedIff(c: Config)
    ensures AlwaysPaced(c) <==> !c.rebootstrapEnabled || c.trigger == 0 || SlowBackoff(c)
  {
    hide IsStep;
    if c.rebootstrapEnabled && c.trigger > 0 && !SlowBackoff(c) {
      var states, events := StraddleHappens(c);
      PacedFromIff(c, states, events);
      var states': seq<System>, events': seq<Event>, k: nat :| Continues(c, states, events, states', events') && |events| <= k
        && FiresAt(c, states', events', k) && states'[k].time < states[|events|].time + c.trigger;
      var i := |events| - 1;
      assert states'[i] == states[i] && events'[i] == events[i] && FiresAt(c, states', events', i);
      assert IsStep(c, states[i], events[i], states[i + 1]);
      FiringResets(c, states[i], states[i + 1], events[i]);
    } else {
      forall states: seq<System>, events: seq<Event>, i: nat, k: nat |
        IsRun(c, states, events) && i < k && FiresAt(c, states, events, i) && FiresAt(c, states, events, k)
        ensures states[k].time >= states[i].time + c.trigger
      {
        Unbreakable(c, states, events, i, k);
      }
    }
  }
}
