/**
 Operations and waiters around one barrier, as a state machine.

 Ending an operation is two events: the decrement under the lock and the
 broadcast after it. Waiting is a loop of events: register for the next
 broadcast, check under the lock, park until notified.
 */
module BarrierProtocol {
  import opened Wrappers
  import opened Barrier

  datatype Op = Live(generation: nat) | Completing(generation: nat) | Over(generation: nat)

  datatype Phase = Looping | Registered(notified: bool) | Parked(notified: bool) | Returned

  datatype Waiter = Waiter(generation: nat, phase: Phase)

  /**
   `tickets` records, for every generation handed out, which operations had
   started by then; `closed` is the generation the winning close was given.
   */
  datatype System = System(
    bar: Barrier,
    ops: map<nat, Op>,
    waiters: map<nat, Waiter>,
    tickets: map<nat, set<nat>>,
    closed: Option<nat>)

  datatype Event =
    | StartOp(op: nat)
    | TakeSnapshot
    | BeginClose
    | Decrement(op: nat)
    | Broadcast(op: nat)
    | Wait(w: nat, generation: nat)
    | Register(w: nat)
    | Check(w: nat)
    | Wake(w: nat)
    | Abandon(w: nat)

  const INITIAL := System(NEW_BARRIER, map[], map[], map[], None)

  predicate InPhase(s: System, w: nat, p: Phase) {
    w in s.waiters && s.waiters[w].phase == p
  }

  predicate Enabled(s: System, e: Event) {
    match e
    case StartOp(op) => op !in s.ops
    case TakeSnapshot => true
    case BeginClose => true
    case Decrement(op) => op in s.ops && s.ops[op].Live?
    case Broadcast(op) => op in s.ops && s.ops[op].Completing?
    case Wait(w, g) => w !in s.waiters && g in s.tickets
    case Register(w) => InPhase(s, w, Looping)
    case Check(w) => w in s.waiters && s.waiters[w].phase.Registered?
    case Wake(w) => InPhase(s, w, Parked(true))
    case Abandon(w) => w in s.waiters && !s.waiters[w].phase.Returned?
  }

  /** `notify_waiters`: everyone registered by now is notified. */
  function Notified(waiter: Waiter): Waiter {
    match waiter.phase
    case Registered(_) => waiter.(phase := Registered(true))
    case Parked(_) => waiter.(phase := Parked(true))
    case _ => waiter
  }

  function SetPhase(s: System, w: nat, p: Phase): System
    requires w in s.waiters
  {
    s.(waiters := s.waiters[w := s.waiters[w].(phase := p)])
  }

  ghost function Step(s: System, e: Event): System
    requires Enabled(s, e)
  {
    match e
    case StartOp(op) =>
      if s.bar.closing then s
      else s.(bar := Started(s.bar), ops := s.ops[op := Live(s.bar.current)])
    case TakeSnapshot =>
      s.(bar := Ended(s.bar), tickets := s.tickets[s.bar.current := s.ops.Keys])
    case BeginClose =>
      if s.bar.closing then s
      else s.(bar := Ended(s.bar).(closing := true), tickets := s.tickets[s.bar.current := s.ops.Keys],
              closed := Some(s.bar.current))
    case Decrement(op) =>
      var g := s.ops[op].generation;
      s.(bar := Completed(s.bar, g), ops := s.ops[op := Completing(g)])
    case Broadcast(op) =>
      s.(ops := s.ops[op := Over(s.ops[op].generation)],
         waiters := MapValues(s.waiters, Notified))
    case Wait(w, g) => s.(waiters := s.waiters[w := Waiter(g, Looping)])
    case Register(w) => SetPhase(s, w, Registered(false))
    case Check(w) =>
      SetPhase(s, w, if Drained(s.bar, s.waiters[w].generation) then Returned
                     else Parked(s.waiters[w].phase.notified))
    case Wake(w) => SetPhase(s, w, Looping)
    case Abandon(w) => s.(waiters := s.waiters - {w})
  }

  ghost predicate IsStep(s: System, e: Event, s': System) {
    Enabled(s, e) && s' == Step(s, e)
  }

  ghost predicate IsRun(states: seq<System>, events: seq<Event>) {
    && |states| == |events| + 1
    && states[0] == INITIAL
    && forall i :: 0 <= i < |events| ==> IsStep(states[i], events[i], states[i + 1])
  }

  // ---- the invariant ----

  /** The operations of generation `g` that have not been counted down. */
  function LiveOps(ops: map<nat, Op>, g: nat): set<nat> {
    set op | op in ops && ops[op] == Live(g)
  }

  /** The barrier counts exactly the live operations. */
  ghost predicate Counts(s: System) {
    && (forall g :: Running(s.bar, g) == |LiveOps(s.ops, g)|)
    && (forall g :: g in s.bar.running ==> s.bar.running[g] > 0)
  }

  /** A ticket separates the operations started before it from the later ones by their generation. */
  ghost predicate TicketsSeparate(s: System) {
    && (forall op :: op in s.ops ==> s.ops[op].generation <= s.bar.current)
    && (forall g :: g in s.tickets ==> g < s.bar.current && s.tickets[g] <= s.ops.Keys)
    && (forall g, op :: g in s.tickets && op in s.ops ==> (op in s.tickets[g] <==> s.ops[op].generation <= g))
  }

  ghost predicate CloseSeals(s: System) {
    && (s.bar.closing <==> s.closed.Some?)
    && (s.closed.Some? ==> s.closed.value in s.tickets && s.tickets[s.closed.value] == s.ops.Keys)
  }

  /** Some operation of generation `g` or earlier is running, or sits between its decrement and its broadcast. */
  ghost predicate WakeupDue(s: System, g: nat) {
    exists op :: op in s.ops && s.ops[op].generation <= g && !s.ops[op].Over?
  }

  ghost predicate NoLostWakeup(s: System) {
    forall w :: w in s.waiters && s.waiters[w].phase == Parked(false) ==> WakeupDue(s, s.waiters[w].generation)
  }

  ghost predicate ReturnsDrained(s: System) {
    forall w :: w in s.waiters ==>
      && s.waiters[w].generation in s.tickets
      && (s.waiters[w].phase.Returned? ==> Drained(s.bar, s.waiters[w].generation))
  }

  ghost predicate Inv(s: System) {
    Counts(s) && TicketsSeparate(s) && CloseSeals(s) && NoLostWakeup(s) && ReturnsDrained(s)
  }

  lemma StartCounts(s: System, op: nat)
    requires op !in s.ops && Counts(s)
    ensures Counts(s.(bar := Started(s.bar), ops := s.ops[op := Live(s.bar.current)]))
  {
    forall g ensures Running(Started(s.bar), g) == |LiveOps(s.ops[op := Live(s.bar.current)], g)| {
      assert Running(s.bar, g) == |LiveOps(s.ops, g)|;
      LiveOpsAfterStart(s.ops, op, s.bar.current, g);
    }
  }

  lemma LiveOpsAfterStart(ops: map<nat, Op>, op: nat, current: nat, g: nat)
    requires op !in ops
    ensures |LiveOps(ops[op := Live(current)], g)| == |LiveOps(ops, g)| + if g == current then 1 else 0
  {
    assert LiveOps(ops[op := Live(current)], g) == if g == current then LiveOps(ops, g) + {op} else LiveOps(ops, g);
  }

  lemma DecrementCounts(s: System, op: nat)
    requires op in s.ops && s.ops[op].Live? && Counts(s)
    ensures var g := s.ops[op].generation;
            Counts(s.(bar := Completed(s.bar, g), ops := s.ops[op := Completing(g)]))
  {
    var k := s.ops[op].generation;
    var ops' := s.ops[op := Completing(k)];
    assert op in LiveOps(s.ops, k) && Running(s.bar, k) == |LiveOps(s.ops, k)|;
    forall g ensures Running(Completed(s.bar, k), g) == |LiveOps(ops', g)| {
      assert Running(s.bar, g) == |LiveOps(s.ops, g)|;
      assert LiveOps(ops', g) == if g == k then LiveOps(s.ops, g) - {op} else LiveOps(s.ops, g);
    }
  }

  lemma SameLiveOpsCount(s: System, s': System)
    requires Counts(s) && s'.bar.running == s.bar.running
    requires forall g :: LiveOps(s'.ops, g) == LiveOps(s.ops, g)
    ensures Counts(s')
  {
  }

  lemma StepKeepsCounts(s: System, e: Event)
    requires Enabled(s, e) && Counts(s)
    ensures Counts(Step(s, e))
  {
    if e.StartOp? && !s.bar.closing {
      StartCounts(s, e.op);
    } else if e.Decrement? {
      DecrementCounts(s, e.op);
    } else {
      SameLiveOpsCount(s, Step(s, e));
    }
  }

  /** An undrained generation has a live operation. */
  lemma UndrainedHasLiveOp(s: System, g: nat) returns (op: nat)
    requires Counts(s) && !Drained(s.bar, g)
    ensures op in s.ops && s.ops[op].Live? && s.ops[op].generation <= g
  {
    var k :| k in s.bar.running && k <= g;
    assert Running(s.bar, k) == |LiveOps(s.ops, k)|;
    assert |LiveOps(s.ops, k)| > 0;
    op :| op in LiveOps(s.ops, k);
  }

  lemma LiveOpIsCounted(s: System, op: nat)
    requires Counts(s) && op in s.ops && s.ops[op].Live?
    ensures s.ops[op].generation in s.bar.running
  {
    var k := s.ops[op].generation;
    assert op in LiveOps(s.ops, k);
    assert Running(s.bar, k) == |LiveOps(s.ops, k)|;
  }

  /** A drained generation has none. */
  lemma DrainedHasNoLiveOp(s: System, g: nat, op: nat)
    requires Counts(s) && Drained(s.bar, g) && op in s.ops && s.ops[op].generation <= g
    ensures !s.ops[op].Live?
  {
    if s.ops[op].Live? {
      LiveOpIsCounted(s, op);
    }
  }

  lemma StepKeepsWakeups(s: System, e: Event)
    requires Enabled(s, e) && Counts(s) && NoLostWakeup(s)
    ensures NoLostWakeup(Step(s, e))
  {
    var s' := Step(s, e);
    forall w | w in s'.waiters && s'.waiters[w].phase == Parked(false)
      ensures WakeupDue(s', s'.waiters[w].generation)
    {
      var g := s'.waiters[w].generation;
      if e == Check(w) {
        var op := UndrainedHasLiveOp(s, g);
        assert op in s'.ops && !s'.ops[op].Over?;
      } else {
        assert WakeupDue(s, g);
        var op :| op in s.ops && s.ops[op].generation <= g && !s.ops[op].Over?;
        assert op in s'.ops && s'.ops[op].generation <= g && !s'.ops[op].Over?;
      }
    }
  }

  /** A ticket never changes, and no event makes a drained one undrained again. */
  lemma StepKeepsTicket(s: System, e: Event, g: nat)
    requires Enabled(s, e) && TicketsSeparate(s) && g in s.tickets
    ensures g in Step(s, e).tickets && Step(s, e).tickets[g] == s.tickets[g]
    ensures Drained(s.bar, g) ==> Drained(Step(s, e).bar, g)
  {
  }

  lemma StepKeepsReturns(s: System, e: Event)
    requires Enabled(s, e) && TicketsSeparate(s) && ReturnsDrained(s)
    ensures ReturnsDrained(Step(s, e))
  {
  }

  lemma StepKeepsInv(s: System, e: Event)
    requires Enabled(s, e) && Inv(s)
    ensures Inv(Step(s, e))
  {
    StepKeepsCounts(s, e);
    StepKeepsWakeups(s, e);
    StepKeepsReturns(s, e);
  }

  lemma {:induction false} RunKeepsInv(states: seq<System>, events: seq<Event>, i: nat)
    requires IsRun(states, events) && i < |states|
    ensures Inv(states[i])
  {
    if i > 0 {
      RunKeepsInv(states, events, i - 1);
      assert IsStep(states[i - 1], events[i - 1], states[i]);
      StepKeepsInv(states[i - 1], events[i - 1]);
    } else {
      forall g ensures LiveOps(states[0].ops, g) == {} { }
    }
  }

  // ---- the operations of a run ----

  /** The event starts the operation: shutdown has not begun. */
  ghost predicate StartsAt(states: seq<System>, events: seq<Event>, a: int, op: nat)
    requires |states| == |events| + 1
  {
    0 <= a < |events| && events[a] == StartOp(op) && !states[a].bar.closing
  }

  /** Shutdown has begun exactly when some call began it. */
  lemma {:induction false} ClosingIsExact(states: seq<System>, events: seq<Event>, i: nat)
    requires IsRun(states, events) && i < |states|
    ensures states[i].bar.closing <==> exists j :: 0 <= j < i && events[j] == BeginClose
  {
    if i > 0 {
      ClosingIsExact(states, events, i - 1);
      assert IsStep(states[i - 1], events[i - 1], states[i]);
      if states[i].bar.closing && !states[i - 1].bar.closing {
        assert events[i - 1] == BeginClose;
      }
    }
  }

  lemma StepOps(s: System, e: Event, s': System, op: nat)
    requires IsStep(s, e, s')
    ensures op in s'.ops <==> op in s.ops || (e == StartOp(op) && !s.bar.closing)
    ensures op in s'.ops && s'.ops[op].Live? <==>
              (op in s.ops && s.ops[op].Live? && e != Decrement(op)) || (e == StartOp(op) && !s.bar.closing)
    ensures e == Decrement(op) ==> op in s.ops
    ensures e == StartOp(op) ==> op !in s.ops
  {
  }

  /**
   The operations of the barrier are the calls that started before shutdown
   began; one is live exactly until its decrement.
   */
  lemma {:induction false} OpsAreExact(states: seq<System>, events: seq<Event>, i: nat, op: nat)
    requires IsRun(states, events) && i < |states|
    ensures op in states[i].ops <==> exists a :: a < i && StartsAt(states, events, a, op)
    ensures op in states[i].ops && states[i].ops[op].Live? <==>
              (exists a :: a < i && StartsAt(states, events, a, op)) && forall d :: 0 <= d < i ==> events[d] != Decrement(op)
  {
    hide Step;
    if i > 0 {
      OpsAreExact(states, events, i - 1, op);
      assert IsStep(states[i - 1], events[i - 1], states[i]);
      StepOps(states[i - 1], events[i - 1], states[i], op);
      if events[i - 1] == StartOp(op) && !states[i - 1].bar.closing {
        assert StartsAt(states, events, i - 1, op);
        NoEarlyDecrement(states, events, i - 1, op);
      }
    }
  }

  lemma {:induction false} NoEarlyDecrement(states: seq<System>, events: seq<Event>, i: nat, op: nat)
    requires IsRun(states, events) && i < |states| && op !in states[i].ops
    ensures forall d :: 0 <= d < i ==> events[d] != Decrement(op)
  {
    hide Step;
    if i > 0 {
      assert IsStep(states[i - 1], events[i - 1], states[i]);
      StepOps(states[i - 1], events[i - 1], states[i], op);
      NoEarlyDecrement(states, events, i - 1, op);
    }
  }

  // ---- what the barrier promises ----

  /** `is_drained(g)` is true exactly when every operation started before the call that returned `g` has completed. */
  lemma DrainedIsExact(states: seq<System>, events: seq<Event>, i: nat, g: nat)
    requires IsRun(states, events) && i < |states| && g in states[i].tickets
    ensures Drained(states[i].bar, g) <==> forall op :: op in states[i].tickets[g] ==> op in states[i].ops && !states[i].ops[op].Live?
  {
    RunKeepsInv(states, events, i);
    var s := states[i];
    if Drained(s.bar, g) {
      forall op | op in s.tickets[g] ensures op in s.ops && !s.ops[op].Live? {
        DrainedHasNoLiveOp(s, g, op);
      }
    } else {
      var op := UndrainedHasLiveOp(s, g);
      assert op in s.tickets[g];
    }
  }

  /** Whom a ticket waits for never changes, and once drained it stays drained. */
  lemma {:induction false} DrainedIsStable(states: seq<System>, events: seq<Event>, i: nat, j: nat, g: nat)
    requires IsRun(states, events) && i <= j < |states| && g in states[i].tickets
    ensures g in states[j].tickets && states[j].tickets[g] == states[i].tickets[g]
    ensures Drained(states[i].bar, g) ==> Drained(states[j].bar, g)
    decreases j - i
  {
    if i < j {
      DrainedIsStable(states, events, i, j - 1, g);
      assert TicketsSeparate(states[j - 1]) by { RunKeepsInv(states, events, j - 1); }
      assert IsStep(states[j - 1], events[j - 1], states[j]);
      StepKeepsTicket(states[j - 1], events[j - 1], g);
    }
  }

  /** The ticket a call returns lists exactly the operations started before it. */
  lemma TicketListsStarted(states: seq<System>, events: seq<Event>, i: nat)
    requires IsRun(states, events) && i < |events|
    requires events[i] == TakeSnapshot || (events[i] == BeginClose && !states[i].bar.closing)
    ensures var g := states[i].bar.current;
            g in states[i + 1].tickets && states[i + 1].tickets[g] == states[i].ops.Keys && g !in states[i].tickets
  {
    RunKeepsInv(states, events, i);
    assert IsStep(states[i], events[i], states[i + 1]);
  }

  /** No wakeup is lost: a parked waiter not yet notified has an operation left that will broadcast. */
  lemma ParkedWaiterWillBeWoken(states: seq<System>, events: seq<Event>, i: nat, w: nat)
    requires IsRun(states, events) && i < |states| && InPhase(states[i], w, Parked(false))
    ensures WakeupDue(states[i], states[i].waiters[w].generation)
  {
    RunKeepsInv(states, events, i);
  }

  /** A broadcast reaches everyone who has registered by then, parked or not, and nobody else. */
  lemma BroadcastReachesRegistered(states: seq<System>, events: seq<Event>, i: nat, op: nat, w: nat)
    requires IsRun(states, events) && i < |events| && events[i] == Broadcast(op) && w in states[i].waiters
    ensures w in states[i + 1].waiters && states[i + 1].waiters[w].generation == states[i].waiters[w].generation
    ensures var before, after := states[i].waiters[w].phase, states[i + 1].waiters[w].phase;
            && (before.Registered? ==> after == Registered(true)) && (before.Parked? ==> after == Parked(true))
            && (before == Looping || before == Returned ==> after == before)
  {
    assert IsStep(states[i], events[i], states[i + 1]);
  }

  /** The waiter's next step, if it has one. */
  ghost function Advance(s: System, w: nat): System {
    if w !in s.waiters then s
    else if s.waiters[w].phase == Looping then Step(s, Register(w))
    else if s.waiters[w].phase.Registered? then Step(s, Check(w))
    else if s.waiters[w].phase == Parked(true) then Step(s, Wake(w))
    else s
  }

  /** A waiter of a drained generation that will not have to wait for a notification. */
  ghost predicate NearlyDone(s: System, w: nat) {
    w in s.waiters && Drained(s.bar, s.waiters[w].generation) && s.waiters[w].phase != Parked(false)
  }

  /** A parked waiter goes back to the loop, a looping one registers, a registered one returns. */
  lemma AdvancesOnce(s: System, w: nat)
    requires NearlyDone(s, w)
    ensures NearlyDone(Advance(s, w), w)
    ensures var before, after := s.waiters[w].phase, Advance(s, w).waiters[w].phase;
            && (before.Parked? ==> after == Looping) && (before == Looping ==> after == Registered(false))
            && (before.Registered? || before == Returned ==> after == Returned)
  {
  }

  /** Once its generation is drained and broadcast, a waiter returns after at most three steps of its own. */
  lemma WaiterReturns(states: seq<System>, events: seq<Event>, i: nat, w: nat)
    requires IsRun(states, events) && i < |states| && w in states[i].waiters
    requires !WakeupDue(states[i], states[i].waiters[w].generation)
    ensures InPhase(Advance(Advance(Advance(states[i], w), w), w), w, Returned)
  {
    hide IsStep, Advance;
    RunKeepsInv(states, events, i);
    var s, g := states[i], states[i].waiters[w].generation;
    if !Drained(s.bar, g) {
      var op := UndrainedHasLiveOp(s, g);
      assert false;
    }
    AdvancesOnce(s, w);
    AdvancesOnce(Advance(s, w), w);
    AdvancesOnce(Advance(Advance(s, w), w), w);
  }

  /** At most one `begin_close` wins: a later one hands out no generation and changes nothing. */
  lemma CloseWinsOnce(states: seq<System>, events: seq<Event>, i: nat, j: nat)
    requires IsRun(states, events) && i < j < |events|
    requires events[i] == BeginClose && events[j] == BeginClose
    ensures states[j].bar.closing && states[j + 1] == states[j]
  {
    assert IsStep(states[i], events[i], states[i + 1]);
    ClosedIsSealed(states, events, i + 1, j);
    assert IsStep(states[j], events[j], states[j + 1]);
  }

  /** Once the wait of a winning close has returned, nothing is running and nothing ever starts again. */
  lemma ClosedIsQuiet(states: seq<System>, events: seq<Event>, i: nat, w: nat, j: nat)
    requires IsRun(states, events) && i <= j < |states|
    requires InPhase(states[i], w, Returned) && Some(states[i].waiters[w].generation) == states[i].closed
    ensures forall op :: op in states[j].ops ==> !states[j].ops[op].Live?
    ensures states[j].ops.Keys == states[i].ops.Keys
  {
    var g := states[i].closed.value;
    RunKeepsInv(states, events, i);
    RunKeepsInv(states, events, j);
    ClosedIsSealed(states, events, i, j);
    DrainedIsStable(states, events, i, j, g);
    forall op | op in states[j].ops ensures !states[j].ops[op].Live? {
      DrainedHasNoLiveOp(states[j], g, op);
    }
  }

  lemma {:induction false} ClosedIsSealed(states: seq<System>, events: seq<Event>, i: nat, j: nat)
    requires IsRun(states, events) && i <= j < |states| && states[i].bar.closing
    ensures states[j].bar.closing && states[j].ops.Keys == states[i].ops.Keys && states[j].closed == states[i].closed
    decreases j - i
  {
    if i < j {
      ClosedIsSealed(states, events, i, j - 1);
      assert IsStep(states[j - 1], events[j - 1], states[j]);
    }
  }
}
