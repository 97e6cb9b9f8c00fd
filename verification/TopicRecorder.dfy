/**
 The producer's per-topic counters: a published map from topic to recorder,
 read without a lock, copied and republished under one when a topic is new.

 The machine follows one of the three counters kept per topic (records, bytes,
 errors): each call adds its amount to the producer's total and then to a
 recorder. The other two counters take the same path, so each of them is a run
 of this machine as well. Every access to a counter, to the published map and
 to the lock is one event, in sequentially consistent order.
 */
module TopicRecorder {
  import opened Wrappers
  import opened MapSum

  /** Topic name to recorder identity. */
  type TopicMap = map<string, nat>

  /** The cap on tracked topics and the name of the overflow bucket (`"__other__"`). */
  datatype Limits = Limits(cap: nat, overflow: string)

  function NamedTopics(m: TopicMap, l: Limits): set<string> {
    m.Keys - {l.overflow}
  }

  /** How many topics other than the overflow bucket the map holds. */
  function NamedTopicCount(m: TopicMap, l: Limits): nat {
    |m| - (if l.overflow in m then 1 else 0)
  }

  lemma NamedTopicCountIsExact(m: TopicMap, l: Limits)
    ensures NamedTopicCount(m, l) == |NamedTopics(m, l)|
  {
  }

  predicate Full(m: TopicMap, l: Limits) {
    NamedTopicCount(m, l) >= l.cap
  }

  /** The lock-free look at a loaded map: the topic's recorder, or the overflow bucket of a full map. */
  function FastPath(m: TopicMap, l: Limits, topic: string): Option<nat> {
    if topic in m then Some(m[topic])
    else if Full(m, l) && l.overflow in m then Some(m[l.overflow])
    else None
  }

  datatype Entry = Entry(topics: TopicMap, key: string, recorder: nat, created: bool)

  /** Under the lock: the recorder found or created, and the map to publish. */
  function Register(m: TopicMap, l: Limits, topic: string, newId: nat): Entry {
    var key := if Full(m, l) then l.overflow else topic;
    if topic in m then Entry(m, topic, m[topic], false)
    else if key in m then Entry(m, key, m[key], false)
    else Entry(m[key := newId], key, newId, true)
  }

  // ---- the machine ----

  datatype Pc =
    | Starts
    | Counted
    | Loaded(view: TopicMap)
    | WantsLock
    | Holds
    | HoldsView(view: TopicMap)
    | Adds(recorder: nat)
    | Returned

  /** One call: `record_batch_for_topic` or `record_error_for_topic`. */
  datatype Call = Call(topic: string, amount: nat, pc: Pc)

  /** `names` and `ledger` are bookkeeping: under which name each recorder was created, and what was recorded per topic. */
  datatype System = System(
    limits: Limits,
    total: nat,
    topics: TopicMap,
    recorders: map<nat, nat>,
    names: map<nat, string>,
    lock: Option<nat>,
    calls: map<nat, Call>,
    ledger: map<string, nat>)

  datatype Event =
    | Begin(t: nat, topic: string, amount: nat)
    | AddTotal(t: nat)
    | Load(t: nat)
    | Look(t: nat)
    | Acquire(t: nat)
    | LoadLocked(t: nat)
    | Publish(t: nat, newId: nat)
    | AddTopic(t: nat)

  function Initial(limits: Limits): System {
    System(limits, 0, map[], map[], map[], None, map[], map[])
  }

  function Ledger(s: System, topic: string): nat {
    if topic in s.ledger then s.ledger[topic] else 0
  }

  predicate At(s: System, t: nat, pc: Pc) {
    t in s.calls && s.calls[t].pc == pc
  }

  /** Call `t` moves on to `pc`; no other call moves. */
  predicate Moves(s: System, s': System, t: nat, pc: Pc) {
    t in s.calls && s'.limits == s.limits && s'.calls == s.calls[t := s.calls[t].(pc := pc)]
  }

  predicate SameMap(s: System, s': System) {
    s'.topics == s.topics && s'.names == s.names
  }

  predicate SameCounts(s: System, s': System) {
    s'.total == s.total && s'.recorders == s.recorders && s'.ledger == s.ledger
  }

  predicate IsBegin(s: System, s': System, t: nat, topic: string, amount: nat) {
    && t !in s.calls && s'.limits == s.limits
    && s'.calls == s.calls[t := Call(topic, amount, Starts)]
    && SameMap(s, s') && SameCounts(s, s') && s'.lock == s.lock
  }

  predicate IsAddTotal(s: System, s': System, t: nat) {
    && At(s, t, Starts) && Moves(s, s', t, Counted)
    && s'.total == s.total + s.calls[t].amount
    && s'.recorders == s.recorders && s'.ledger == s.ledger && SameMap(s, s') && s'.lock == s.lock
  }

  predicate IsLoad(s: System, s': System, t: nat) {
    && At(s, t, Counted) && Moves(s, s', t, Loaded(s.topics))
    && SameMap(s, s') && SameCounts(s, s') && s'.lock == s.lock
  }

  predicate IsLook(s: System, s': System, t: nat) {
    && t in s.calls && s.calls[t].pc.Loaded?
    && Moves(s, s', t, match FastPath(s.calls[t].pc.view, s.limits, s.calls[t].topic)
                       case Some(r) => Adds(r)
                       case None => WantsLock)
    && SameMap(s, s') && SameCounts(s, s') && s'.lock == s.lock
  }

  predicate IsAcquire(s: System, s': System, t: nat) {
    && At(s, t, WantsLock) && s.lock == None && Moves(s, s', t, Holds)
    && SameMap(s, s') && SameCounts(s, s') && s'.lock == Some(t)
  }

  predicate IsLoadLocked(s: System, s': System, t: nat) {
    && At(s, t, Holds) && Moves(s, s', t, HoldsView(s.topics))
    && SameMap(s, s') && SameCounts(s, s') && s'.lock == s.lock
  }

  /** Register under the lock, publish the map, release the lock. */
  predicate IsPublish(s: System, s': System, t: nat, newId: nat) {
    && t in s.calls && s.calls[t].pc.HoldsView? && newId !in s.recorders
    && var entry := Register(s.calls[t].pc.view, s.limits, s.calls[t].topic, newId);
    && Moves(s, s', t, Adds(entry.recorder))
    && s'.topics == entry.topics && s'.lock == None
    && s'.recorders == (if entry.created then s.recorders[newId := 0] else s.recorders)
    && s'.names == (if entry.created then s.names[newId := entry.key] else s.names)
    && s'.total == s.total && s'.ledger == s.ledger
  }

  predicate IsAddTopic(s: System, s': System, t: nat) {
    && t in s.calls && s.calls[t].pc.Adds? && s.calls[t].pc.recorder in s.recorders
    && var Call(topic, amount, pc) := s.calls[t];
    && Moves(s, s', t, Returned)
    && s'.recorders == s.recorders[pc.recorder := s.recorders[pc.recorder] + amount]
    && s'.ledger == s.ledger[topic := Ledger(s, topic) + amount]
    && s'.total == s.total && SameMap(s, s') && s'.lock == s.lock
  }

  predicate IsStep(s: System, e: Event, s': System) {
    match e
    case Begin(t, topic, amount) => IsBegin(s, s', t, topic, amount)
    case AddTotal(t) => IsAddTotal(s, s', t)
    case Load(t) => IsLoad(s, s', t)
    case Look(t) => IsLook(s, s', t)
    case Acquire(t) => IsAcquire(s, s', t)
    case LoadLocked(t) => IsLoadLocked(s, s', t)
    case Publish(t, newId) => IsPublish(s, s', t, newId)
    case AddTopic(t) => IsAddTopic(s, s', t)
  }

  ghost predicate IsRun(states: seq<System>, events: seq<Event>) {
    && |states| == |events| + 1
    && states[0] == Initial(states[0].limits)
    && forall i :: 0 <= i < |events| ==> IsStep(states[i], events[i], states[i + 1])
  }

  // ---- conservation ----

  /** What a call has added to the total and not yet to a recorder. */
  function Pending(call: Call): nat {
    if call.pc.Starts? || call.pc.Returned? then 0 else call.amount
  }

  ghost function PendingOf(s: System): map<nat, nat> {
    MapValues(s.calls, Pending)
  }

  /** The recorders and the calls in progress make up the total. */
  ghost predicate Conserved(s: System) {
    Sum(s.recorders) + Sum(PendingOf(s)) == s.total
  }

  lemma PendingUpdate(s: System, s': System, t: nat, call: Call)
    requires s'.calls == s.calls[t := call]
    ensures Sum(PendingOf(s')) ==
            Sum(PendingOf(s)) - (if t in s.calls then Pending(s.calls[t]) else 0) + Pending(call)
  {
    assert PendingOf(s') == PendingOf(s)[t := Pending(call)];
    SumUpdate(PendingOf(s), t, Pending(call));
  }

  lemma RecordersUpdate(s: System, e: Event, s': System)
    requires IsStep(s, e, s')
    ensures Sum(s'.recorders) == Sum(s.recorders) + if e.AddTopic? then s.calls[e.t].amount else 0
  {
    hide Sum, NamedTopicCount;
    if e.AddTopic? {
      var r := s.calls[e.t].pc.recorder;
      SumUpdate(s.recorders, r, s.recorders[r] + s.calls[e.t].amount);
    } else if e.Publish? {
      SumUpdate(s.recorders, e.newId, 0);
    }
  }

  lemma StepKeepsConserved(s: System, e: Event, s': System)
    requires IsStep(s, e, s') && Conserved(s)
    ensures Conserved(s')
  {
    hide Sum, NamedTopicCount, PendingOf, FastPath, Register;
    PendingUpdate(s, s', e.t, s'.calls[e.t]);
    RecordersUpdate(s, e, s');
  }

  // ---- routing ----

  /** The topic's records belong to recorder `r`: its own entry, or the overflow bucket of a map that is full for good. */
  predicate Routed(s: System, topic: string, r: nat) {
    if topic in s.topics then s.topics[topic] == r
    else Full(s.topics, s.limits) && s.limits.overflow in s.topics && s.topics[s.limits.overflow] == r
  }

  ghost predicate SubMap(v: TopicMap, m: TopicMap) {
    forall k :: k in v ==> k in m && v[k] == m[k]
  }

  /** Each recorder is published under exactly one name. */
  ghost predicate NamesOk(s: System) {
    && s.names.Keys == s.recorders.Keys
    && (forall k :: k in s.topics ==> s.topics[k] in s.names && s.names[s.topics[k]] == k)
    && (forall r :: r in s.names ==> s.names[r] in s.topics && s.topics[s.names[r]] == r)
  }

  /** At most `cap` topics are tracked besides the overflow bucket. */
  predicate WithinCap(s: System) {
    NamedTopicCount(s.topics, s.limits) <= s.limits.cap
  }

  ghost predicate CallOk(s: System, t: nat, call: Call) {
    match call.pc
    case Loaded(view) => SubMap(view, s.topics)
    case Holds => s.lock == Some(t)
    case HoldsView(view) => s.lock == Some(t) && view == s.topics
    case Adds(r) => Routed(s, call.topic, r)
    case _ => true
  }

  ghost predicate CallsOk(s: System) {
    forall t :: t in s.calls ==> CallOk(s, t, s.calls[t])
  }

  lemma SubMapNamed(v: TopicMap, m: TopicMap, l: Limits)
    requires SubMap(v, m)
    ensures NamedTopicCount(v, l) <= NamedTopicCount(m, l)
    ensures NamedTopicCount(v, l) == NamedTopicCount(m, l) ==> NamedTopics(v, l) == NamedTopics(m, l)
  {
    var a, b := NamedTopics(v, l), NamedTopics(m, l);
    NamedTopicCountIsExact(v, l);
    NamedTopicCountIsExact(m, l);
    assert b == a + (b - a);
    assert |b| == |a| + |b - a|;
  }

  /** A look at a stale map still finds where the topic belongs. */
  lemma FastPathRoutes(s: System, view: TopicMap, topic: string)
    requires SubMap(view, s.topics) && WithinCap(s)
    requires FastPath(view, s.limits, topic).Some?
    ensures Routed(s, topic, FastPath(view, s.limits, topic).value)
  {
    SubMapNamed(view, s.topics, s.limits);
    assert topic !in view ==> topic !in NamedTopics(view, s.limits);
  }

  lemma NamedAfterInsert(m: TopicMap, l: Limits, key: string, id: nat)
    requires key !in m
    ensures NamedTopicCount(m[key := id], l) == NamedTopicCount(m, l) + if key == l.overflow then 0 else 1
  {
  }

  /** Registration keeps the cap and leaves the topic routed to the recorder it returns. */
  lemma RegisterRoutes(m: TopicMap, l: Limits, topic: string, newId: nat)
    requires NamedTopicCount(m, l) <= l.cap
    ensures var entry := Register(m, l, topic, newId);
            && NamedTopicCount(entry.topics, l) <= l.cap && SubMap(m, entry.topics)
            && (entry.created ==> entry.key !in m && entry.topics == m[entry.key := newId])
            && (!entry.created ==> entry.topics == m)
            && (Full(m, l) && l.overflow in m ==> entry.topics == m)
            && (if topic in entry.topics then entry.topics[topic] == entry.recorder
                else Full(entry.topics, l) && l.overflow in entry.topics && entry.topics[l.overflow] == entry.recorder)
  {
  }

  /**
   Where a topic goes, by how many topics are tracked: one that has an entry
   keeps it; one that is new gets its own while fewer than `cap` are tracked, and
   the overflow bucket afterwards, which is created when it is first needed.
   */
  lemma RegisterIsExact(m: TopicMap, l: Limits, topic: string, newId: nat)
    ensures var entry, tracked := Register(m, l, topic, newId), m.Keys - {l.overflow};
            && (topic in m ==> entry.topics == m && entry.recorder == m[topic])
            && (topic !in m && |tracked| < l.cap ==> entry.topics == m[topic := newId] && entry.recorder == newId)
            && (topic !in m && |tracked| >= l.cap && l.overflow in m ==>
                  entry.topics == m && entry.recorder == m[l.overflow])
            && (topic !in m && |tracked| >= l.cap && l.overflow !in m ==>
                  entry.topics == m[l.overflow := newId] && entry.recorder == newId)
  {
    NamedTopicCountIsExact(m, l);
  }

  /** A published map only grows, and not at all once it is full with an overflow bucket. */
  ghost predicate Grows(s: System, s': System) {
    && s'.limits == s.limits && SubMap(s.topics, s'.topics)
    && (Full(s.topics, s.limits) && s.limits.overflow in s.topics ==> s'.topics == s.topics)
  }

  lemma StepGrows(s: System, e: Event, s': System)
    requires IsStep(s, e, s') && WithinCap(s) && CallsOk(s)
    ensures Grows(s, s') && WithinCap(s')
  {
  }

  lemma StepKeepsNames(s: System, e: Event, s': System)
    requires IsStep(s, e, s') && NamesOk(s) && CallsOk(s)
    ensures NamesOk(s')
  {
  }

  /** The calls that did not move are still where they belong. */
  lemma OthersStayOk(s: System, e: Event, s': System, t: nat)
    requires IsStep(s, e, s') && CallsOk(s) && Grows(s, s') && t in s.calls && t != e.t
    ensures CallOk(s', t, s.calls[t])
  {
  }

  lemma MoverIsOk(s: System, e: Event, s': System)
    requires IsStep(s, e, s') && WithinCap(s) && CallsOk(s)
    ensures e.t in s'.calls && CallOk(s', e.t, s'.calls[e.t])
  {
    if e.t in s.calls {
      assert CallOk(s, e.t, s.calls[e.t]);
    }
    if e.Look? && FastPath(s.calls[e.t].pc.view, s.limits, s.calls[e.t].topic).Some? {
      FastPathRoutes(s, s.calls[e.t].pc.view, s.calls[e.t].topic);
    } else if e.Publish? {
      RegisterRoutes(s.topics, s.limits, s.calls[e.t].topic, e.newId);
    }
  }

  lemma StepKeepsCallsOk(s: System, e: Event, s': System)
    requires IsStep(s, e, s') && WithinCap(s) && CallsOk(s)
    ensures CallsOk(s')
  {
    StepGrows(s, e, s');
    MoverIsOk(s, e, s');
    forall t | t in s'.calls ensures CallOk(s', t, s'.calls[t]) {
      if t != e.t {
        assert t in s.calls && s'.calls[t] == s.calls[t];
        OthersStayOk(s, e, s', t);
      }
    }
  }

  // ---- the ledger ----

  /** The ledger entries that belong to the overflow bucket. */
  function Overflowed(s: System): map<string, nat> {
    s.ledger - (s.topics.Keys - {s.limits.overflow})
  }

  /**
   A named topic's recorder holds everything recorded for that topic and
   nothing else; the overflow recorder holds everything recorded for the
   topics without an entry.
   */
  ghost predicate NeverSplit(s: System) {
    && (forall k :: k in s.topics && k != s.limits.overflow && s.topics[k] in s.recorders ==>
          s.recorders[s.topics[k]] == Ledger(s, k))
    && (s.limits.overflow in s.topics && s.topics[s.limits.overflow] in s.recorders ==>
          s.recorders[s.topics[s.limits.overflow]] == Sum(Overflowed(s)))
    && (forall topic :: topic in s.ledger && topic !in s.topics ==>
          Full(s.topics, s.limits) && s.limits.overflow in s.topics)
  }

  /** What a recorded topic adds belongs to the overflow bucket, or not. */
  lemma AddTopicOverflow(s: System, s': System, t: nat)
    requires IsAddTopic(s, s', t)
    ensures var topic, amount := s.calls[t].topic, s.calls[t].amount;
            Sum(Overflowed(s')) ==
            Sum(Overflowed(s)) + if topic in s.topics && topic != s.limits.overflow then 0 else amount
  {
    hide Sum, NamedTopicCount;
    var topic := s.calls[t].topic;
    if topic in s.topics && topic != s.limits.overflow {
      assert Overflowed(s') == Overflowed(s);
    } else {
      assert Overflowed(s') == Overflowed(s)[topic := s'.ledger[topic]];
      SumUpdate(Overflowed(s), topic, s'.ledger[topic]);
    }
  }

  lemma AddTopicKeepsLedger(s: System, s': System, t: nat)
    requires IsAddTopic(s, s', t) && NamesOk(s) && CallOk(s, t, s.calls[t]) && NeverSplit(s)
    ensures NeverSplit(s')
  {
    hide Sum, NamedTopicCount, Overflowed;
    AddTopicOverflow(s, s', t);
  }

  /** A topic that gets an entry was never recorded before. */
  lemma NewKeyIsUnrecorded(s: System, t: nat, newId: nat)
    requires t in s.calls && NeverSplit(s)
    requires Register(s.topics, s.limits, s.calls[t].topic, newId).created
    ensures var key := Register(s.topics, s.limits, s.calls[t].topic, newId).key;
            key !in s.ledger && (key == s.limits.overflow ==> Overflowed(s) == map[])
  {
  }

  lemma CreateKeepsOverflowed(s: System, s': System, key: string, newId: nat)
    requires s'.topics == s.topics[key := newId] && s'.ledger == s.ledger && s'.limits == s.limits
    requires key !in s.ledger
    ensures Overflowed(s') == Overflowed(s)
  {
  }

  lemma CreateKeepsNamed(s: System, s': System, key: string, newId: nat, k: string)
    requires newId !in s.recorders && NamesOk(s) && NeverSplit(s)
    requires s'.topics == s.topics[key := newId] && s'.recorders == s.recorders[newId := 0]
    requires s'.ledger == s.ledger && s'.limits == s.limits && key !in s.ledger
    requires k in s'.topics && k != s'.limits.overflow
    ensures s'.topics[k] in s'.recorders && s'.recorders[s'.topics[k]] == Ledger(s', k)
  {
    hide Sum, NamedTopicCount, Overflowed;
    if k != key {
      assert s.topics[k] in s.names;
    }
  }

  lemma CreateKeepsLedger(s: System, s': System, key: string, newId: nat)
    requires key !in s.topics && newId !in s.recorders && NamesOk(s) && NeverSplit(s)
    requires s'.topics == s.topics[key := newId] && s'.recorders == s.recorders[newId := 0]
    requires s'.ledger == s.ledger && s'.limits == s.limits && key !in s.ledger
    requires key == s.limits.overflow ==> Overflowed(s) == map[]
    requires Full(s.topics, s.limits) ==> Full(s'.topics, s.limits)
    ensures NeverSplit(s')
  {
    hide NamedTopicCount, Overflowed;
    CreateKeepsOverflowed(s, s', key, newId);
    forall k | k in s'.topics && k != s'.limits.overflow
      ensures s'.topics[k] in s'.recorders && s'.recorders[s'.topics[k]] == Ledger(s', k)
    {
      CreateKeepsNamed(s, s', key, newId, k);
    }
    var overflow := s.limits.overflow;
    assert overflow != key && overflow in s.topics ==> s.topics[overflow] in s.names;
  }

  lemma PublishKeepsLedger(s: System, s': System, t: nat, newId: nat)
    requires IsPublish(s, s', t, newId) && NamesOk(s) && WithinCap(s) && CallOk(s, t, s.calls[t]) && NeverSplit(s)
    ensures NeverSplit(s')
  {
    hide NamedTopicCount, Sum;
    RegisterRoutes(s.topics, s.limits, s.calls[t].topic, newId);
    var entry := Register(s.topics, s.limits, s.calls[t].topic, newId);
    if entry.created {
      hide NamesOk, NeverSplit, Overflowed;
      NewKeyIsUnrecorded(s, t, newId);
      NamedAfterInsert(s.topics, s.limits, entry.key, newId);
      CreateKeepsLedger(s, s', entry.key, newId);
    } else {
      assert Overflowed(s') == Overflowed(s);
    }
  }

  lemma QuietKeepsLedger(s: System, s': System)
    requires NeverSplit(s) && s'.limits == s.limits
    requires s'.topics == s.topics && s'.recorders == s.recorders && s'.ledger == s.ledger
    ensures NeverSplit(s')
  {
    hide Sum;
    assert Overflowed(s') == Overflowed(s);
  }

  lemma StepKeepsLedger(s: System, e: Event, s': System)
    requires IsStep(s, e, s') && NamesOk(s) && WithinCap(s) && CallsOk(s) && NeverSplit(s)
    ensures NeverSplit(s')
  {
    hide NeverSplit, NamesOk, NamedTopicCount;
    if e.AddTopic? {
      assert CallOk(s, e.t, s.calls[e.t]);
      AddTopicKeepsLedger(s, s', e.t);
    } else if e.Publish? {
      assert CallOk(s, e.t, s.calls[e.t]);
      PublishKeepsLedger(s, s', e.t, e.newId);
    } else {
      QuietKeepsLedger(s, s');
    }
  }

  ghost predicate Inv(s: System) {
    Conserved(s) && NamesOk(s) && WithinCap(s) && CallsOk(s) && NeverSplit(s)
  }

  lemma StepKeepsInv(s: System, e: Event, s': System)
    requires IsStep(s, e, s') && Inv(s)
    ensures Inv(s')
  {
    StepKeepsConserved(s, e, s');
    StepKeepsNames(s, e, s');
    StepGrows(s, e, s');
    StepKeepsCallsOk(s, e, s');
    StepKeepsLedger(s, e, s');
  }

  /**
   In every interleaving: the per-topic counters and the calls in progress sum
   to the total, at most `cap` names are tracked besides the overflow bucket,
   and no topic is split between its own entry and the bucket.
   */
  lemma {:induction false} RecordsAreConserved(states: seq<System>, events: seq<Event>, i: nat)
    requires IsRun(states, events) && i < |states|
    ensures Inv(states[i])
  {
    hide IsStep, Inv;
    if i == 0 {
      InitialIsOk(states[0]);
    } else {
      RecordsAreConserved(states, events, i - 1);
      var s, e, s' := states[i - 1], events[i - 1], states[i];
      StepKeepsInv(s, e, s');
    }
  }

  lemma InitialIsOk(s: System)
    requires s == Initial(s.limits)
    ensures Inv(s)
  {
  }

  // ---- in terms of the calls of the run ----

  /** What calls for `topic` have added to a recorder by `i`. */
  ghost function RecordedFor(states: seq<System>, events: seq<Event>, i: nat, topic: string): nat
    requires i < |states| == |events| + 1
  {
    if i == 0 then 0
    else
      var s, e := states[i - 1], events[i - 1];
      RecordedFor(states, events, i - 1, topic) +
      if e.AddTopic? && e.t in s.calls && s.calls[e.t].topic == topic then s.calls[e.t].amount else 0
  }

  lemma {:induction false} LedgerCounts(states: seq<System>, events: seq<Event>, i: nat, topic: string)
    requires IsRun(states, events) && i < |states|
    ensures Ledger(states[i], topic) == RecordedFor(states, events, i, topic)
  {
    hide FastPath, Register;
    if i > 0 {
      LedgerCounts(states, events, i - 1, topic);
      assert IsStep(states[i - 1], events[i - 1], states[i]);
    }
  }

  /** A call records for the topic, and the amount, it was made with. */
  lemma {:induction false} CallIsAsBegun(states: seq<System>, events: seq<Event>, i: nat, t: nat) returns (b: nat)
    requires IsRun(states, events) && i < |states| && t in states[i].calls
    ensures b < i && events[b] == Begin(t, states[i].calls[t].topic, states[i].calls[t].amount)
  {
    hide FastPath, Register;
    assert IsStep(states[i - 1], events[i - 1], states[i]);
    b := i - 1;
    if t in states[i - 1].calls {
      b := CallIsAsBegun(states, events, i - 1, t);
    }
  }

  /**
   In every interleaving: a tracked topic's recorder holds exactly what calls for
   that topic recorded; a topic that was recorded without an entry of its own
   means that exactly `cap` other topics are tracked.
   */
  lemma RecorderIsExact(states: seq<System>, events: seq<Event>, i: nat, topic: string)
    requires IsRun(states, events) && i < |states|
    ensures topic in states[i].topics && topic != states[i].limits.overflow ==>
              && states[i].topics[topic] in states[i].recorders
              && states[i].recorders[states[i].topics[topic]] == RecordedFor(states, events, i, topic)
    ensures topic !in states[i].topics && RecordedFor(states, events, i, topic) > 0 ==>
              && |states[i].topics.Keys - {states[i].limits.overflow}| == states[i].limits.cap
              && states[i].limits.overflow in states[i].topics
  {
    hide IsStep, Sum, Overflowed, Conserved, CallsOk;
    RecordsAreConserved(states, events, i);
    LedgerCounts(states, events, i, topic);
    NamedTopicCountIsExact(states[i].topics, states[i].limits);
  }
}
