/**
 The per-record context shared by the interceptors of a chain: one vector of
 entries, each tagged with the interceptor that stored it and the type stored.

 A callback is an adaptive program: what it asks of the context next depends on
 every answer so far, and after its last request it returns, fails or panics.
 It holds a mutable reference, so besides the accessors it can move the context
 out and another one in: `Swap` exchanges the context in place with one from a
 stash of contexts (new ones, or some kept from earlier records), and with no
 such slot it assigns a new context and drops the one in place.
 */
module RecordContext {
  import opened Wrappers

  /** One stored value; `typeId` stands for the Rust type it was stored under. */
  datatype Entry = Entry(owner: nat, typeId: nat, value: int)

  const U16_MAX: nat := 65535

  // ---- the vector ----

  predicate Matches(e: Entry, o: nat, t: nat) {
    e.owner == o && e.typeId == t
  }

  /** The index of the first entry of `o` under `t`, or the length. */
  function Position(entries: seq<Entry>, o: nat, t: nat): (i: nat)
    ensures i <= |entries|
    ensures i < |entries| ==> Matches(entries[i], o, t)
    ensures forall j :: 0 <= j < i ==> !Matches(entries[j], o, t)
  {
    if entries == [] || Matches(entries[0], o, t) then 0 else 1 + Position(entries[1..], o, t)
  }

  /** What interceptor `o` sees under `t`. */
  function At(entries: seq<Entry>, o: nat, t: nat): Option<int> {
    var i := Position(entries, o, t);
    if i < |entries| then Some(entries[i].value) else None
  }

  function Stored(entries: seq<Entry>, o: nat, t: nat, v: int): seq<Entry> {
    var i := Position(entries, o, t);
    if i < |entries| then entries[i := entries[i].(value := v)] else entries + [Entry(o, t, v)]
  }

  function Removed(entries: seq<Entry>, o: nat, t: nat): seq<Entry> {
    var i := Position(entries, o, t);
    if i < |entries| then entries[..i] + entries[i + 1..] else entries
  }

  /** Each interceptor has at most one entry per type. */
  ghost predicate Unique(entries: seq<Entry>) {
    forall i, j :: 0 <= i < j < |entries| ==> !Matches(entries[j], entries[i].owner, entries[i].typeId)
  }

  lemma AtEntry(entries: seq<Entry>, i: nat)
    requires Unique(entries) && i < |entries|
    ensures At(entries, entries[i].owner, entries[i].typeId) == Some(entries[i].value)
  {
  }

  lemma AtNone(entries: seq<Entry>, o: nat, t: nat)
    requires forall i :: 0 <= i < |entries| ==> !Matches(entries[i], o, t)
    ensures At(entries, o, t) == None
  {
  }

  /** Storing changes what one interceptor sees under one type, and nothing else. */
  lemma StoredAt(entries: seq<Entry>, o: nat, t: nat, v: int, p: nat, u: nat)
    requires Unique(entries)
    ensures Unique(Stored(entries, o, t, v))
    ensures At(Stored(entries, o, t, v), p, u) == if (p, u) == (o, t) then Some(v) else At(entries, p, u)
  {
    var out := Stored(entries, o, t, v);
    var i := Position(entries, o, t);
    assert out[i] == Entry(o, t, v);
    var j := Position(entries, p, u);
    if (p, u) == (o, t) {
      AtEntry(out, i);
    } else if j < |entries| {
      assert out[j] == entries[j];
      AtEntry(out, j);
    } else {
      AtNone(out, p, u);
    }
  }

  lemma RemovedAt(entries: seq<Entry>, o: nat, t: nat, p: nat, u: nat)
    requires Unique(entries)
    ensures Unique(Removed(entries, o, t))
    ensures At(Removed(entries, o, t), p, u) == if (p, u) == (o, t) then None else At(entries, p, u)
  {
    var out := Removed(entries, o, t);
    var i := Position(entries, o, t);
    var j := Position(entries, p, u);
    assert forall k :: 0 <= k < |out| ==> out[k] == if k < i then entries[k] else entries[k + 1];
    if (p, u) == (o, t) || j == |entries| {
      AtNone(out, p, u);
    } else {
      var k := if j < i then j else j - 1;
      assert out[k] == entries[j];
      AtEntry(out, k);
    }
  }

  // ---- callbacks ----

  datatype Outcome = Returned | Failed | Panicked

  datatype Action =
    | Insert(t: nat, v: int)
    | Get(t: nat)
    | GetMut(t: nat, update: int -> int)
    | Take(t: nat)
    | Swap(slot: nat)

  datatype Ending = Ending(outcome: Outcome, record: int)

  /** A callback of `length` requests; a shorter one asks for something it ignores. */
  datatype Callback = Callback(length: nat, act: seq<Option<int>> -> Action, end: seq<Option<int>> -> Ending)

  datatype Context = Context(entries: seq<Entry>, owner: nat)

  const NEW_CONTEXT := Context([], 0)

  /** The context after an accessor, which acts as the interceptor the context is tagged with. */
  function Accessed(a: Action, ctx: Context): Context
    requires !a.Swap?
  {
    match a
    case Insert(t, v) => ctx.(entries := Stored(ctx.entries, ctx.owner, t, v))
    case Get(_) => ctx
    case GetMut(t, update) =>
      var found := At(ctx.entries, ctx.owner, t);
      if found.Some? then ctx.(entries := Stored(ctx.entries, ctx.owner, t, update(found.value))) else ctx
    case Take(t) => ctx.(entries := Removed(ctx.entries, ctx.owner, t))
  }

  /** An accessor on a type-keyed map of the interceptor's own. */
  function AccessedMap(a: Action, m: map<nat, int>): map<nat, int>
    requires !a.Swap?
  {
    match a
    case Insert(t, v) => m[t := v]
    case Get(_) => m
    case GetMut(t, update) => if t in m then m[t := update(m[t])] else m
    case Take(t) => m - {t}
  }

  /** What a callback can reach: the context in place and the contexts stashed. */
  datatype Desk = Desk(ctx: Context, stash: seq<Context>)

  function Perform(a: Action, d: Desk): Desk {
    if !a.Swap? then d.(ctx := Accessed(a, d.ctx))
    else if a.slot < |d.stash| then Desk(d.stash[a.slot], d.stash[a.slot := d.ctx])
    else d.(ctx := NEW_CONTEXT)
  }

  /** The answer to a request: what the accessor found. */
  function Answer(a: Action, ctx: Context): Option<int> {
    if a.Swap? then None else At(ctx.entries, ctx.owner, a.t)
  }

  datatype Shared = Shared(desk: Desk, ending: Ending)

  /** The rest of a callback on the shared context. */
  function RunShared(cb: Callback, d: Desk, answers: seq<Option<int>>): Shared
    decreases cb.length - |answers|
  {
    if |answers| >= cb.length then Shared(d, cb.end(answers))
    else
      var a := cb.act(answers);
      RunShared(cb, Perform(a, d), answers + [Answer(a, d.ctx)])
  }

  // ---- the same callback on a private map ----

  /** A context a callback meets: the one it was handed, or one from elsewhere. */
  datatype Place = Home | Foreign(ctx: Context)

  /** The callback's own map stands for the context it was handed, wherever that is now. */
  datatype Private = Private(place: Place, stash: seq<Place>, view: map<nat, int>)

  function Start(stash: seq<Context>, m: map<nat, int>): Private {
    Private(Home, seq(|stash|, i requires 0 <= i < |stash| => Foreign(stash[i])), m)
  }

  function PerformPrivate(a: Action, q: Private): Private {
    if !a.Swap? then
      if q.place.Home? then q.(view := AccessedMap(a, q.view)) else q.(place := Foreign(Accessed(a, q.place.ctx)))
    else if a.slot < |q.stash| then Private(q.stash[a.slot], q.stash[a.slot := q.place], q.view)
    else q.(place := Foreign(NEW_CONTEXT))
  }

  function AnswerPrivate(a: Action, q: Private): Option<int> {
    if a.Swap? then None
    else if q.place.Home? then Lookup(q.view, a.t)
    else At(q.place.ctx.entries, q.place.ctx.owner, a.t)
  }

  datatype PrivateRun = PrivateRun(desk: Private, ending: Ending)

  function RunPrivate(cb: Callback, q: Private, answers: seq<Option<int>>): PrivateRun
    decreases cb.length - |answers|
  {
    if |answers| >= cb.length then PrivateRun(q, cb.end(answers))
    else
      var a := cb.act(answers);
      RunPrivate(cb, PerformPrivate(a, q), answers + [AnswerPrivate(a, q)])
  }

  /** The entries of `o` are the map `m`. */
  ghost predicate Views(entries: seq<Entry>, o: nat, m: map<nat, int>) {
    forall t: nat :: At(entries, o, t) == Lookup(m, t)
  }

  /** Both vectors look the same to `o`. */
  ghost predicate SameView(a: seq<Entry>, b: seq<Entry>, o: nat) {
    forall t: nat :: At(a, o, t) == At(b, o, t)
  }

  ghost predicate OthersSame(a: seq<Entry>, b: seq<Entry>, o: nat) {
    forall p: nat :: p != o ==> SameView(a, b, p)
  }

  lemma OthersSameTransitive(a: seq<Entry>, b: seq<Entry>, c: seq<Entry>, o: nat)
    requires OthersSame(a, b, o) && OthersSame(b, c, o)
    ensures OthersSame(a, c, o)
  {
    forall p: nat, t: nat | p != o ensures At(a, p, t) == At(c, p, t) {
      assert SameView(a, b, p) && SameView(b, c, p);
    }
  }

  lemma StoreIsPrivate(entries: seq<Entry>, o: nat, t: nat, v: int, m: map<nat, int>)
    requires Unique(entries) && Views(entries, o, m)
    ensures Unique(Stored(entries, o, t, v)) && Views(Stored(entries, o, t, v), o, m[t := v])
    ensures OthersSame(entries, Stored(entries, o, t, v), o)
  {
    hide At, Stored, Unique;
    StoredAt(entries, o, t, v, o, t);
    forall p: nat, u: nat
      ensures At(Stored(entries, o, t, v), p, u) == (if (p, u) == (o, t) then Some(v) else At(entries, p, u))
    {
      StoredAt(entries, o, t, v, p, u);
    }
    forall u: nat ensures At(Stored(entries, o, t, v), o, u) == Lookup(m[t := v], u) {
      assert At(entries, o, u) == Lookup(m, u);
    }
  }

  lemma RemoveIsPrivate(entries: seq<Entry>, o: nat, t: nat, m: map<nat, int>)
    requires Unique(entries) && Views(entries, o, m)
    ensures Unique(Removed(entries, o, t)) && Views(Removed(entries, o, t), o, m - {t})
    ensures OthersSame(entries, Removed(entries, o, t), o)
  {
    hide At, Removed, Unique;
    RemovedAt(entries, o, t, o, t);
    forall p: nat, u: nat
      ensures At(Removed(entries, o, t), p, u) == (if (p, u) == (o, t) then None else At(entries, p, u))
    {
      RemovedAt(entries, o, t, p, u);
    }
    forall u: nat ensures At(Removed(entries, o, t), o, u) == Lookup(m - {t}, u) {
      assert At(entries, o, u) == Lookup(m, u);
    }
  }

  /** One accessor changes the caller's own map, answers from it, and shows no one else. */
  lemma AccessIsPrivate(a: Action, ctx: Context, m: map<nat, int>)
    requires !a.Swap? && Unique(ctx.entries) && Views(ctx.entries, ctx.owner, m)
    ensures Answer(a, ctx) == Lookup(m, a.t)
    ensures Accessed(a, ctx).owner == ctx.owner && Unique(Accessed(a, ctx).entries)
    ensures Views(Accessed(a, ctx).entries, ctx.owner, AccessedMap(a, m))
    ensures OthersSame(ctx.entries, Accessed(a, ctx).entries, ctx.owner)
  {
    hide At, Stored, Removed, Unique;
    assert At(ctx.entries, ctx.owner, a.t) == Lookup(m, a.t);
    match a
    case Insert(t, v) => StoreIsPrivate(ctx.entries, ctx.owner, t, v, m);
    case Get(_) =>
    case GetMut(t, update) =>
      if t in m {
        StoreIsPrivate(ctx.entries, ctx.owner, t, update(m[t]), m);
      }
    case Take(t) => RemoveIsPrivate(ctx.entries, ctx.owner, t, m);
  }

  // ---- the private run stands for the shared one ----

  /** The context handed in is in one place at most. */
  ghost predicate Linear(q: Private) {
    && (q.place.Home? ==> forall k :: 0 <= k < |q.stash| ==> q.stash[k].Foreign?)
    && (forall j, k :: 0 <= j < k < |q.stash| ==> q.stash[j].Foreign? || q.stash[k].Foreign?)
  }

  function Resolve(place: Place, home: Context): Context {
    if place.Home? then home else place.ctx
  }

  /** The shared desk a private one stands for, given what became of the context handed in. */
  function Resolved(q: Private, home: Context): Desk {
    Desk(Resolve(q.place, home), seq(|q.stash|, i requires 0 <= i < |q.stash| => Resolve(q.stash[i], home)))
  }

  /** What became of the context handed in: the caller's map is up to date, and nobody else's entries have changed. */
  ghost predicate HomeOk(ctx: Context, home: Context, m: map<nat, int>) {
    && home.owner == ctx.owner && Unique(home.entries)
    && Views(home.entries, ctx.owner, m) && OthersSame(ctx.entries, home.entries, ctx.owner)
  }

  lemma SwapSimulates(slot: nat, q: Private, home: Context)
    requires Linear(q)
    ensures Linear(PerformPrivate(Swap(slot), q))
    ensures Perform(Swap(slot), Resolved(q, home)) == Resolved(PerformPrivate(Swap(slot), q), home)
  {
  }

  lemma AccessSimulates(a: Action, q: Private, home: Context, home': Context)
    requires !a.Swap? && Linear(q)
    requires if q.place.Home? then home' == Accessed(a, home) else home' == home
    ensures Linear(PerformPrivate(a, q))
    ensures Perform(a, Resolved(q, home)) == Resolved(PerformPrivate(a, q), home')
  {
    hide Accessed, AccessedMap;
    var d, d' := Perform(a, Resolved(q, home)), Resolved(PerformPrivate(a, q), home');
    assert d.stash == d'.stash;
  }

  lemma {:induction false} RunSimulates(cb: Callback, ctx: Context, q: Private, home: Context, answers: seq<Option<int>>)
    returns (home': Context)
    requires Linear(q) && HomeOk(ctx, home, q.view)
    ensures var r, run := RunShared(cb, Resolved(q, home), answers), RunPrivate(cb, q, answers);
            && r.ending == run.ending && r.desk == Resolved(run.desk, home')
            && Linear(run.desk) && HomeOk(ctx, home', run.desk.view)
    decreases cb.length - |answers|
  {
    hide Linear, Unique, Views, OthersSame, Accessed, AccessedMap;
    home' := home;
    if |answers| < cb.length {
      var a := cb.act(answers);
      if a.Swap? {
        SwapSimulates(a.slot, q, home);
      } else {
        if q.place.Home? {
          AccessIsPrivate(a, home, q.view);
          home' := Accessed(a, home);
          OthersSameTransitive(ctx.entries, home.entries, home'.entries, ctx.owner);
        }
        AccessSimulates(a, q, home, home');
      }
      assert Answer(a, Resolved(q, home).ctx) == AnswerPrivate(a, q);
      home' := RunSimulates(cb, ctx, PerformPrivate(a, q), home', answers + [AnswerPrivate(a, q)]);
    }
  }

  /** The stash of a private run that has the context handed in back in place. */
  function Foreigns(stash: seq<Place>): seq<Context> {
    seq(|stash|, i requires 0 <= i < |stash| => Resolve(stash[i], NEW_CONTEXT))
  }

  /**
   A callback acts on the shared context as on a private map. If the context in
   place at the end is the one it was handed, that map is its view of it and
   every other interceptor's view is as it was; if not, the context in place
   owes nothing to the one it was handed.
   */
  lemma SharedRefinesPrivate(cb: Callback, ctx: Context, stash: seq<Context>, m: map<nat, int>)
    requires Unique(ctx.entries) && Views(ctx.entries, ctx.owner, m)
    ensures var r, run := RunShared(cb, Desk(ctx, stash), []), RunPrivate(cb, Start(stash, m), []);
            && r.ending == run.ending
            && (if run.desk.place.Home?
                then HomeOk(ctx, r.desk.ctx, run.desk.view) && r.desk.stash == Foreigns(run.desk.stash)
                else r.desk.ctx == run.desk.place.ctx)
  {
    hide Unique, Views, RunShared, RunPrivate;
    var q := Start(stash, m);
    assert Resolved(q, ctx) == Desk(ctx, stash);
    var home := RunSimulates(cb, ctx, q, ctx, []);
    var run := RunPrivate(cb, q, []).desk;
    if run.place.Home? {
      assert Resolved(run, home).stash == Foreigns(run.stash);
    }
  }

  // ---- isolation ----

  /** A vector that holds the map `m` for `o` and nothing else. */
  lemma {:induction false} FromMap(o: nat, m: map<nat, int>) returns (entries: seq<Entry>)
    ensures Unique(entries) && Views(entries, o, m)
    decreases |m|
  {
    entries := [];
    if t :| t in m {
      var rest := m - {t};
      entries := FromMap(o, rest);
      StoreIsPrivate(entries, o, t, m[t], rest);
      entries := Stored(entries, o, t, m[t]);
      assert rest[t := m[t]] == m;
    }
  }

  /** A context handed to interceptor `o` that holds the map `m` for it. */
  ghost predicate ShowsTo(ctx: Context, o: nat, m: map<nat, int>) {
    ctx.owner == o && Unique(ctx.entries) && Views(ctx.entries, o, m)
  }

  /** Interceptor `p` finds under `t` what it had stored, whatever else the context held that the callback cannot see. */
  ghost predicate Isolated(cb: Callback, o: nat, stash: seq<Context>, m: map<nat, int>, p: nat, t: nat) {
    forall ctx: Context :: ShowsTo(ctx, o, m) ==>
      At(RunShared(cb, Desk(ctx, stash), []).desk.ctx.entries, p, t) == At(ctx.entries, p, t)
  }

  /**
   Isolation is exact: a callback of interceptor `o` leaves what any other
   interceptor has stored alone if and only if the context in place when it ends
   is the one it was handed. Its own map and the stash decide that.
   */
  lemma IsolationIsExact(cb: Callback, o: nat, stash: seq<Context>, m: map<nat, int>, p: nat, t: nat)
    requires p != o
    ensures Isolated(cb, o, stash, m, p, t) <==> RunPrivate(cb, Start(stash, m), []).desk.place.Home?
  {
    hide RunShared, RunPrivate, Unique, Views, At, Start;
    var run := RunPrivate(cb, Start(stash, m), []).desk;
    if run.place.Home? {
      forall ctx: Context | ShowsTo(ctx, o, m)
        ensures At(RunShared(cb, Desk(ctx, stash), []).desk.ctx.entries, p, t) == At(ctx.entries, p, t)
      {
        SharedRefinesPrivate(cb, ctx, stash, m);
        assert SameView(ctx.entries, RunShared(cb, Desk(ctx, stash), []).desk.ctx.entries, p);
      }
    } else {
      var ctx := Exposes(o, m, p, t, At(run.place.ctx.entries, p, t));
      SharedRefinesPrivate(cb, ctx, stash, m);
    }
  }

  /** A context with the same view for `o` in which `p` has stored something else than `seen`. */
  lemma Exposes(o: nat, m: map<nat, int>, p: nat, t: nat, seen: Option<int>) returns (ctx: Context)
    requires p != o
    ensures ShowsTo(ctx, o, m) && At(ctx.entries, p, t) != seen
  {
    hide At, Unique, Stored;
    var entries := FromMap(o, m);
    var v := if seen.Some? then seen.value + 1 else 0;
    forall u: nat ensures At(Stored(entries, p, t, v), o, u) == Lookup(m, u) {
      StoredAt(entries, p, t, v, o, u);
      assert At(entries, o, u) == Lookup(m, u);
    }
    StoredAt(entries, p, t, v, p, t);
    ctx := Context(Stored(entries, p, t, v), o);
  }

  /** A callback that swaps the context with stash slot 0, `n` times, and returns. */
  function Swapping(n: nat): Callback {
    Callback(n, (answers: seq<Option<int>>) => Swap(0), (answers: seq<Option<int>>) => Ending(Returned, 0))
  }

  /** Swapping another context in loses what every other interceptor had stored, number 0 included. */
  lemma OverwriteLosesValue(o: nat, stash: seq<Context>, m: map<nat, int>, p: nat, t: nat)
    requires p != o
    ensures !Isolated(Swapping(1), o, stash, m, p, t)
  {
    IsolationIsExact(Swapping(1), o, stash, m, p, t);
    var out := PerformPrivate(Swap(0), Start(stash, m));
    assert RunPrivate(Swapping(1), Start(stash, m), []) == RunPrivate(Swapping(1), out, [None]);
  }

  /** Moving the context out and back again before returning loses nothing. */
  lemma TakeAndPutBack(o: nat, stash: seq<Context>, m: map<nat, int>, p: nat, t: nat)
    requires p != o && stash != []
    ensures Isolated(Swapping(2), o, stash, m, p, t)
  {
    IsolationIsExact(Swapping(2), o, stash, m, p, t);
    var out := PerformPrivate(Swap(0), Start(stash, m));
    var back := PerformPrivate(Swap(0), out);
    assert RunPrivate(Swapping(2), Start(stash, m), []) == RunPrivate(Swapping(2), out, [None]);
    assert RunPrivate(Swapping(2), out, [None]) == RunPrivate(Swapping(2), back, [None, None]);
  }

  // ---- the object ----

  /** Stashed contexts were filled by accessors too. */
  ghost predicate StashOk(stash: seq<Context>) {
    forall k :: 0 <= k < |stash| ==> Unique(stash[k].entries)
  }

  class RecordContext {
    var entries: seq<Entry>
    var owner: nat

    function Value(): Context
      reads this
    {
      Context(entries, owner)
    }

    constructor ()
      ensures Value() == Context([], 0) && Unique(entries)
    {
      entries, owner := [], 0;
    }

    method SetOwner(o: nat) returns (previous: nat)
      modifies this`owner
      ensures previous == old(owner) && owner == o
    {
      previous, owner := owner, o;
    }

    method Find(t: nat) returns (found: Option<nat>)
      ensures found == if Position(entries, owner, t) < |entries| then Some(Position(entries, owner, t)) else None
    {
      var i := 0;
      while i < |entries|
        invariant i <= |entries|
        invariant forall j :: 0 <= j < i ==> !Matches(entries[j], owner, t)
      {
        if Matches(entries[i], owner, t) {
          return Some(i);
        }
        i := i + 1;
      }
      return None;
    }

    /** Store a value and return the one it replaces. */
    method Insert(t: nat, v: int) returns (previous: Option<int>)
      requires Unique(entries)
      modifies this`entries
      ensures previous == At(old(entries), owner, t)
      ensures entries == Stored(old(entries), owner, t, v) && Unique(entries)
    {
      StoredAt(entries, owner, t, v, owner, t);
      var found := Find(t);
      match found {
        case Some(i) =>
          previous := Some(entries[i].value);
          entries := entries[i := entries[i].(value := v)];
        case None =>
          previous := None;
          entries := entries + [Entry(owner, t, v)];
      }
    }

    method Get(t: nat) returns (value: Option<int>)
      ensures value == At(entries, owner, t)
    {
      var found := Find(t);
      value := if found.Some? then Some(entries[found.value].value) else None;
    }

    method Take(t: nat) returns (value: Option<int>)
      requires Unique(entries)
      modifies this`entries
      ensures value == At(old(entries), owner, t)
      ensures entries == Removed(old(entries), owner, t) && Unique(entries)
    {
      RemovedAt(entries, owner, t, owner, t);
      var found := Find(t);
      match found {
        case Some(i) =>
          value := Some(entries[i].value);
          entries := entries[..i] + entries[i + 1..];
        case None =>
          value := None;
      }
    }

    /** One request of a callback on this context, with `stash` to swap it with. */
    method Serve(a: Action, stash: seq<Context>) returns (answer: Option<int>, stash': seq<Context>)
      requires Unique(entries) && StashOk(stash)
      modifies this
      ensures answer == Answer(a, old(Value()))
      ensures Desk(Value(), stash') == Perform(a, Desk(old(Value()), stash))
      ensures Unique(entries) && StashOk(stash')
    {
      stash' := stash;
      match a {
        case Insert(t, v) => answer := Insert(t, v);
        case Get(t) => answer := Get(t);
        case GetMut(t, update) =>
          answer := Get(t);
          if answer.Some? {
            var _ := Insert(t, update(answer.value));
          }
        case Take(t) => answer := Take(t);
        case Swap(slot) =>
          answer := None;
          if slot < |stash| {
            stash' := stash[slot := Context(entries, owner)];
            entries, owner := stash[slot].entries, stash[slot].owner;
          } else {
            entries, owner := [], 0;
          }
      }
    }

    /** Run a callback on this context. */
    method Run(cb: Callback, stash: seq<Context>) returns (ending: Ending, stash': seq<Context>)
      requires Unique(entries) && StashOk(stash)
      modifies this
      ensures Shared(Desk(Value(), stash'), ending) == RunShared(cb, Desk(old(Value()), stash), [])
      ensures Unique(entries) && StashOk(stash')
    {
      hide Unique, Perform, Answer;
      var answers := [];
      stash' := stash;
      while |answers| < cb.length
        invariant RunShared(cb, Desk(Value(), stash'), answers) == RunShared(cb, Desk(old(Value()), stash), [])
        invariant Unique(entries) && StashOk(stash')
        decreases cb.length - |answers|
      {
        var answer;
        answer, stash' := Serve(cb.act(answers), stash');
        answers := answers + [answer];
      }
      ending := cb.end(answers);
    }
  }

  // ---- the chain ----

  /** The owner tag of a chain position: it saturates instead of wrapping. */
  function ChainOwner(index: nat): nat {
    if index <= U16_MAX then index else U16_MAX
  }

  /** The tags of a chain are distinct exactly up to 65,536 interceptors. */
  lemma TagsDistinctIff(n: nat)
    ensures (forall i, j :: 0 <= i < j < n ==> ChainOwner(i) != ChainOwner(j)) <==> n <= U16_MAX + 1
  {
    if n > U16_MAX + 1 {
      assert ChainOwner(U16_MAX) == ChainOwner(U16_MAX + 1);
    }
  }

  /** An interceptor: how it reacts to the record it is given. */
  type Interceptor = int -> Callback

  /** The chain on independent maps; `displaced` says that some callback left another context in place. */
  datatype Maps = Maps(views: seq<map<nat, int>>, stash: seq<Context>, record: int, panicked: Option<nat>, displaced: bool)

  /** Callbacks `i..` in turn, each on its own map; `stop` ends the chain at a panic. */
  function RunMaps(chain: seq<Interceptor>, views: seq<map<nat, int>>, stash: seq<Context>, record: int, stop: bool, i: nat)
    : Maps
    requires |views| == |chain| && i <= |chain|
    decreases |chain| - i
  {
    if i == |chain| then Maps(views, stash, record, None, false)
    else
      var run := RunPrivate(chain[i](record), Start(stash, views[i]), []);
      var views', stash' := views[i := run.desk.view], Foreigns(run.desk.stash);
      if run.desk.place.Foreign? then Maps(views', stash', run.ending.record, None, true)
      else if run.ending.outcome == Panicked && stop then Maps(views', stash', run.ending.record, Some(i), false)
      else RunMaps(chain, views', stash', run.ending.record, stop, i + 1)
  }

  /** The shared vector holds the private maps of a chain, position by position. */
  ghost predicate HoldsMaps(entries: seq<Entry>, views: seq<map<nat, int>>) {
    forall i :: 0 <= i < |views| ==> Views(entries, ChainOwner(i), views[i])
  }

  /** One callback of the chain keeps the vector and the maps in step. */
  lemma CallKeepsMaps(cb: Callback, entries: seq<Entry>, stash: seq<Context>, views: seq<map<nat, int>>, i: nat)
    requires Unique(entries) && HoldsMaps(entries, views) && i < |views| <= U16_MAX + 1
    requires RunPrivate(cb, Start(stash, views[i]), []).desk.place.Home?
    ensures var r := RunShared(cb, Desk(Context(entries, ChainOwner(i)), stash), []);
            var run := RunPrivate(cb, Start(stash, views[i]), []);
            && r.ending == run.ending && r.desk.stash == Foreigns(run.desk.stash)
            && HoldsMaps(r.desk.ctx.entries, views[i := run.desk.view])
  {
    hide RunShared, RunPrivate, Start, Unique;
    var ctx := Context(entries, ChainOwner(i));
    assert Views(entries, ChainOwner(i), views[i]);
    SharedRefinesPrivate(cb, ctx, stash, views[i]);
    var r, run := RunShared(cb, Desk(ctx, stash), []), RunPrivate(cb, Start(stash, views[i]), []);
    forall j | 0 <= j < |views| ensures Views(r.desk.ctx.entries, ChainOwner(j), views[i := run.desk.view][j]) {
      if j != i {
        OthersView(entries, r.desk.ctx.entries, ChainOwner(i), ChainOwner(j), views[j]);
      }
    }
  }

  lemma OthersView(a: seq<Entry>, b: seq<Entry>, o: nat, p: nat, m: map<nat, int>)
    requires OthersSame(a, b, o) && p != o && Views(a, p, m)
    ensures Views(b, p, m)
  {
    hide At;
    assert SameView(a, b, p);
    forall t: nat ensures At(b, p, t) == Lookup(m, t) {
      assert At(a, p, t) == At(b, p, t);
    }
  }

  /** A chain short enough for distinct tags, on a vector that holds its maps, with every callback leaving the context in place. */
  ghost predicate Tracked(chain: seq<Interceptor>, entries: seq<Entry>, stash: seq<Context>,
                          views: seq<map<nat, int>>, record: int, stop: bool, i: nat)
  {
    && |views| == |chain| <= U16_MAX + 1 && i <= |chain| && HoldsMaps(entries, views)
    && !RunMaps(chain, views, stash, record, stop, i).displaced
  }

  /** One callback of a chain: the record and the desk it was given, and what it made of them. */
  datatype Turn = Turn(record: int, before: Desk, after: Shared)

  /** What a chain leaves after the turns taken so far. */
  ghost predicate Leaves(entries: seq<Entry>, stash: seq<Context>, record: int, turns: seq<Turn>,
                         entries': seq<Entry>, stash': seq<Context>, record': int)
  {
    if turns == [] then entries' == entries && stash' == stash && record' == record
    else
      var last := turns[|turns| - 1].after;
      entries' == last.desk.ctx.entries && stash' == last.desk.stash && record' == last.ending.record
  }

  /**
   The callbacks that ran, in chain order: each on the record, the entries and
   the stash the one before left, tagged with its own position.
   */
  ghost predicate IsTrace(chain: seq<Interceptor>, entries: seq<Entry>, stash: seq<Context>, record: int, turns: seq<Turn>) {
    turns == [] ||
    var n := |turns| - 1;
    && n < |chain| && IsTrace(chain, entries, stash, record, turns[..n])
    && var Turn(given, before, after) := turns[n];
    && Leaves(entries, stash, record, turns[..n], before.ctx.entries, before.stash, given)
    && before.ctx.owner == (if n < 65536 then n else 65535)
    && after == RunShared(chain[n](given), before, [])
  }

  predicate PanickedAt(turns: seq<Turn>, i: nat) {
    i < |turns| && turns[i].after.ending.outcome == Panicked
  }

  lemma TraceGrows(chain: seq<Interceptor>, entries: seq<Entry>, stash: seq<Context>, record: int, turns: seq<Turn>, turn: Turn)
    requires IsTrace(chain, entries, stash, record, turns) && |turns| < |chain|
    requires Leaves(entries, stash, record, turns, turn.before.ctx.entries, turn.before.stash, turn.record)
    requires turn.before.ctx.owner == ChainOwner(|turns|)
    requires turn.after == RunShared(chain[|turns|](turn.record), turn.before, [])
    ensures IsTrace(chain, entries, stash, record, turns + [turn])
    ensures forall j: nat :: PanickedAt(turns + [turn], j) <==>
              PanickedAt(turns, j) || (j == |turns| && turn.after.ending.outcome == Panicked)
  {
    hide RunShared;
    assert (turns + [turn])[..|turns|] == turns;
  }

  /**
   `on_send` (with `stop`) and `on_acknowledgement` of a chain. Whatever the
   callbacks do: they run in order, each on what the one before left, and the
   context, the stash and the record are as the last one left them; a failure
   never ends the chain, and a panic ends it exactly when `stop` is set; the
   owner tag is as it was and entries are unique. A tracked chain acts on the
   shared vector as on one private map per interceptor.
   */
  method RunChain(chain: seq<Interceptor>, ctx: RecordContext, stash: seq<Context>, record: int, stop: bool,
                  ghost views: seq<map<nat, int>>)
    returns (panicked: Option<nat>, record': int, stash': seq<Context>, ghost views': seq<map<nat, int>>, ghost turns: seq<Turn>)
    requires Unique(ctx.entries) && StashOk(stash)
    modifies ctx
    ensures ctx.owner == old(ctx.owner) && Unique(ctx.entries) && StashOk(stash')
    ensures IsTrace(chain, old(ctx.entries), stash, record, turns)
    ensures Leaves(old(ctx.entries), stash, record, turns, ctx.entries, stash', record')
    ensures forall i: nat :: panicked == Some(i) <==>
              stop && |turns| == i + 1 && PanickedAt(turns, i) && forall j: nat :: j < i ==> !PanickedAt(turns, j)
    ensures panicked == None <==> |turns| == |chain| && (stop ==> forall j: nat :: !PanickedAt(turns, j))
    ensures Tracked(chain, old(ctx.entries), stash, views, record, stop, 0) ==>
              && Maps(views', stash', record', panicked, false) == RunMaps(chain, views, stash, record, stop, 0)
              && |views'| == |chain| && HoldsMaps(ctx.entries, views')
  {
    hide Unique, HoldsMaps, RunShared, RunPrivate, Foreigns, Start;
    record', stash', views', panicked, turns := record, stash, views, None, [];
    ghost var tracked := Tracked(chain, ctx.entries, stash, views, record, stop, 0);
    for i := 0 to |chain|
      invariant ctx.owner == old(ctx.owner) && Unique(ctx.entries) && StashOk(stash')
      invariant |turns| == i && IsTrace(chain, old(ctx.entries), stash, record, turns)
      invariant Leaves(old(ctx.entries), stash, record, turns, ctx.entries, stash', record')
      invariant stop ==> forall j: nat :: !PanickedAt(turns, j)
      invariant tracked ==> Tracked(chain, ctx.entries, stash', views', record', stop, i)
      invariant tracked ==> RunMaps(chain, views', stash', record', stop, i) == RunMaps(chain, views, stash, record, stop, 0)
    {
      var previous := ctx.SetOwner(ChainOwner(i));
      ghost var before := Desk(ctx.Value(), stash');
      ghost var view := if tracked then views'[i] else map[];
      ghost var run := RunPrivate(chain[i](record'), Start(stash', view), []);
      if tracked {
        CallKeepsMaps(chain[i](record'), ctx.entries, stash', views', i);
      }
      var ending;
      ending, stash' := ctx.Run(chain[i](record'), stash');
      ghost var turn := Turn(record', before, Shared(Desk(ctx.Value(), stash'), ending));
      TraceGrows(chain, old(ctx.entries), stash, record, turns, turn);
      var _ := ctx.SetOwner(previous);
      record', turns := ending.record, turns + [turn];
      if tracked {
        views' := views'[i := run.desk.view];
      }
      if ending.outcome == Panicked && stop {
        panicked := Some(i);
        return;
      }
    }
  }
}
