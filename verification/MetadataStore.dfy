/**
 The shared state of `ClusterMetadata` and the sections of code that change it
 in place. Each method runs without interruption; what happens between them is
 the subject of `MetadataProtocol`, whose events use the same functions.
 */
module MetadataStore {
  import opened Wrappers
  import opened MetadataTypes
  import opened MetadataMerge
  import opened MetadataHint
  import opened MetadataProtocol

  /** The stamps after `names` were used at `nowMs`. */
  ghost predicate Touched(before: map<string, TopicStamp>, after: map<string, TopicStamp>, names: seq<string>, nowMs: nat) {
    && after.Keys == before.Keys
    && forall n :: n in before ==>
         after[n] == if n in names then before[n].(lastUsedMs := nowMs) else before[n]
  }

  function NameSet(names: seq<string>): set<string> {
    set n | n in names
  }

  /** The set of names a request asks for; `None` is every topic. */
  function Wanted(names: Option<seq<string>>): Option<set<string>> {
    if names.Some? then Some(NameSet(names.value)) else None
  }

  /** A request needs no fetch when there are brokers and each topic was itself fetched no longer than `maxAge` ago. */
  lemma FreshIsExact(cur: Snapshot, names: seq<string>, now: nat, maxAge: nat)
    ensures AllFresh(cur, NameSet(names), now, maxAge) <==>
              && cur.brokers != map[]
              && forall n :: n in names ==> n in cur.topics && n in cur.stamps && now <= cur.stamps[n].refreshed + maxAge
  {
    assert forall n :: n in names <==> n in NameSet(names);
    if AllFresh(cur, NameSet(names), now, maxAge) {
      forall n | n in names ensures n in cur.topics && n in cur.stamps && now <= cur.stamps[n].refreshed + maxAge {
        assert TopicIsFresh(cur, n, now, maxAge);
      }
    }
  }

  class Inner {
    var cache: Snapshot
    var pending: Batch
    var attemptStart: Option<nat>
    const ttl: Option<nat>
    const maxAge: nat

    constructor (ttl: Option<nat>, maxAge: nat, now: nat)
      ensures cache == EmptySnapshot(now, 0, 0) && WellFormed(cache)
      ensures pending == EMPTY_BATCH && attemptStart == None
      ensures this.ttl == ttl && this.maxAge == maxAge
    {
      this.ttl, this.maxAge := ttl, maxAge;
      cache := EmptySnapshot(now, 0, 0);
      pending, attemptStart := EMPTY_BATCH, None;
    }

    /** Apply a response unless a rebootstrap happened since the fetch started. */
    method Apply(r: Response, full: bool, resetEpoch: nat, now: nat, nowMs: nat) returns (applied: bool)
      modifies this`cache
      ensures applied <==> old(cache.resetEpoch) == resetEpoch
      ensures applied ==> IsMerge(old(cache), r, MergeArgs(full, ttl, now, nowMs), cache)
      ensures !applied ==> cache == old(cache)
    {
      if cache.resetEpoch != resetEpoch {
        return false;
      }
      var next := Merge(cache, r, MergeArgs(full, ttl, now, nowMs));
      cache := next;
      return true;
    }

    /**
     Fold in a broker-reported leader; `changed` says whether a new snapshot was
     published. Naming a leader marks the topic as in use, changed or not.
     */
    method ApplyLeaderHint(h: Hint, nowMs: nat) returns (changed: bool)
      modifies this`cache
      ensures changed <==> ApplyHint(old(cache), h).Some?
      ensures cache == Hinted(old(cache), h).(stamps := cache.stamps)
      ensures ttl.None? || h.leaderId < 0 ==> cache.stamps == old(cache.stamps)
      ensures ttl.Some? && h.leaderId >= 0 ==> Touched(old(cache.stamps), cache.stamps, [h.topic], nowMs)
    {
      if h.leaderId < 0 {
        return false;
      }
      TouchTopics([h.topic], nowMs);
      var endpointIsNew := EndpointIsNew(cache, h);
      var partitionIsNew := PartitionIsNew(cache, h);
      if !endpointIsNew && !partitionIsNew {
        return false;
      }
      var next := cache.(generation := cache.generation + 1);
      if endpointIsNew {
        next := next.(brokers := next.brokers[h.endpoint.value.id := h.endpoint.value]);
      }
      if partitionIsNew {
        var t := next.topics[h.topic];
        var p := t.partitions[h.partition];
        p := p.(leader := h.leaderId, leaderEpoch := h.leaderEpoch, errorCode := NO_ERROR);
        next := next.(topics := next.topics[h.topic := t.(partitions := t.partitions[h.partition := p])]);
      }
      cache := next;
      return true;
    }

    /** Publish an empty snapshot under a new reset epoch and restart the failure streak. */
    method ResetToSeeds(now: nat, later: nat)
      modifies this`cache, this`attemptStart
      ensures cache == ResetSnapshot(old(cache), now) && WellFormed(cache)
      ensures cache.resetEpoch > old(cache.resetEpoch) && cache.generation > old(cache.generation)
      ensures attemptStart == Some(later)
    {
      cache := EmptySnapshot(now, cache.generation + 1, cache.resetEpoch + 1);
      attemptStart := Some(later);
    }

    /** Mark topics as in use; topics that are not cached have no timer. */
    method TouchTopics(names: seq<string>, nowMs: nat)
      modifies this`cache
      ensures cache == old(cache).(stamps := cache.stamps)
      ensures ttl.None? ==> cache == old(cache)
      ensures ttl.Some? ==> Touched(old(cache.stamps), cache.stamps, names, nowMs)
    {
      if ttl.None? {
        return;
      }
      for i := 0 to |names|
        invariant cache == old(cache).(stamps := cache.stamps)
        invariant Touched(old(cache.stamps), cache.stamps, names[..i], nowMs)
      {
        assert names[..i + 1] == names[..i] + [names[i]];
        if names[i] in cache.stamps {
          var stamp := cache.stamps[names[i]];
          cache := cache.(stamps := cache.stamps[names[i] := stamp.(lastUsedMs := nowMs)]);
        }
      }
      assert names[..|names|] == names;
    }

    /**
     Hand a request to the writer as waiter `w`, unless it is not forced and
     every name is cached and current. A queued request is covered by the batch
     it joins, and so is every request already in that batch.
     */
    method Request(names: Option<seq<string>>, force: bool, w: nat, now: nat, nowMs: nat) returns (queued: bool)
      modifies this`cache, this`pending
      ensures cache == old(cache).(stamps := cache.stamps)
      ensures names.None? || ttl.None? ==> cache == old(cache)
      ensures names.Some? && ttl.Some? ==> Touched(old(cache.stamps), cache.stamps, names.value, nowMs)
      ensures !queued <==>
                && names.Some? && !force && old(cache.brokers) != map[]
                && forall n :: n in names.value ==>
                     n in old(cache.topics) && n in old(cache.stamps) && now <= old(cache.stamps)[n].refreshed + maxAge
      ensures !queued ==> pending == old(pending)
      ensures queued ==> pending == Joined(old(pending), Wanted(names), w) && Covers(BatchTopics(pending), Wanted(names))
      ensures queued ==>
                && pending.full == (old(pending.full) || names.None?)
                && (forall n :: n in pending.topics <==> n in old(pending.topics) || (names.Some? && n in names.value))
                && pending.waiters == old(pending.waiters) + {w} && pending.rebootstrap == old(pending.rebootstrap)
      ensures forall want :: Covers(BatchTopics(old(pending)), want) ==> Covers(BatchTopics(pending), want)
    {
      if names.Some? {
        TouchTopics(names.value, nowMs);
        FreshIsExact(cache, names.value, now, maxAge);
        if !force && AllFresh(cache, NameSet(names.value), now, maxAge) {
          return false;
        }
      }
      match names {
        case None => pending := pending.(full := true);
        case Some(ns) => pending := pending.(topics := pending.topics + NameSet(ns));
      }
      pending := pending.(waiters := pending.waiters + {w});
      return true;
    }

    /** The writer takes everything requested so far and leaves an empty batch. */
    method TakeBatch() returns (batch: Batch)
      modifies this`pending
      ensures batch == old(pending) && pending == EMPTY_BATCH
    {
      batch, pending := pending, EMPTY_BATCH;
    }
  }
}
