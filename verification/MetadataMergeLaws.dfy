/** What a merge does to each name, to the well-formedness of the snapshot and to known epochs. */
module MetadataMergeLaws {
  import opened Wrappers
  import opened MetadataTypes
  import opened MetadataMerge
  import opened MetadataHint

  // ---- each name depends on its own items only ----

  /** The items that carry a name, in response order. */
  function ItemsNamed(items: seq<TopicItem>, name: string): seq<TopicItem> {
    if items == [] then []
    else
      var rest := ItemsNamed(items[..|items| - 1], name);
      if items[|items| - 1].name == Some(name) then rest + [items[|items| - 1]] else rest
  }

  lemma {:induction false} SlotOfOwnItems(cur: Snapshot, a: MergeArgs, name: string, items: seq<TopicItem>)
    ensures SlotAfter(cur, a, name, items) == SlotAfter(cur, a, name, ItemsNamed(items, name))
  {
    if items != [] {
      var n := |items| - 1;
      SlotOfOwnItems(cur, a, name, items[..n]);
      var rest := ItemsNamed(items[..n], name);
      assert (rest + [items[n]])[..|rest|] == rest;
    }
  }

  lemma {:induction false} OwnItemsDistinct(items: seq<TopicItem>, name: string, i: nat)
    requires DistinctNames(items) && i < |items| && items[i].name == Some(name)
    ensures ItemsNamed(items, name) == [items[i]]
  {
    var n := |items| - 1;
    if i < n {
      OwnItemsDistinct(items[..n], name, i);
    } else {
      OwnItemsNone(items[..n], name);
    }
  }

  lemma {:induction false} OwnItemsNone(items: seq<TopicItem>, name: string)
    requires forall i :: 0 <= i < |items| ==> items[i].name != Some(name)
    ensures ItemsNamed(items, name) == []
  {
    if items != [] {
      OwnItemsNone(items[..|items| - 1], name);
    }
  }

  /** A name no item carries keeps its entry exactly when the refresh is partial and the entry is not idle. */
  lemma MergeUnnamed(cur: Snapshot, r: Response, a: MergeArgs, next: Snapshot, name: string)
    requires IsMerge(cur, r, a, next)
    requires forall i :: 0 <= i < |r.topics| ==> r.topics[i].name != Some(name)
    ensures Lookup(next.topics, name) ==
            if !a.full && name in cur.topics && Retained(cur, a, name) then Some(cur.topics[name]) else None
    ensures Lookup(next.stamps, name) == if name in next.topics then Lookup(cur.stamps, name) else None
    ensures name in next.topicErrors <==>
              !a.full && name in cur.topicErrors && (a.ttl.None? || name in next.topics)
    ensures name in next.topicErrors ==> next.topicErrors[name] == cur.topicErrors[name]
  {
    SlotOfOwnItems(cur, a, name, r.topics);
    OwnItemsNone(r.topics, name);
  }

  /**
   With distinct names, the one item that carries a name decides it: a transient
   error keeps (or restores) the cached entry, any other error drops it, a
   healthy item replaces it, fencing each partition by the cached epoch.
   */
  lemma MergeNamed(cur: Snapshot, r: Response, a: MergeArgs, next: Snapshot, name: string, i: nat)
    requires IsMerge(cur, r, a, next) && DistinctNames(r.topics)
    requires i < |r.topics| && r.topics[i].name == Some(name)
    ensures r.topics[i].errorCode == NO_ERROR ==>
              && name in next.topics && IsBuilt(Lookup(cur.topics, name), name, r.topics[i], next.topics[name])
              && name !in next.topicErrors
    ensures r.topics[i].errorCode != NO_ERROR ==> Lookup(next.topicErrors, name) == Some(r.topics[i].errorCode)
    ensures r.topics[i].errorCode != NO_ERROR ==>
              Lookup(next.topics, name) == if IsTransient(r.topics[i].errorCode) then Lookup(cur.topics, name) else None
    ensures name in next.stamps <==> name in next.topics
    ensures name in next.topics ==>
              next.stamps[name] == TopicStamp(a.now, if name in cur.stamps then cur.stamps[name].lastUsedMs else 0)
  {
    SlotOfOwnItems(cur, a, name, r.topics);
    OwnItemsDistinct(r.topics, name, i);
    var item := r.topics[i];
    assert [item][..0] == [];
    assert SlotAfter(cur, a, name, [item]) ==
           SlotStep(Lookup(cur.topics, name), name, SlotBefore(cur, a, name), item);
  }

  /**
   The partition a healthy item's last report leaves, written out. A healthy
   report is taken as it is unless the cached topic is the same one and holds a
   newer epoch, in which case the partition is the cached one; an errored report
   is kept without leader and epoch; an unreported partition is gone.
   */
  lemma MergedPartition(cur: Snapshot, r: Response, a: MergeArgs, next: Snapshot, name: string, i: nat, id: int)
    requires IsMerge(cur, r, a, next) && DistinctNames(r.topics)
    requires i < |r.topics| && r.topics[i].name == Some(name) && r.topics[i].errorCode == NO_ERROR
    ensures name in next.topics && next.topics[name].isInternal == r.topics[i].isInternal
    ensures next.topics[name].topicId == if r.topics[i].topicId.Some? then r.topics[i].topicId.value else 0
    ensures id in next.topics[name].partitions <==> exists j :: IsLastReport(r.topics[i].partitions, j, id)
    ensures forall j :: IsLastReport(r.topics[i].partitions, j, id) ==>
              && var p := r.topics[i].partitions[j];
              && var known := PartitionAt(cur, name, id);
              && var recreated := name in cur.topics && cur.topics[name].topicId != 0
                                  && r.topics[i].topicId.Some? && r.topics[i].topicId.value != 0
                                  && r.topics[i].topicId.value != cur.topics[name].topicId;
              && var newer := known.Some? && !recreated && 0 <= p.leaderEpoch < known.value.leaderEpoch;
              && (p.errorCode == NO_ERROR && newer ==> PartitionAt(next, name, id) == known)
              && (p.errorCode == NO_ERROR && !newer ==>
                    PartitionAt(next, name, id) ==
                    Some(PartitionInfo(name, id, p.leaderId, p.leaderEpoch, p.replicaNodes, p.isrNodes, p.offlineReplicas, NO_ERROR)))
              && (p.errorCode != NO_ERROR ==>
                    PartitionAt(next, name, id) ==
                    Some(PartitionInfo(name, id, -1, -1, p.replicaNodes, p.isrNodes, p.offlineReplicas, p.errorCode)))
  {
    hide IsMerge, IsPartitionMap;
    MergeNamed(cur, r, a, next, name, i);
    var t := next.topics[name];
    ReportsDecide(name, Fenceable(Lookup(cur.topics, name), t.topicId), r.topics[i].partitions, t.partitions);
  }

  /**
   What an errored item leaves of its topic. A code that says the topic does not
   exist drops it although brokers let such a request be retried; any other
   retriable code leaves it as it was cached; every other code drops it.
   */
  lemma MergedError(cur: Snapshot, r: Response, a: MergeArgs, next: Snapshot, name: string, i: nat)
    requires IsMerge(cur, r, a, next) && DistinctNames(r.topics)
    requires i < |r.topics| && r.topics[i].name == Some(name) && r.topics[i].errorCode != NO_ERROR
    ensures Lookup(next.topicErrors, name) == Some(r.topics[i].errorCode)
    ensures r.topics[i].errorCode in {3, 100} ==> name !in next.topics
    ensures r.topics[i].errorCode !in {3, 100} && IsRetriable(r.topics[i].errorCode) ==>
              Lookup(next.topics, name) == Lookup(cur.topics, name)
    ensures !IsRetriable(r.topics[i].errorCode) ==> name !in next.topics
    ensures name in next.topics ==> name in next.stamps && next.stamps[name].refreshed == a.now
  {
    hide IsMerge, IsRetriable;
    MergeNamed(cur, r, a, next, name, i);
  }

  /** The last broker listed under an ID is the one kept; an unlisted broker is gone. */
  lemma MergedBroker(cur: Snapshot, r: Response, a: MergeArgs, next: Snapshot, id: int)
    requires IsMerge(cur, r, a, next)
    ensures id in next.brokers <==> exists j :: 0 <= j < |r.brokers| && r.brokers[j].id == id
    ensures forall j :: 0 <= j < |r.brokers| && r.brokers[j].id == id
                        && (forall k :: j < k < |r.brokers| ==> r.brokers[k].id != id) ==>
              id in next.brokers && next.brokers[id] == r.brokers[j]
  {
    assert Lookup(next.brokers, id) == LastBroker(r.brokers, id);
    LastBrokerCounts(r.brokers, id);
  }

  lemma {:induction false} LastBrokerCounts(items: seq<BrokerInfo>, id: int)
    ensures LastBroker(items, id).Some? <==> exists j :: 0 <= j < |items| && items[j].id == id
    ensures forall j :: 0 <= j < |items| && items[j].id == id && (forall k :: j < k < |items| ==> items[k].id != id) ==>
              LastBroker(items, id) == Some(items[j])
  {
    if items != [] {
      var n := |items| - 1;
      LastBrokerCounts(items[..n], id);
      assert forall j :: 0 <= j < n ==> items[j] == items[..n][j];
      forall j | 0 <= j < |items| && items[j].id == id && (forall k :: j < k < |items| ==> items[k].id != id)
        ensures LastBroker(items, id) == Some(items[j])
      {
        if j < n {
          assert items[..n][j].id == id;
        }
      }
    }
  }

  /**
   A name the response does not mention, with the idle rule written out: a full
   refresh drops it; a partial one keeps it as it was, unless a TTL is set and
   both its last fetch and its last use are longer ago.
   */
  lemma MergeEvicts(cur: Snapshot, r: Response, a: MergeArgs, next: Snapshot, name: string)
    requires IsMerge(cur, r, a, next)
    requires forall i :: 0 <= i < |r.topics| ==> r.topics[i].name != Some(name)
    ensures a.full ==> name !in next.topics && name !in next.stamps && name !in next.topicErrors
    ensures !a.full && a.ttl.None? ==> Lookup(next.topics, name) == Lookup(cur.topics, name)
    ensures !a.full && a.ttl.Some? ==>
              (name in next.topics <==>
                 && name in cur.topics && name in cur.stamps
                 && (|| a.now <= cur.stamps[name].refreshed + a.ttl.value
                     || (cur.stamps[name].lastUsedMs != 0
                         && a.nowMs <= cur.stamps[name].lastUsedMs + a.ttl.value / 1_000_000)))
    ensures name in next.topics ==> name in cur.topics && next.topics[name] == cur.topics[name]
    ensures name in next.stamps ==> name in cur.stamps && next.stamps[name] == cur.stamps[name]
  {
    MergeUnnamed(cur, r, a, next, name);
  }

  /** Snapshots that differ at most in which of two topics sharing an ID the reverse index names. */
  ghost predicate SameButIdTies(s: Snapshot, t: Snapshot) {
    s == t.(topicIds := s.topicIds) && s.topicIds.Keys == t.topicIds.Keys
  }

  lemma IndexKeysEqual(topics: map<string, TopicInfo>, ids: map<nat, string>, names: map<string, nat>,
                       ids': map<nat, string>, names': map<string, nat>)
    requires IdsIndexed(topics, ids, names) && IdsIndexed(topics, ids', names')
    ensures names == names' && ids.Keys == ids'.Keys
  {
  }

  /** The merge is determined by, for each name, the items carrying it. */
  lemma MergeDetermined(cur: Snapshot, r: Response, r': Response, a: MergeArgs, next: Snapshot, next': Snapshot)
    requires IsMerge(cur, r, a, next) && IsMerge(cur, r', a, next')
    requires r' == r.(topics := r'.topics)
    requires forall name :: ItemsNamed(r.topics, name) == ItemsNamed(r'.topics, name)
    ensures SameButIdTies(next, next')
  {
    forall name ensures SlotAfter(cur, a, name, r.topics) == SlotAfter(cur, a, name, r'.topics) {
      SlotOfOwnItems(cur, a, name, r.topics);
      SlotOfOwnItems(cur, a, name, r'.topics);
    }
    SlotsDetermine(cur, r, r', a, next, next');
    IndexKeysEqual(next.topics, next.topicIds, next.nameToTopicId, next'.topicIds, next'.nameToTopicId);
  }

  lemma SlotsDetermine(cur: Snapshot, r: Response, r': Response, a: MergeArgs, next: Snapshot, next': Snapshot)
    requires IsMerge(cur, r, a, next) && IsMerge(cur, r', a, next')
    requires r' == r.(topics := r'.topics)
    requires forall name :: SlotAfter(cur, a, name, r.topics) == SlotAfter(cur, a, name, r'.topics)
    ensures next.topics == next'.topics && next.topicErrors == next'.topicErrors
    ensures next.stamps == next'.stamps && next.brokers == next'.brokers
  {
    forall name
      ensures Lookup(next.topics, name) == Lookup(next'.topics, name)
      ensures Lookup(next.topicErrors, name) == Lookup(next'.topicErrors, name)
      ensures Lookup(next.stamps, name) == Lookup(next'.stamps, name)
    {
      assert SlotAfter(cur, a, name, r.topics) == SlotAfter(cur, a, name, r'.topics);
    }
    LookupExtensional(next.topics, next'.topics);
    LookupExtensional(next.topicErrors, next'.topicErrors);
    LookupExtensional(next.stamps, next'.stamps);
    forall id ensures Lookup(next.brokers, id) == Lookup(next'.brokers, id) {
      assert Lookup(next.brokers, id) == LastBroker(r.brokers, id);
    }
    LookupExtensional(next.brokers, next'.brokers);
  }

  /** With distinct names the order of the topics in the response is irrelevant. */
  lemma MergeOrderIrrelevant(cur: Snapshot, r: Response, r': Response, a: MergeArgs,
                             next: Snapshot, next': Snapshot)
    requires IsMerge(cur, r, a, next) && IsMerge(cur, r', a, next')
    requires r' == r.(topics := r'.topics)
    requires DistinctNames(r.topics) && DistinctNames(r'.topics)
    requires multiset(r.topics) == multiset(r'.topics)
    ensures SameButIdTies(next, next')
  {
    forall name ensures ItemsNamed(r.topics, name) == ItemsNamed(r'.topics, name) {
      assert forall item :: item in r.topics <==> item in multiset(r.topics);
      assert forall item :: item in r'.topics <==> item in multiset(r'.topics);
      if i :| 0 <= i < |r.topics| && r.topics[i].name == Some(name) {
        assert r.topics[i] in r'.topics;
        var j :| 0 <= j < |r'.topics| && r'.topics[j] == r.topics[i];
        OwnItemsDistinct(r.topics, name, i);
        OwnItemsDistinct(r'.topics, name, j);
      } else {
        OwnItemsNone(r.topics, name);
        forall j | 0 <= j < |r'.topics| ensures r'.topics[j].name != Some(name) {
          assert r'.topics[j] in r.topics;
        }
        OwnItemsNone(r'.topics, name);
      }
    }
    MergeDetermined(cur, r, r', a, next, next');
  }

  // ---- where an entry comes from ----

  predicate IsHealthy(item: TopicItem, name: string) {
    item.name == Some(name) && item.errorCode == NO_ERROR
  }

  /** The item leaves an entry in place: it is healthy, or transient while the topic is cached. */
  predicate Fills(cur: Snapshot, item: TopicItem, name: string) {
    item.name == Some(name) &&
    (item.errorCode == NO_ERROR || (IsTransient(item.errorCode) && name in cur.topics))
  }

  predicate Removes(item: TopicItem, name: string) {
    item.name == Some(name) && item.errorCode != NO_ERROR && !IsTransient(item.errorCode)
  }

  /** An entry is the cached one or was built by a healthy item of the response. */
  lemma {:induction false} EntryOrigin(cur: Snapshot, a: MergeArgs, name: string, items: seq<TopicItem>)
    returns (k: int)
    requires SlotAfter(cur, a, name, items).entry.Some?
    ensures -1 <= k < |items|
    ensures k == -1 ==> Lookup(cur.topics, name) == SlotAfter(cur, a, name, items).entry
    ensures k >= 0 ==> IsHealthy(items[k], name)
    ensures k >= 0 ==>
              SlotAfter(cur, a, name, items).entry.value == Built(Lookup(cur.topics, name), name, items[k])
  {
    if items == [] {
      k := -1;
    } else {
      var n := |items| - 1;
      if items[n].name == Some(name) && items[n].errorCode == NO_ERROR {
        k := n;
      } else if SlotAfter(cur, a, name, items[..n]).entry.Some? {
        k := EntryOrigin(cur, a, name, items[..n]);
      } else {
        k := -1;
      }
    }
  }

  /** The last item that fills the name is followed by one that removes it. */
  ghost predicate Orphans(cur: Snapshot, items: seq<TopicItem>, name: string) {
    exists i, j :: 0 <= i < j < |items| && Fills(cur, items[i], name) && Removes(items[j], name)
                   && forall k :: i < k < |items| ==> !Fills(cur, items[k], name)
  }

  lemma {:induction false} SlotFetched(cur: Snapshot, a: MergeArgs, name: string, items: seq<TopicItem>)
    ensures SlotAfter(cur, a, name, items).fetched <==>
              exists i :: 0 <= i < |items| && Fills(cur, items[i], name)
    ensures SlotAfter(cur, a, name, items).entry.Some? ==>
              SlotAfter(cur, a, name, items).fetched || (Kept(cur, a, name) && forall i :: 0 <= i < |items| ==> !Removes(items[i], name))
  {
    if items != [] {
      var n := |items| - 1;
      var prefix := items[..n];
      SlotFetched(cur, a, name, prefix);
      assert forall i :: 0 <= i < n ==> items[i] == prefix[i];
      if SlotAfter(cur, a, name, prefix).fetched {
        var i :| 0 <= i < |prefix| && Fills(cur, prefix[i], name);
        assert Fills(cur, items[i], name);
      }
      if Fills(cur, items[n], name) {
        assert SlotAfter(cur, a, name, items).fetched;
      }
    }
  }

  /** How the last item changes whether a name is orphaned. */
  lemma OrphansUnfold(cur: Snapshot, prefix: seq<TopicItem>, last: TopicItem, name: string)
    ensures Orphans(cur, prefix + [last], name) <==>
              if Fills(cur, last, name) then false
              else if Removes(last, name) then exists i :: 0 <= i < |prefix| && Fills(cur, prefix[i], name)
              else Orphans(cur, prefix, name)
  {
    var items := prefix + [last];
    var n := |prefix|;
    assert items[n] == last;
    if Fills(cur, last, name) {
    } else if Removes(last, name) {
      if exists i :: 0 <= i < |prefix| && Fills(cur, prefix[i], name) {
        var i := LastFilling(cur, name, prefix);
        assert Fills(cur, items[i], name) && Removes(items[n], name);
      }
      if Orphans(cur, items, name) {
        var i :| 0 <= i < n && Fills(cur, items[i], name);
        assert Fills(cur, prefix[i], name);
      }
    } else {
      if Orphans(cur, prefix, name) {
        var i, j :| 0 <= i < j < n && Fills(cur, prefix[i], name) && Removes(prefix[j], name)
                    && forall k :: i < k < n ==> !Fills(cur, prefix[k], name);
        assert Fills(cur, items[i], name) && Removes(items[j], name);
      }
      if Orphans(cur, items, name) {
        var i, j :| 0 <= i < j < |items| && Fills(cur, items[i], name) && Removes(items[j], name)
                    && forall k :: i < k < |items| ==> !Fills(cur, items[k], name);
        assert Fills(cur, prefix[i], name) && Removes(prefix[j], name);
        forall k | i < k < n ensures !Fills(cur, prefix[k], name) {
          assert items[k] == prefix[k];
        }
      }
    }
  }

  /** What one more item of the name does to its slot. */
  lemma SlotTurns(cur: Snapshot, name: string, slot: Slot, item: TopicItem)
    requires item.name == Some(name)
    ensures var slot' := SlotStep(Lookup(cur.topics, name), name, slot, item);
            && (Fills(cur, item, name) ==> slot'.fetched && slot'.entry.Some?)
            && (Removes(item, name) ==> slot'.fetched == slot.fetched && slot'.entry.None?)
            && (!Fills(cur, item, name) && !Removes(item, name) ==>
                  slot'.entry == slot.entry && slot'.fetched == (slot.fetched || slot.entry.Some?))
  {
    hide Built, IsTransient;
  }

  /** A renewed name without entry is exactly an orphaned one. */
  lemma {:induction false} SlotOrphaned(cur: Snapshot, a: MergeArgs, name: string, items: seq<TopicItem>)
    ensures SlotAfter(cur, a, name, items).fetched && SlotAfter(cur, a, name, items).entry.None? <==>
            Orphans(cur, items, name)
  {
    if items != [] {
      hide Orphans, SlotStep, IsTransient;
      var n := |items| - 1;
      SlotOrphaned(cur, a, name, items[..n]);
      SlotFetched(cur, a, name, items[..n]);
      OrphansUnfold(cur, items[..n], items[n], name);
      assert items == items[..n] + [items[n]];
      if items[n].name == Some(name) {
        SlotTurns(cur, name, SlotAfter(cur, a, name, items[..n]), items[n]);
      }
    }
  }

  lemma {:induction false} LastFilling(cur: Snapshot, name: string, items: seq<TopicItem>) returns (i: nat)
    requires exists k :: 0 <= k < |items| && Fills(cur, items[k], name)
    ensures i < |items| && Fills(cur, items[i], name)
    ensures forall k :: i < k < |items| ==> !Fills(cur, items[k], name)
  {
    var n := |items| - 1;
    if Fills(cur, items[n], name) {
      i := n;
    } else {
      var k :| 0 <= k < |items| && Fills(cur, items[k], name);
      assert Fills(cur, items[..n][k], name);
      i := LastFilling(cur, name, items[..n]);
      assert forall k :: i < k < n ==> items[k] == items[..n][k];
    }
  }

  // ---- well-formedness ----

  /**
   A merge leaves a stamp without topic exactly for the names its response
   orphans, whatever stamps the snapshot had before.
   */
  lemma MergeStampsExact(cur: Snapshot, r: Response, a: MergeArgs, next: Snapshot)
    requires cur.topics.Keys <= cur.stamps.Keys && IsMerge(cur, r, a, next)
    ensures StampsCoverTopics(next) <==> forall name :: !Orphans(cur, r.topics, name)
    ensures next.topics.Keys <= next.stamps.Keys
    ensures forall name :: name in next.stamps && name !in next.topics <==> Orphans(cur, r.topics, name)
  {
    forall name
      ensures name in next.topics ==> name in next.stamps
      ensures name in next.stamps && name !in next.topics <==> Orphans(cur, r.topics, name)
    {
      SlotFetched(cur, a, name, r.topics);
      SlotOrphaned(cur, a, name, r.topics);
      assert Lookup(next.topics, name) == SlotAfter(cur, a, name, r.topics).entry;
    }
  }

  lemma DistinctNeverOrphans(cur: Snapshot, items: seq<TopicItem>, name: string)
    requires DistinctNames(items)
    ensures !Orphans(cur, items, name)
  {
  }

  /** A response that describes a topic and then denies it leaves a stamp with no topic. */
  lemma DuplicateLeavesOrphanStamp(a: MergeArgs, next: Snapshot)
    requires IsMerge(EmptySnapshot(0, 0, 0), DuplicateResponse(), a, next)
    ensures "t" in next.stamps && "t" !in next.topics
  {
    var cur, r := EmptySnapshot(0, 0, 0), DuplicateResponse();
    assert Fills(cur, r.topics[0], "t") && Removes(r.topics[1], "t");
    assert Orphans(cur, r.topics, "t");
    MergeStampsExact(cur, r, a, next);
  }

  function DuplicateResponse(): Response {
    Response([], None, -1,
             [TopicItem(NO_ERROR, Some("t"), None, false, []),
              TopicItem(UNKNOWN_TOPIC_OR_PARTITION, Some("t"), None, false, [])], NO_ERROR)
  }

  lemma BuiltOk(cached: Option<TopicInfo>, name: string, item: TopicItem)
    requires cached.Some? ==> TopicOk(name, cached.value)
    ensures TopicOk(name, Built(cached, name, item))
  {
    var t := Built(cached, name, item);
    forall id | id in t.partitions ensures PartitionOk(name, id, t.partitions[id]) {
      assert Lookup(t.partitions, id) ==
             PartitionAfter(name, Fenceable(cached, t.topicId), item.partitions, id);
      LastPartitionFinds(item.partitions, id);
    }
  }

  lemma MergeKeepsTopicsOk(cur: Snapshot, r: Response, a: MergeArgs, next: Snapshot)
    requires TopicsOk(cur) && IsMerge(cur, r, a, next)
    ensures TopicsOk(next)
  {
    forall name | name in next.topics ensures TopicOk(name, next.topics[name]) {
      assert Lookup(next.topics, name) == SlotAfter(cur, a, name, r.topics).entry;
      var k := EntryOrigin(cur, a, name, r.topics);
      if k >= 0 {
        BuiltOk(Lookup(cur.topics, name), name, r.topics[k]);
      }
    }
  }

  /** Every merge keeps a snapshot sound, and makes it well formed exactly when its response orphans no name. */
  lemma MergeKeepsSound(cur: Snapshot, r: Response, a: MergeArgs, next: Snapshot)
    requires Sound(cur) && IsMerge(cur, r, a, next)
    ensures Sound(next)
    ensures WellFormed(next) <==> forall name :: !Orphans(cur, r.topics, name)
  {
    MergeStampsExact(cur, r, a, next);
    MergeKeepsTopicsOk(cur, r, a, next);
  }

  // ---- leader epochs ----

  /** The topic carries two different non-zero IDs: it was deleted and re-created. */
  predicate Recreated(cur: Snapshot, next: Snapshot, topic: string) {
    && topic in cur.topics && topic in next.topics
    && cur.topics[topic].topicId != 0 && next.topics[topic].topicId != 0
    && cur.topics[topic].topicId != next.topics[topic].topicId
  }

  /** The known epoch of a partition did not go down from `cur` to `next`, or `next` lost it. */
  predicate EpochKeptOrLost(cur: Snapshot, next: Snapshot, topic: string, partition: int) {
    || EpochAt(next, topic, partition) >= EpochAt(cur, topic, partition)
    || EpochAt(next, topic, partition) < 0
    || Recreated(cur, next, topic)
  }

  lemma MergeKeepsEpochs(cur: Snapshot, r: Response, a: MergeArgs, next: Snapshot, topic: string, partition: int)
    requires IsMerge(cur, r, a, next)
    ensures EpochKeptOrLost(cur, next, topic, partition)
  {
    assert Lookup(next.topics, topic) == SlotAfter(cur, a, topic, r.topics).entry;
    if topic in next.topics {
      var k := EntryOrigin(cur, a, topic, r.topics);
      if k >= 0 && topic in cur.topics {
        var t := next.topics[topic];
        assert IsBuilt(Lookup(cur.topics, topic), topic, r.topics[k], t);
        assert Lookup(t.partitions, partition) ==
               PartitionAfter(topic, Fenceable(Lookup(cur.topics, topic), t.topicId), r.topics[k].partitions, partition);
      }
    }
  }

  /**
   A hint that updated a partition survives the next response: while that
   response describes the same topic with an older known epoch, the partition
   is exactly as the hint left it.
   */
  lemma HintSurvivesOlderResponse(cur: Snapshot, h: Hint, hinted: Snapshot, r: Response, a: MergeArgs,
                                  next: Snapshot, i: nat, item: PartitionItem)
    requires ApplyHint(cur, h) == Some(hinted) && PartitionIsNew(cur, h)
    requires IsMerge(hinted, r, a, next) && DistinctNames(r.topics)
    requires i < |r.topics| && IsHealthy(r.topics[i], h.topic)
    requires ItemTopicId(r.topics[i]) == 0 || hinted.topics[h.topic].topicId == 0
             || ItemTopicId(r.topics[i]) == hinted.topics[h.topic].topicId
    requires LastPartition(r.topics[i].partitions, h.partition) == Some(item)
    requires item.errorCode == NO_ERROR && 0 <= item.leaderEpoch < h.leaderEpoch
    ensures PartitionAt(next, h.topic, h.partition) == PartitionAt(hinted, h.topic, h.partition)
    ensures PartitionAt(next, h.topic, h.partition).value.leader == h.leaderId
    ensures PartitionAt(next, h.topic, h.partition).value.IsRoutable()
  {
    HintFrame(cur, h, hinted);
    MergeNamed(hinted, r, a, next, h.topic, i);
    var t := next.topics[h.topic];
    assert Lookup(t.partitions, h.partition) ==
           PartitionAfter(h.topic, Fenceable(Lookup(hinted.topics, h.topic), t.topicId),
                          r.topics[i].partitions, h.partition);
  }
}
