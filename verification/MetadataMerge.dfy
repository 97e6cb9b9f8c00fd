/**
 Building the next snapshot from a metadata response.

 `Merge` is the loop over the response. Its specification is pointwise: what a
 name maps to afterwards is a fold of the items that carry that very name
 (`SlotAfter`), whatever stands between them.
 */
module MetadataMerge {
  import opened Wrappers
  import opened MetadataTypes

  /** How one merge is run: refresh kind, idle TTL and the clock readings. */
  datatype MergeArgs = MergeArgs(full: bool, ttl: Option<nat>, now: nat, nowMs: nat)

  // ---- brokers ----

  /** The last broker listed under `id`. */
  function LastBroker(items: seq<BrokerInfo>, id: int): Option<BrokerInfo> {
    if items == [] then None
    else if items[|items| - 1].id == id then Some(items[|items| - 1])
    else LastBroker(items[..|items| - 1], id)
  }

  // ---- partitions ----

  /** A reported partition; an errored one is kept without leader and epoch. */
  function Incoming(name: string, p: PartitionItem): PartitionInfo {
    var healthy := p.errorCode == NO_ERROR;
    PartitionInfo(name, p.partitionIndex,
                  if healthy then p.leaderId else -1,
                  if healthy then p.leaderEpoch else -1,
                  p.replicaNodes, p.isrNodes, p.offlineReplicas, p.errorCode)
  }

  /** KIP-320: a known epoch is not replaced by an older known one. */
  function Fence(previous: Option<PartitionInfo>, incoming: PartitionInfo): PartitionInfo {
    if previous.Some? && previous.value.leaderEpoch >= 0 && incoming.leaderEpoch >= 0
       && incoming.leaderEpoch < previous.value.leaderEpoch
    then previous.value
    else incoming
  }

  /** The cached topic whose epochs the response is compared with, unless the topic was re-created. */
  function Fenceable(cached: Option<TopicInfo>, topicId: nat): Option<TopicInfo> {
    if cached.Some? && !(topicId != 0 && cached.value.topicId != 0 && cached.value.topicId != topicId)
    then cached
    else None
  }

  function CachedPartition(cached: Option<TopicInfo>, id: int): Option<PartitionInfo> {
    if cached.Some? then Lookup(cached.value.partitions, id) else None
  }

  /** The last item reported for partition `id`. */
  function LastPartition(items: seq<PartitionItem>, id: int): Option<PartitionItem> {
    if items == [] then None
    else if items[|items| - 1].partitionIndex == id then Some(items[|items| - 1])
    else LastPartition(items[..|items| - 1], id)
  }

  /** What partition `id` becomes: its last report, fenced by the cached epoch. */
  function PartitionAfter(name: string, cached: Option<TopicInfo>, items: seq<PartitionItem>, id: int)
    : Option<PartitionInfo>
  {
    match LastPartition(items, id)
    case None => None
    case Some(p) => Some(Fence(CachedPartition(cached, id), Incoming(name, p)))
  }

  ghost predicate IsPartitionMap(name: string, cached: Option<TopicInfo>, items: seq<PartitionItem>,
                                 partitions: map<int, PartitionInfo>)
  {
    forall id :: Lookup(partitions, id) == PartitionAfter(name, cached, items, id)
  }

  /** Item `j` is the last report of partition `id`. */
  ghost predicate IsLastReport(items: seq<PartitionItem>, j: int, id: int) {
    && 0 <= j < |items| && items[j].partitionIndex == id
    && forall k :: j < k < |items| ==> items[k].partitionIndex != id
  }

  lemma {:induction false} LastReportCounts(items: seq<PartitionItem>, j: int, id: int)
    requires IsLastReport(items, j, id)
    ensures LastPartition(items, id) == Some(items[j])
  {
    var n := |items| - 1;
    if j < n {
      LastReportCounts(items[..n], j, id);
    }
  }

  /** `merged` is what a report makes of a partition, field by field, next to the one cached before. */
  ghost predicate IsMergedPartition(name: string, cached: Option<PartitionInfo>, p: PartitionItem, merged: PartitionInfo) {
    if p.errorCode == NO_ERROR && cached.Some? && cached.value.leaderEpoch > p.leaderEpoch >= 0 then
      merged == cached.value
    else
      && merged.topic == name && merged.partition == p.partitionIndex
      && merged.replicas == p.replicaNodes && merged.isr == p.isrNodes
      && merged.offlineReplicas == p.offlineReplicas && merged.errorCode == p.errorCode
      && (p.errorCode == NO_ERROR ==> merged.leader == p.leaderId && merged.leaderEpoch == p.leaderEpoch)
      && (p.errorCode != NO_ERROR ==> merged.leader == -1 && merged.leaderEpoch == -1)
  }

  /** The last report decides a partition; a partition that is not reported is gone. */
  lemma ReportsDecide(name: string, cached: Option<TopicInfo>, items: seq<PartitionItem>, partitions: map<int, PartitionInfo>)
    requires IsPartitionMap(name, cached, items, partitions)
    ensures forall id :: id in partitions <==> exists j :: IsLastReport(items, j, id)
    ensures forall id, j :: IsLastReport(items, j, id) ==>
              id in partitions && IsMergedPartition(name, CachedPartition(cached, id), items[j], partitions[id])
  {
    forall id, j | IsLastReport(items, j, id)
      ensures id in partitions && IsMergedPartition(name, CachedPartition(cached, id), items[j], partitions[id])
    {
      LastReportCounts(items, j, id);
      assert Lookup(partitions, id) == PartitionAfter(name, cached, items, id);
    }
    forall id | id in partitions ensures exists j :: IsLastReport(items, j, id) {
      assert Lookup(partitions, id) == PartitionAfter(name, cached, items, id);
      LastReportExists(items, id);
    }
  }

  lemma {:induction false} LastReportExists(items: seq<PartitionItem>, id: int)
    requires LastPartition(items, id).Some?
    ensures exists j :: IsLastReport(items, j, id)
  {
    var n := |items| - 1;
    if items[n].partitionIndex == id {
      assert IsLastReport(items, n, id);
    } else {
      LastReportExists(items[..n], id);
      var j :| IsLastReport(items[..n], j, id);
      assert forall k :: j < k < n ==> items[k] == items[..n][k];
      assert IsLastReport(items, j, id);
    }
  }

  /** The loop over a topic's partitions. */
  method MergePartitions(name: string, cached: Option<TopicInfo>, items: seq<PartitionItem>)
    returns (partitions: map<int, PartitionInfo>)
    ensures IsPartitionMap(name, cached, items, partitions)
    ensures forall id :: id in partitions <==> exists j :: IsLastReport(items, j, id)
    ensures forall id, j :: IsLastReport(items, j, id) ==>
              id in partitions && IsMergedPartition(name, CachedPartition(cached, id), items[j], partitions[id])
  {
    partitions := map[];
    for i := 0 to |items|
      invariant IsPartitionMap(name, cached, items[..i], partitions)
    {
      var p := items[i];
      assert items[..i + 1][..i] == items[..i];
      var merged := Fence(CachedPartition(cached, p.partitionIndex), Incoming(name, p));
      ghost var partitions0 := partitions;
      partitions := partitions[p.partitionIndex := merged];
      forall id ensures Lookup(partitions, id) == PartitionAfter(name, cached, items[..i + 1], id) {
        assert Lookup(partitions0, id) == PartitionAfter(name, cached, items[..i], id);
      }
    }
    assert items[..|items|] == items;
    ReportsDecide(name, cached, items, partitions);
  }

  // ---- one topic ----

  /** What a merge knows of one name: its entry, its error, and whether its stamp is renewed. */
  datatype Slot = Slot(entry: Option<TopicInfo>, error: Option<ErrorCode>, fetched: bool)

  predicate Retained(cur: Snapshot, a: MergeArgs, name: string) {
    match a.ttl
    case None => true
    case Some(ttl) => name in cur.stamps && cur.stamps[name].IsLive(a.now, a.nowMs, ttl)
  }

  predicate Kept(cur: Snapshot, a: MergeArgs, name: string) {
    !a.full && name in cur.topics && Retained(cur, a, name)
  }

  function SlotBefore(cur: Snapshot, a: MergeArgs, name: string): Slot {
    var kept := Kept(cur, a, name);
    Slot(if kept then Some(cur.topics[name]) else None,
         if !a.full && name in cur.topicErrors && (a.ttl.None? || kept)
         then Some(cur.topicErrors[name]) else None,
         false)
  }

  function ItemTopicId(item: TopicItem): nat {
    if item.topicId.Some? then item.topicId.value else 0
  }

  /** `t` is what a healthy item makes of a topic. */
  ghost predicate IsBuilt(cached: Option<TopicInfo>, name: string, item: TopicItem, t: TopicInfo) {
    && t.name == name
    && t.topicId == ItemTopicId(item)
    && t.isInternal == item.isInternal
    && IsPartitionMap(name, Fenceable(cached, t.topicId), item.partitions, t.partitions)
  }

  lemma BuiltUnique(cached: Option<TopicInfo>, name: string, item: TopicItem, t: TopicInfo, u: TopicInfo)
    requires IsBuilt(cached, name, item, t) && IsBuilt(cached, name, item, u)
    ensures t == u
  {
    forall id ensures Lookup(t.partitions, id) == Lookup(u.partitions, id) {
      assert Lookup(t.partitions, id) ==
             PartitionAfter(name, Fenceable(cached, t.topicId), item.partitions, id);
    }
    LookupExtensional(t.partitions, u.partitions);
  }

  function PartitionIds(items: seq<PartitionItem>): set<int> {
    set p | p in items :: p.partitionIndex
  }

  lemma {:induction false} LastPartitionFinds(items: seq<PartitionItem>, id: int)
    ensures LastPartition(items, id).Some? <==> id in PartitionIds(items)
    ensures LastPartition(items, id).Some? ==>
              LastPartition(items, id).value in items && LastPartition(items, id).value.partitionIndex == id
  {
    if items != [] {
      var n := |items| - 1;
      LastPartitionFinds(items[..n], id);
      assert items == items[..n] + [items[n]];
      assert PartitionIds(items) == PartitionIds(items[..n]) + {items[n].partitionIndex};
    }
  }

  /** The partitions after the items, one report at a time. */
  function PartitionsAfter(name: string, cached: Option<TopicInfo>, items: seq<PartitionItem>): map<int, PartitionInfo> {
    if items == [] then map[]
    else
      var item := items[|items| - 1];
      var merged := Fence(CachedPartition(cached, item.partitionIndex), Incoming(name, item));
      PartitionsAfter(name, cached, items[..|items| - 1])[item.partitionIndex := merged]
  }

  lemma {:induction false} PartitionsAfterEach(name: string, cached: Option<TopicInfo>, items: seq<PartitionItem>)
    ensures IsPartitionMap(name, cached, items, PartitionsAfter(name, cached, items))
  {
    if items != [] {
      var n := |items| - 1;
      PartitionsAfterEach(name, cached, items[..n]);
      forall id ensures Lookup(PartitionsAfter(name, cached, items), id) == PartitionAfter(name, cached, items, id) {
        assert Lookup(PartitionsAfter(name, cached, items[..n]), id) == PartitionAfter(name, cached, items[..n], id);
      }
    }
  }

  /** The topic a healthy item builds. */
  function Built(cached: Option<TopicInfo>, name: string, item: TopicItem): (t: TopicInfo)
    ensures IsBuilt(cached, name, item, t)
  {
    var fence := Fenceable(cached, ItemTopicId(item));
    PartitionsAfterEach(name, fence, item.partitions);
    TopicInfo(name, ItemTopicId(item), item.isInternal, PartitionsAfter(name, fence, item.partitions))
  }

  /** One response item that carries `name`. */
  function SlotStep(cached: Option<TopicInfo>, name: string, slot: Slot, item: TopicItem): Slot {
    if item.errorCode == NO_ERROR then
      Slot(Some(Built(cached, name, item)), None, true)
    else if IsTransient(item.errorCode) then
      var entry := if slot.entry.None? then cached else slot.entry;
      Slot(entry, Some(item.errorCode), slot.fetched || entry.Some?)
    else
      Slot(None, Some(item.errorCode), slot.fetched)
  }

  /** A name's slot after the items, of which only those carrying the name count. */
  function SlotAfter(cur: Snapshot, a: MergeArgs, name: string, items: seq<TopicItem>): Slot {
    if items == [] then SlotBefore(cur, a, name)
    else
      var slot := SlotAfter(cur, a, name, items[..|items| - 1]);
      var item := items[|items| - 1];
      if item.name == Some(name)
      then SlotStep(Lookup(cur.topics, name), name, slot, item)
      else slot
  }

  /** The stamp a name ends up with; a renewed stamp keeps the last use. */
  function StampAfter(cur: Snapshot, a: MergeArgs, name: string, slot: Slot): Option<TopicStamp> {
    var carried := if slot.entry.Some? then Lookup(cur.stamps, name) else None;
    if slot.fetched
    then Some(TopicStamp(a.now, if carried.Some? then carried.value.lastUsedMs else 0))
    else carried
  }

  // ---- the whole merge ----

  /** Every name of `next` is its own slot of the merge. */
  ghost predicate IsSlotted(cur: Snapshot, r: Response, a: MergeArgs, next: Snapshot) {
    forall name {:trigger Lookup(next.topics, name)} {:trigger SlotAfter(cur, a, name, r.topics)} ::
      && var slot := SlotAfter(cur, a, name, r.topics);
      && Lookup(next.topics, name) == slot.entry
      && Lookup(next.topicErrors, name) == slot.error
      && Lookup(next.stamps, name) == StampAfter(cur, a, name, slot)
  }

  /** `next` is the merge of `r` into `cur`; only which of two topics sharing an ID wins is open. */
  ghost predicate IsMerge(cur: Snapshot, r: Response, a: MergeArgs, next: Snapshot) {
    && next.clusterId == r.clusterId
    && next.controllerId == r.controllerId
    && (forall id :: Lookup(next.brokers, id) == LastBroker(r.brokers, id))
    && next.lastUpdated == a.now
    && next.generation == cur.generation + 1
    && next.resetEpoch == cur.resetEpoch
    && IsSlotted(cur, r, a, next)
    && IdsIndexed(next.topics, next.topicIds, next.nameToTopicId)
  }

  method MergeBrokers(items: seq<BrokerInfo>) returns (brokers: map<int, BrokerInfo>)
    ensures forall id :: Lookup(brokers, id) == LastBroker(items, id)
  {
    brokers := map[];
    for i := 0 to |items|
      invariant forall id :: Lookup(brokers, id) == LastBroker(items[..i], id)
    {
      assert items[..i + 1][..i] == items[..i];
      brokers := brokers[items[i].id := items[i]];
    }
    assert items[..|items|] == items;
  }

  ghost predicate Tracks(cur: Snapshot, a: MergeArgs, items: seq<TopicItem>,
                         topics: map<string, TopicInfo>, topicErrors: map<string, ErrorCode>,
                         fetched: seq<string>)
  {
    forall name {:trigger Lookup(topics, name)} {:trigger SlotAfter(cur, a, name, items)} ::
      SlotAfter(cur, a, name, items) == Slot(Lookup(topics, name), Lookup(topicErrors, name), name in fetched)
  }

  /** The loop over the response's topics. */
  method MergeTopics(cur: Snapshot, a: MergeArgs, items: seq<TopicItem>)
    returns (topics: map<string, TopicInfo>, topicErrors: map<string, ErrorCode>, fetched: seq<string>)
    ensures Tracks(cur, a, items, topics, topicErrors, fetched)
  {
    topics := cur.topics - (set name | name in cur.topics && !Kept(cur, a, name));
    topicErrors := cur.topicErrors - (set name | name in cur.topicErrors && !(!a.full && (a.ttl.None? || name in topics)));
    fetched := [];
    for i := 0 to |items|
      invariant Tracks(cur, a, items[..i], topics, topicErrors, fetched)
    {
      var item := items[i];
      assert items[..i + 1][..i] == items[..i];
      ghost var topics0, errors0, fetched0 := topics, topicErrors, fetched;
      if item.name.Some? {
        var name := item.name.value;
        assert SlotAfter(cur, a, name, items[..i]) ==
               Slot(Lookup(topics, name), Lookup(topicErrors, name), name in fetched);
        topics, topicErrors, fetched := MergeItem(cur, item, name, topics, topicErrors, fetched);
      }
      forall name ensures SlotAfter(cur, a, name, items[..i + 1]) ==
          Slot(Lookup(topics, name), Lookup(topicErrors, name), name in fetched)
      {
        assert SlotAfter(cur, a, name, items[..i]) ==
               Slot(Lookup(topics0, name), Lookup(errors0, name), name in fetched0);
      }
    }
    assert items[..|items|] == items;
  }

  /** One turn of the loop: only the item's own name changes. */
  method MergeItem(cur: Snapshot, item: TopicItem, name: string, topics: map<string, TopicInfo>,
                   topicErrors: map<string, ErrorCode>, fetched: seq<string>)
    returns (topics': map<string, TopicInfo>, topicErrors': map<string, ErrorCode>, fetched': seq<string>)
    requires item.name == Some(name)
    ensures Slot(Lookup(topics', name), Lookup(topicErrors', name), name in fetched') ==
            SlotStep(Lookup(cur.topics, name), name,
                     Slot(Lookup(topics, name), Lookup(topicErrors, name), name in fetched), item)
    ensures forall other :: other != name ==>
              && Lookup(topics', other) == Lookup(topics, other)
              && Lookup(topicErrors', other) == Lookup(topicErrors, other)
              && (other in fetched' <==> other in fetched)
  {
    topics', topicErrors', fetched' := topics, topicErrors, fetched;
    if item.errorCode != NO_ERROR {
      topicErrors' := topicErrors[name := item.errorCode];
      if IsTransient(item.errorCode) {
        if name !in topics' && name in cur.topics {
          topics' := topics'[name := cur.topics[name]];
        }
        if name in topics' {
          fetched' := fetched + [name];
        }
      } else {
        topics' := topics' - {name};
      }
    } else {
      var topicId := if item.topicId.Some? then item.topicId.value else 0;
      var cached := Fenceable(Lookup(cur.topics, name), topicId);
      var partitions := MergePartitions(name, cached, item.partitions);
      topicErrors' := topicErrors - {name};
      fetched' := fetched + [name];
      var built := TopicInfo(name, topicId, item.isInternal, partitions);
      BuiltUnique(Lookup(cur.topics, name), name, item, built, Built(Lookup(cur.topics, name), name, item));
      topics' := topics[name := built];
    }
  }

  /** Drop the stamps of dropped topics and renew those of the fetched ones. */
  method MergeStamps(cur: Snapshot, a: MergeArgs, topics: map<string, TopicInfo>, fetched: seq<string>)
    returns (stamps: map<string, TopicStamp>)
    ensures forall name :: Lookup(stamps, name) ==
              StampAfter(cur, a, name, Slot(Lookup(topics, name), None, name in fetched))
  {
    stamps := cur.stamps - (cur.stamps.Keys - topics.Keys);
    for i := 0 to |fetched|
      invariant forall name :: Lookup(stamps, name) ==
                  StampAfter(cur, a, name, Slot(Lookup(topics, name), None, name in fetched[..i]))
    {
      var lastUsed := if fetched[i] in stamps then stamps[fetched[i]].lastUsedMs else 0;
      ghost var stamps0 := stamps;
      stamps := stamps[fetched[i] := TopicStamp(a.now, lastUsed)];
      forall name ensures Lookup(stamps, name) ==
          StampAfter(cur, a, name, Slot(Lookup(topics, name), None, name in fetched[..i + 1]))
      {
        assert Lookup(stamps0, name) ==
               StampAfter(cur, a, name, Slot(Lookup(topics, name), None, name in fetched[..i]));
        assert fetched[..i + 1] == fetched[..i] + [fetched[i]];
      }
    }
    assert fetched[..|fetched|] == fetched;
  }

  /** Index the non-zero topic IDs, in whatever order the hash map yields the topics. */
  method IndexIds(topics: map<string, TopicInfo>)
    returns (topicIds: map<nat, string>, nameToTopicId: map<string, nat>)
    ensures IdsIndexed(topics, topicIds, nameToTopicId)
  {
    topicIds, nameToTopicId := map[], map[];
    var todo := topics.Keys;
    while todo != {}
      invariant todo <= topics.Keys
      invariant IdsIndexed(topics - todo, topicIds, nameToTopicId)
      decreases todo
    {
      var name :| name in todo;
      todo := todo - {name};
      var id := topics[name].topicId;
      if id != 0 {
        topicIds := topicIds[id := name];
        nameToTopicId := nameToTopicId[name := id];
      }
    }
    assert topics - todo == topics;
  }

  method Merge(cur: Snapshot, r: Response, a: MergeArgs) returns (next: Snapshot)
    ensures IsMerge(cur, r, a, next)
  {
    var brokers := MergeBrokers(r.brokers);
    var topics, topicErrors, fetched := MergeTopics(cur, a, r.topics);
    var stamps := MergeStamps(cur, a, topics, fetched);
    var topicIds, nameToTopicId := IndexIds(topics);
    next := Snapshot(r.clusterId, r.controllerId, brokers, topics, topicIds, nameToTopicId, stamps,
                     topicErrors, a.now, cur.generation + 1, cur.resetEpoch);
  }
}
