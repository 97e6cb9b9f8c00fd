/**
 The values of the metadata cache: error codes, brokers, partitions, topics,
 stamps, responses and the immutable snapshot.

 Instants and durations are natural numbers of nanoseconds. `nowMs` is the
 process-wide millisecond clock, which is never zero. A topic ID is a natural
 number; zero is the all-zero UUID.
 */
module MetadataTypes {
  import opened Wrappers

  /** The `i16` error code of the wire protocol. */
  type ErrorCode = int

  const NO_ERROR: ErrorCode := 0
  const UNKNOWN_TOPIC_OR_PARTITION: ErrorCode := 3
  const UNKNOWN_TOPIC_ID: ErrorCode := 100
  const REBOOTSTRAP_REQUIRED: ErrorCode := 129

  predicate IsRetriable(code: ErrorCode) {
    code in {2, 7, 14, 19, 20, 41, 51, 70, 71, 75, 78, 88, 89, 106, 122, 123, 133,
             15, 16,
             3, 5, 6, 9, 13, 56, 72, 74, 80, 83, 84, 100, 103,
             8, 27, 45, 55, 59, 108, 110, 113}
  }

  /** Codes that say the topic does not exist (any more). */
  predicate IsGone(code: ErrorCode) {
    code == UNKNOWN_TOPIC_OR_PARTITION || code == UNKNOWN_TOPIC_ID
  }

  /** Codes after which the cached entry of a topic is kept. */
  predicate IsTransient(code: ErrorCode) {
    IsRetriable(code) && !IsGone(code)
  }

  datatype BrokerInfo = BrokerInfo(id: int, address: string, rack: Option<string>)

  datatype PartitionInfo = PartitionInfo(
    topic: string, partition: int, leader: int, leaderEpoch: int,
    replicas: seq<int>, isr: seq<int>, offlineReplicas: seq<int>, errorCode: ErrorCode)
  {
    predicate IsRoutable() {
      errorCode == NO_ERROR && leader >= 0
    }
  }

  datatype TopicInfo = TopicInfo(name: string, topicId: nat, isInternal: bool,
                                 partitions: map<int, PartitionInfo>)

  datatype TopicStamp = TopicStamp(refreshed: nat, lastUsedMs: nat)
  {
    /** Not idle yet: the last fetch or the last use is at most `ttl` ago. */
    predicate IsLive(now: nat, nowMs: nat, ttl: nat) {
      || SatSub(now, refreshed) <= ttl
      || (lastUsedMs != 0 && SatSub(nowMs, lastUsedMs) <= ttl / 1_000_000)
    }
  }

  datatype Snapshot = Snapshot(
    clusterId: Option<string>,
    controllerId: int,
    brokers: map<int, BrokerInfo>,
    topics: map<string, TopicInfo>,
    topicIds: map<nat, string>,
    nameToTopicId: map<string, nat>,
    stamps: map<string, TopicStamp>,
    topicErrors: map<string, ErrorCode>,
    lastUpdated: nat,
    generation: nat,
    resetEpoch: nat)

  /** The empty snapshot. */
  function EmptySnapshot(now: nat, generation: nat, resetEpoch: nat): Snapshot {
    Snapshot(None, -1, map[], map[], map[], map[], map[], map[], now, generation, resetEpoch)
  }

  datatype PartitionItem = PartitionItem(
    errorCode: ErrorCode, partitionIndex: int, leaderId: int, leaderEpoch: int,
    replicaNodes: seq<int>, isrNodes: seq<int>, offlineReplicas: seq<int>)

  datatype TopicItem = TopicItem(
    errorCode: ErrorCode, name: Option<string>, topicId: Option<nat>, isInternal: bool,
    partitions: seq<PartitionItem>)

  datatype Response = Response(
    brokers: seq<BrokerInfo>, clusterId: Option<string>, controllerId: int,
    topics: seq<TopicItem>, errorCode: ErrorCode)

  /** No two items of the response carry the same topic name. */
  ghost predicate DistinctNames(items: seq<TopicItem>) {
    forall i, j :: 0 <= i < j < |items| && items[i].name.Some? ==> items[i].name != items[j].name
  }

  // ---- queries on a snapshot ----

  function PartitionAt(s: Snapshot, topic: string, partition: int): Option<PartitionInfo> {
    if topic in s.topics then Lookup(s.topics[topic].partitions, partition) else None
  }

  /** The known leader epoch of a partition, `-1` when there is none. */
  function EpochAt(s: Snapshot, topic: string, partition: int): (e: int)
  {
    match PartitionAt(s, topic, partition)
    case Some(p) => p.leaderEpoch
    case None => -1
  }

  /** Whether `topic` is cached and was itself fetched within `maxAge`. */
  predicate TopicIsFresh(s: Snapshot, topic: string, now: nat, maxAge: nat) {
    topic in s.topics && topic in s.stamps && SatSub(now, s.stamps[topic].refreshed) <= maxAge
  }

  predicate AllFresh(s: Snapshot, names: set<string>, now: nat, maxAge: nat) {
    s.brokers != map[] && forall n | n in names :: TopicIsFresh(s, n, now, maxAge)
  }

  // ---- well-formed snapshots ----

  ghost predicate PartitionOk(topic: string, id: int, p: PartitionInfo) {
    && p.topic == topic
    && p.partition == id
    && (p.errorCode != NO_ERROR ==> p.leader == -1 && p.leaderEpoch == -1)
  }

  ghost predicate TopicOk(name: string, t: TopicInfo) {
    && t.name == name
    && forall id :: id in t.partitions ==> PartitionOk(name, id, t.partitions[id])
  }

  /** `nameToTopicId` is exact; `topicIds` holds each non-zero ID once, mapped to a topic carrying it. */
  ghost predicate IdsIndexed(topics: map<string, TopicInfo>, topicIds: map<nat, string>,
                             nameToTopicId: map<string, nat>)
  {
    && (forall n :: n in nameToTopicId <==> n in topics && topics[n].topicId != 0)
    && (forall n :: n in nameToTopicId ==> nameToTopicId[n] == topics[n].topicId)
    && (forall id :: id in topicIds ==> topicIds[id] in nameToTopicId && nameToTopicId[topicIds[id]] == id)
    && (forall n :: n in nameToTopicId ==> nameToTopicId[n] in topicIds)
  }

  ghost predicate TopicsOk(s: Snapshot) {
    forall n :: n in s.topics ==> TopicOk(n, s.topics[n])
  }

  ghost predicate StampsCoverTopics(s: Snapshot) {
    s.stamps.Keys == s.topics.Keys
  }

  /** What holds of every snapshot, whatever the brokers answer. */
  ghost predicate Sound(s: Snapshot) {
    && s.topics.Keys <= s.stamps.Keys
    && TopicsOk(s)
    && IdsIndexed(s.topics, s.topicIds, s.nameToTopicId)
  }

  /** Sound, and no stamp is left without its topic. */
  ghost predicate WellFormed(s: Snapshot) {
    Sound(s) && StampsCoverTopics(s)
  }
}
