/** Leader hints (KIP-951): folding a broker-reported leader into the snapshot. */
module MetadataHint {
  import opened Wrappers
  import opened MetadataTypes

  datatype Hint = Hint(topic: string, partition: int, leaderId: int, leaderEpoch: int,
                       endpoint: Option<BrokerInfo>)

  predicate EndpointIsNew(cur: Snapshot, h: Hint) {
    && h.endpoint.Some?
    && (|| h.endpoint.value.id !in cur.brokers
        || cur.brokers[h.endpoint.value.id].address != h.endpoint.value.address)
  }

  predicate PartitionIsNew(cur: Snapshot, h: Hint) {
    && (h.endpoint.Some? || h.leaderId in cur.brokers)
    && h.leaderEpoch >= 0
    && var p := PartitionAt(cur, h.topic, h.partition);
       p.Some? && (p.value.leaderEpoch < 0 || h.leaderEpoch > p.value.leaderEpoch)
  }

  /** The partition as the hint leaves it: a live leader, its epoch, no error. */
  function HintedPartition(p: PartitionInfo, h: Hint): PartitionInfo {
    p.(leader := h.leaderId, leaderEpoch := h.leaderEpoch, errorCode := NO_ERROR)
  }

  /** The snapshot a hint produces, or `None` when it changes nothing. */
  function ApplyHint(cur: Snapshot, h: Hint): Option<Snapshot> {
    if h.leaderId < 0 || (!EndpointIsNew(cur, h) && !PartitionIsNew(cur, h)) then None
    else
      var brokers := if EndpointIsNew(cur, h)
                     then cur.brokers[h.endpoint.value.id := h.endpoint.value] else cur.brokers;
      var topics := if PartitionIsNew(cur, h) then
                      var t := cur.topics[h.topic];
                      cur.topics[h.topic := t.(partitions :=
                        t.partitions[h.partition := HintedPartition(t.partitions[h.partition], h)])]
                    else cur.topics;
      Some(cur.(generation := cur.generation + 1, brokers := brokers, topics := topics))
  }

  /** A hint rewrites at most its own partition and broker, and never a partition set, a stamp or an index. */
  lemma HintFrame(cur: Snapshot, h: Hint, next: Snapshot)
    requires ApplyHint(cur, h) == Some(next)
    ensures next.generation == cur.generation + 1 && next.resetEpoch == cur.resetEpoch
    ensures next.topics.Keys == cur.topics.Keys
    ensures forall t :: t in cur.topics ==>
              && next.topics[t].partitions.Keys == cur.topics[t].partitions.Keys
              && next.topics[t].topicId == cur.topics[t].topicId
              && next.topics[t].name == cur.topics[t].name
              && next.topics[t].isInternal == cur.topics[t].isInternal
    ensures forall t, p :: (t, p) != (h.topic, h.partition) ==> PartitionAt(next, t, p) == PartitionAt(cur, t, p)
    ensures PartitionAt(next, h.topic, h.partition) ==
            if PartitionIsNew(cur, h)
            then Some(HintedPartition(PartitionAt(cur, h.topic, h.partition).value, h))
            else PartitionAt(cur, h.topic, h.partition)
    ensures next.stamps == cur.stamps && next.topicErrors == cur.topicErrors
    ensures next.topicIds == cur.topicIds && next.nameToTopicId == cur.nameToTopicId
    ensures forall id :: id in next.brokers ==> id in cur.brokers || Some(id) == HintBroker(h)
    ensures cur.brokers.Keys <= next.brokers.Keys
  {
  }

  /** The broker a hint can register. */
  function HintBroker(h: Hint): Option<int> {
    if h.endpoint.Some? then Some(h.endpoint.value.id) else None
  }

  /**
   When a hint is applied, and what it leaves. It moves a cached partition
   exactly when it names a reachable leader with a known epoch above the cached
   one; it registers an endpoint exactly when the broker is unknown or has moved;
   it publishes a snapshot exactly when it does one of the two.
   */
  lemma HintIsExact(cur: Snapshot, h: Hint)
    ensures var known := PartitionAt(cur, h.topic, h.partition);
            var reachable := h.endpoint.Some? || h.leaderId in cur.brokers;
            var moves := h.leaderId >= 0 && reachable && known.Some? && h.leaderEpoch >= 0
                         && known.value.leaderEpoch < h.leaderEpoch;
            var registers := h.leaderId >= 0 && h.endpoint.Some?
                             && (h.endpoint.value.id in cur.brokers ==>
                                   cur.brokers[h.endpoint.value.id].address != h.endpoint.value.address);
            && (ApplyHint(cur, h).Some? <==> moves || registers)
            && (moves ==>
                  PartitionAt(ApplyHint(cur, h).value, h.topic, h.partition) ==
                  Some(PartitionInfo(known.value.topic, known.value.partition, h.leaderId, h.leaderEpoch,
                                     known.value.replicas, known.value.isr, known.value.offlineReplicas, NO_ERROR)))
            && (!moves && registers ==> ApplyHint(cur, h).value.topics == cur.topics)
            && (registers ==> ApplyHint(cur, h).value.brokers == cur.brokers[h.endpoint.value.id := h.endpoint.value])
            && (moves && !registers ==> ApplyHint(cur, h).value.brokers == cur.brokers)
  {
  }

  lemma HintKeepsSound(cur: Snapshot, h: Hint, next: Snapshot)
    requires ApplyHint(cur, h) == Some(next) && Sound(cur)
    ensures Sound(next)
    ensures StampsCoverTopics(next) <==> StampsCoverTopics(cur)
  {
  }

  /** A hint never lowers a known epoch. */
  lemma HintRaisesEpochs(cur: Snapshot, h: Hint, next: Snapshot, topic: string, partition: int)
    requires ApplyHint(cur, h) == Some(next)
    ensures EpochAt(next, topic, partition) >= EpochAt(cur, topic, partition) || EpochAt(cur, topic, partition) < 0
  {
  }
}
