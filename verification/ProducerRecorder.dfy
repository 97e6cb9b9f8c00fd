/** The recorder object: what one call does to the totals, the published map and the recorders. */
module ProducerRecorder {
  import opened MapSum
  import opened TopicRecorder

  /** One counter: the producer's total, and its share in each topic's recorder. */
  datatype Counter = Counter(total: nat, shares: map<nat, nat>)

  ghost predicate Balanced(c: Counter) {
    Sum(c.shares) == c.total
  }

  /** The total and recorder `r` gain `amount`; a recorder that is new starts from zero. */
  function Gain(c: Counter, r: nat, amount: nat): Counter {
    Counter(c.total + amount, c.shares[r := (if r in c.shares then c.shares[r] else 0) + amount])
  }

  lemma GainKeepsBalance(c: Counter, r: nat, amount: nat)
    requires Balanced(c)
    ensures Balanced(Gain(c, r, amount)) && Gain(c, r, amount).total == c.total + amount
    ensures Gain(c, r, amount).shares.Keys == Gain(c, r, 0).shares.Keys == c.shares.Keys + {r}
    ensures Gain(Gain(c, r, 0), r, amount) == Gain(c, r, amount)
    ensures r in c.shares ==> Gain(c, r, 0) == c
  {
    hide Sum;
    SumUpdate(c.shares, r, (if r in c.shares then c.shares[r] else 0) + amount);
  }

  /** From `before` to `after`, the total and the share of `r` grew by `amount`, a missing share counting as zero; no other share changed. */
  ghost predicate Credited(before: Counter, after: Counter, r: nat, amount: nat) {
    && after.total == before.total + amount
    && r in after.shares
    && after.shares[r] == (if r in before.shares then before.shares[r] else 0) + amount
    && (forall q :: q != r ==> (q in after.shares <==> q in before.shares))
    && (forall q :: q != r && q in before.shares ==> after.shares[q] == before.shares[q])
  }

  lemma GainCredits(c: Counter, r: nat, amount: nat)
    ensures Credited(c, Gain(c, r, amount), r, amount)
  {
  }

  class ProducerRecorder {
    const limits: Limits
    var batchesSent: nat
    var records: Counter
    var bytes: Counter
    var errors: Counter
    var topics: TopicMap
    var nextId: nat

    /** Between calls each total is the sum of its shares, and the cap holds. */
    ghost predicate Valid()
      reads this
    {
      && Balanced(records) && Balanced(bytes) && Balanced(errors)
      && bytes.shares.Keys == records.shares.Keys && errors.shares.Keys == records.shares.Keys
      && (forall r :: r in records.shares ==> r < nextId)
      && (forall k :: k in topics ==> topics[k] in records.shares)
      && NamedTopicCount(topics, limits) <= limits.cap
    }

    /** Recorder `r` is where `topic` counts: its own entry, or the overflow bucket of a full map. */
    ghost predicate Serves(topic: string, r: nat)
      reads this
    {
      if topic in topics then topics[topic] == r
      else Full(topics, limits) && limits.overflow in topics && topics[limits.overflow] == r
    }

    constructor (limits: Limits)
      ensures Valid() && this.limits == limits && topics == map[]
      ensures records.total == 0 && bytes.total == 0 && errors.total == 0 && batchesSent == 0
    {
      this.limits := limits;
      batchesSent, topics, nextId := 0, map[], 0;
      records, bytes, errors := Counter(0, map[]), Counter(0, map[]), Counter(0, map[]);
    }

    /** Under the write lock: find the topic, or create its recorder, or resolve the overflow bucket. */
    method RegisterTopic(topic: string) returns (r: nat)
      requires Valid()
      modifies `topics, `nextId, `records, `bytes, `errors
      ensures Valid() && Serves(topic, r)
      ensures topics == Register(old(topics), limits, topic, old(nextId)).topics && SubMap(old(topics), topics)
      ensures r == Register(old(topics), limits, topic, old(nextId)).recorder
      ensures records == Gain(old(records), r, 0) && bytes == Gain(old(bytes), r, 0) && errors == Gain(old(errors), r, 0)
    {
      hide Sum, Balanced, Gain, NamedTopicCount;
      RegisterRoutes(topics, limits, topic, nextId);
      var key := if Full(topics, limits) then limits.overflow else topic;
      if topic in topics {
        r := topics[topic];
      } else if key in topics {
        r := topics[key];
      } else {
        r := nextId;
        topics, nextId := topics[key := r], nextId + 1;
      }
      GainKeepsBalance(records, r, 0);
      GainKeepsBalance(bytes, r, 0);
      GainKeepsBalance(errors, r, 0);
      records, bytes, errors := Gain(records, r, 0), Gain(bytes, r, 0), Gain(errors, r, 0);
    }

    /** The lock-free look first, then registration. */
    method WithTopic(topic: string) returns (r: nat)
      requires Valid()
      modifies `topics, `nextId, `records, `bytes, `errors
      ensures Valid() && Serves(topic, r) && SubMap(old(topics), topics)
      ensures topics == Register(old(topics), limits, topic, old(nextId)).topics
      ensures r == Register(old(topics), limits, topic, old(nextId)).recorder
      ensures records == Gain(old(records), r, 0) && bytes == Gain(old(bytes), r, 0) && errors == Gain(old(errors), r, 0)
    {
      hide Sum, Balanced, Gain, NamedTopicCount;
      if topic in topics {
        r := topics[topic];
      } else if Full(topics, limits) && limits.overflow in topics {
        r := topics[limits.overflow];
      } else {
        r := RegisterTopic(topic);
        return;
      }
      GainKeepsBalance(records, r, 0);
      GainKeepsBalance(bytes, r, 0);
      GainKeepsBalance(errors, r, 0);
    }

    /** An acknowledged batch: `r` is the recorder that took it. */
    method RecordBatchForTopic(topic: string, recordCount: nat, byteCount: nat) returns (ghost r: nat)
      requires Valid()
      modifies this
      ensures Valid() && Serves(topic, r) && SubMap(old(topics), topics)
      ensures topics == Register(old(topics), limits, topic, old(nextId)).topics
      ensures r == Register(old(topics), limits, topic, old(nextId)).recorder
      ensures batchesSent == old(batchesSent) + 1
      ensures Credited(old(records), records, r, recordCount)
      ensures Credited(old(bytes), bytes, r, byteCount)
      ensures Credited(old(errors), errors, r, 0)
    {
      hide Sum, Balanced, Gain, NamedTopicCount, Credited;
      var recorder := WithTopic(topic);
      r := recorder;
      GainKeepsBalance(old(records), r, recordCount);
      GainKeepsBalance(old(bytes), r, byteCount);
      GainCredits(old(records), r, recordCount);
      GainCredits(old(bytes), r, byteCount);
      GainCredits(old(errors), r, 0);
      batchesSent := batchesSent + 1;
      records, bytes := Gain(records, recorder, recordCount), Gain(bytes, recorder, byteCount);
    }

    /** A batch given up for good. */
    method RecordErrorForTopic(topic: string) returns (ghost r: nat)
      requires Valid()
      modifies this
      ensures Valid() && Serves(topic, r) && SubMap(old(topics), topics)
      ensures topics == Register(old(topics), limits, topic, old(nextId)).topics
      ensures r == Register(old(topics), limits, topic, old(nextId)).recorder
      ensures batchesSent == old(batchesSent)
      ensures Credited(old(records), records, r, 0)
      ensures Credited(old(bytes), bytes, r, 0)
      ensures Credited(old(errors), errors, r, 1)
    {
      hide Sum, Balanced, Gain, NamedTopicCount, Credited;
      var recorder := WithTopic(topic);
      r := recorder;
      GainKeepsBalance(old(errors), r, 1);
      GainCredits(old(records), r, 0);
      GainCredits(old(bytes), r, 0);
      GainCredits(old(errors), r, 1);
      errors := Gain(errors, recorder, 1);
    }
  }
}
