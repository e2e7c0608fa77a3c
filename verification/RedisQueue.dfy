/** The queue service's object: its methods run whole calls with the loops of the source, and each is proved
    against the function of the stored values that WholeOperations reasons about. */
module RedisQueueService {
  import opened Messages
  import opened RedisStore
  import opened DeliveryMachine
  import opened WholeOperations
  import opened FetchAndExpiry

  lemma PrependTwice(ms: seq<Message>, m: Message, r: (Store, FetchOutcome))
    ensures Prepend(ms, Prepend([m], r)) == Prepend(ms + [m], r)
  {
    if r.1.Fetched? {
      assert ms + ([m] + r.1.messages) == (ms + [m]) + r.1.messages;
    }
  }

  /** What popMessage returns: a message, neither a message nor an error, or an error. */
  datatype PopResult = Got(msg: Message) | Nothing | Failed

  class RedisQueue {
    const config: Config
    var lists: map<string, seq<Message>>
    var pels: map<string, seq<PendingEntry>>
    var deadLetterQueue: seq<PendingEntry>

    function Stores(): Store
      reads this
    {
      Store(lists, pels, deadLetterQueue)
    }

    constructor (visibilityTimeout: nat, maxRetries: int)
      ensures Stores() == EMPTY
      ensures config == Config(visibilityTimeout, maxRetries)
    {
      config := Config(visibilityTimeout, maxRetries);
      lists, pels, deadLetterQueue := map[], map[], [];
    }

    method Publish(msg: Message)
      modifies this
      ensures Stores() == LPush(old(Stores()), msg)
    {
      lists := lists[msg.topic := [msg] + List(Stores(), msg.topic)];
    }

    /** `answered` is whether BRPOP answers at all; it answers nothing when the list stayed empty for its
        one-second wait. */
    method PopMessage(topic: string, answered: bool) returns (r: PopResult)
      modifies this
      ensures r.Failed? <==> !answered
      ensures r.Nothing? <==> answered && List(old(Stores()), topic) == []
      ensures !r.Got? ==> Stores() == old(Stores())
      ensures r.Got? ==> Stores() == RPop(old(Stores()), topic) && r.msg == Last(old(Stores()), topic)
    {
      if !answered {
        return Failed;
      }
      var list := List(Stores(), topic);
      if list == [] {
        return Nothing;
      }
      r := Got(list[|list| - 1]);
      lists := lists[topic := list[..|list| - 1]];
    }

    /** `accepted` is whether Redis accepts the ZADD. */
    method AddToPEL(msg: Message, group: string, consumer: string, now: nat, accepted: bool) returns (ok: bool)
      modifies this
      ensures ok == accepted
      ensures Stores() == if accepted
        then ZAdd(old(Stores()), PelKey(msg.topic, group), NewEntry(config, Job(msg.topic, group, consumer), msg, now))
        else old(Stores())
    {
      var pelKey := PelKey(msg.topic, group);
      var entry := PendingEntry(msg, group, consumer, now + config.visibilityTimeout, 1);
      if accepted {
        pels := pels[pelKey := Inserted(Pel(Stores(), pelKey), entry)];
      }
      ok := accepted;
    }

    method RequeueMessage(msg: Message)
      modifies this
      ensures Stores() == RPush(old(Stores()), msg)
    {
      lists := lists[msg.topic := List(Stores(), msg.topic) + [msg]];
    }

    /** `replies` is what the network and the clock answer, one per iteration. */
    method FetchBatch(topic: string, group: string, consumer: string, count: nat, replies: seq<Reply>)
      returns (outcome: FetchOutcome)
      requires |replies| == count
      modifies this
      ensures (Stores(), outcome) == Fetch(config, old(Stores()), Job(topic, group, consumer), replies)
      ensures Routed(old(Stores()), topic) ==>
        FetchedExactly(config, old(Stores()), Job(topic, group, consumer), Cut(replies), (Stores(), outcome))
    {
      ghost var job, before := Job(topic, group, consumer), Stores();
      if Routed(before, topic) {
        FetchStopsAtError(config, before, job, replies);
        FetchExactly(config, before, job, Cut(replies));
      }
      var messages: seq<Message> := [];
      var i := 0;
      assert replies[0..] == replies && (Fetch(config, before, job, replies).1.Fetched? ==>
        [] + Fetch(config, before, job, replies).1.messages == Fetch(config, before, job, replies).1.messages);
      while i < count
        invariant 0 <= i <= count
        invariant Fetch(config, before, job, replies)
               == Prepend(messages, Fetch(config, Stores(), job, replies[i..]))
      {
        assert replies[i..][0] == replies[i] && replies[i..][1..] == replies[i + 1..];
        var popped := PopMessage(topic, replies[i].Answer?);
        if popped.Failed? {
          break;
        }
        if popped.Nothing? {
          // No error but no message either: addToPEL dereferences nil.
          return Panicked;
        }
        var msg := popped.msg;
        var ok := AddToPEL(msg, group, consumer, replies[i].now, replies[i].pended);
        i := i + 1;
        if !ok {
          RequeueMessage(msg);
          continue;
        }
        PrependTwice(messages, msg, Fetch(config, Stores(), job, replies[i..]));
        messages := messages + [msg];
      }
      assert messages + [] == messages;
      outcome := Fetched(messages);
    }

    /** The scan Ack and Nack share: the first entry of the set, in order, that carries the ID. */
    method FindEntry(pelKey: string, messageID: string) returns (found: Option<PendingEntry>)
      ensures found == FirstWithId(Pel(Stores(), pelKey), messageID)
    {
      var entries := Pel(Stores(), pelKey);
      for i := 0 to |entries|
        invariant FirstWithId(entries, messageID) == FirstWithId(entries[i..], messageID)
      {
        assert entries[i..][0] == entries[i] && entries[i..][1..] == entries[i + 1..];
        if entries[i].message.id == messageID {
          return Some(entries[i]);
        }
      }
      found := None;
    }

    /** False is the not-found error. */
    method Ack(topic: string, group: string, messageID: string) returns (found: bool)
      modifies this
      ensures (Stores(), found) == WholeOperations.Ack(old(Stores()), topic, group, messageID)
      ensures !found ==> Stores() == old(Stores())
    {
      var pelKey := PelKey(topic, group);
      var entry := FindEntry(pelKey, messageID);
      if entry.None? {
        return false;
      }
      pels := pels[pelKey := Removed(Pel(Stores(), pelKey), entry.value)];
      found := true;
    }

    method Nack(topic: string, group: string, messageID: string) returns (found: bool)
      modifies this
      ensures (Stores(), found) == WholeOperations.Nack(old(Stores()), topic, group, messageID)
      ensures !found ==> Stores() == old(Stores())
    {
      var pelKey := PelKey(topic, group);
      var entry := FindEntry(pelKey, messageID);
      if entry.None? {
        return false;
      }
      pels := pels[pelKey := Removed(Pel(Stores(), pelKey), entry.value)];
      RequeueMessage(entry.value.message);
      found := true;
    }

    /** `now` is the clock reading and `keys` the answer to KEYS "pel:*". */
    method CheckExpiredMessages(now: nat, keys: seq<string>)
      requires IsKeysReply(Stores(), keys)
      modifies this
      ensures Stores() == Expire(config, old(Stores()), now, keys)
      ensures Expired(config, old(Stores()), TakenBy(old(Stores()), now, keys), Stores())
      ensures forall k :: Pel(Stores(), k) == if "pel:" <= k then Beyond(Pel(old(Stores()), k), Unix(now)) else Pel(old(Stores()), k)
    {
      ghost var before := Stores();
      ExpireExactly(config, before, now, keys);
      for i := 0 to |keys|
        invariant Expire(config, before, now, keys) == Expire(config, Stores(), now, keys[i..])
      {
        var pelKey := keys[i];
        assert keys[i..][0] == pelKey && keys[i..][1..] == keys[i + 1..];
        ghost var atKey := Stores();
        var entries := UpTo(Pel(Stores(), pelKey), Unix(now));
        for j := 0 to |entries|
          invariant ExpireEntries(config, atKey, pelKey, entries)
                 == ExpireEntries(config, Stores(), pelKey, entries[j..])
        {
          var entry := entries[j];
          assert entries[j..][0] == entry && entries[j..][1..] == entries[j + 1..];
          if entry.deliveryCount >= config.maxRetries {
            deadLetterQueue := deadLetterQueue + [entry];
            pels := pels[pelKey := Removed(Pel(Stores(), pelKey), entry)];
          } else {
            pels := pels[pelKey := Removed(Pel(Stores(), pelKey), entry)];
            RequeueMessage(entry.message);
          }
        }
      }
    }
  }
}
