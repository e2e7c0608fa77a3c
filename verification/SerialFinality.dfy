/** With calls made one after the other and unique message IDs, an acknowledgement is final. */
module SerialFinality {
  import opened Messages
  import opened RedisStore
  import opened DeliveryMachine
  import opened DeliveryOrder
  import opened PendingEntries
  import opened WholeOperations
  import opened Conservation
  import opened FetchAndExpiry

  lemma ServesCons(c: Config, v: Service, call: Call, rest: seq<Call>)
    requires Possible(v, call) && Serves(c, Perform(c, v, call), rest)
    ensures Serves(c, v, [call] + rest)
    ensures AfterCalls(c, v, [call] + rest) == AfterCalls(c, Perform(c, v, call), rest)
  {
    assert ([call] + rest)[0] == call && ([call] + rest)[1..] == rest;
  }

  lemma {:induction false} CallsConcat(c: Config, v: Service, a: seq<Call>, b: seq<Call>)
    requires Serves(c, v, a) && Serves(c, AfterCalls(c, v, a), b)
    ensures Serves(c, v, a + b) && AfterCalls(c, v, a + b) == AfterCalls(c, AfterCalls(c, v, a), b)
    decreases |a|
  {
    if a == [] {
      assert a + b == b;
    } else {
      var call, rest := a[0], a[1..];
      CallsConcat(c, Perform(c, v, call), rest, b);
      ServesCons(c, v, call, rest + b);
      assert a + b == [call] + (rest + b);
    }
  }

  lemma AttainedAfter(c: Config, v: Service, calls: seq<Call>)
    requires Attained(c, v) && Serves(c, v, calls)
    ensures Attained(c, AfterCalls(c, v, calls))
  {
    var before :| Serves(c, IDLE, before) && AfterCalls(c, IDLE, before) == v;
    CallsConcat(c, IDLE, before, calls);
  }

  lemma AckedIsNowhere(c: Config, v: Service, m: Message)
    requires Attained(c, v) && Distinct(v.published) && m in v.acked
    ensures m !in Total(v.store) && m in v.published
  {
    PublishedIsConserved(c, v);
    var whole := Total(v.store) + multiset(v.acked);
    assert whole[m] <= 1;
    assert m in multiset(v.acked);
    assert m in multiset(v.published);
  }

  lemma SameId(s: seq<Message>, x: Message, y: Message)
    requires UniqueIds(s) && x in s && y in s && x.id == y.id
    ensures x == y
  {
    var i :| 0 <= i < |s| && s[i] == x;
    var j :| 0 <= j < |s| && s[j] == y;
    assert i == j;
  }

  lemma PendingIsPublished(c: Config, v: Service, key: string, e: PendingEntry)
    requires Attained(c, v) && Distinct(v.published) && e in Pel(v.store, key)
    ensures e.message in Total(v.store) && e.message in v.published
  {
    PublishedIsConserved(c, v);
    BagHas(Pel(v.store, key), e);
    PelWithin(v.store, key);
    assert e.message in Total(v.store) + multiset(v.acked);
    assert e.message in multiset(v.published);
  }

  /** No pending set answers to the ID of an acknowledged message. */
  lemma AckedIdNotFound(c: Config, v: Service, m: Message, key: string)
    requires Attained(c, v) && UniqueIds(v.published) && m in v.acked
    ensures FirstWithId(Pel(v.store, key), m.id) == None
  {
    AckedIsNowhere(c, v, m);
    forall e | e in Pel(v.store, key) ensures e.message.id != m.id {
      PendingIsPublished(c, v, key, e);
      if e.message.id == m.id {
        SameId(v.published, e.message, m);
      }
    }
  }

  /** In a service's lists every message is under its own topic. */
  lemma AttainedRouted(c: Config, v: Service, t: string)
    requires Attained(c, v)
    ensures Routed(v.store, t)
  {
    CallsRefineMachine(c, v);
    var s :| Reachable(c, s) && Matches(s, v);
    ReachableRouted(c, s);
  }

  /** FetchBatch returns only messages that were in the topic's list. */
  lemma FetchedFromList(c: Config, st: Store, job: Job, replies: seq<Reply>, m: Message)
    requires Routed(st, job.topic)
    requires Fetch(c, st, job, replies).1.Fetched? && m in Fetch(c, st, job, replies).1.messages
    ensures m in List(st, job.topic)
  {
    FetchStopsAtError(c, st, job, replies);
    FetchExactly(c, st, job, Cut(replies));
    LastPoppedInList(List(st, job.topic), Moves(List(st, job.topic), Cut(replies)));
  }

  lemma LastPoppedInList(list: seq<Message>, k: nat)
    requires k <= |list|
    ensures forall m :: m in LastPopped(list, k) ==> m in list
  {
    var batch := LastPopped(list, k);
    forall m | m in batch ensures m in list {
      var i :| 0 <= i < |batch| && batch[i] == m;
      assert batch[i] == list[|list| - 1 - i];
    }
  }

  /** After a successful Ack, and after any further calls, the message is in no store, no fetch returns it,
      and a second Ack or a Nack of its ID reports not-found and changes nothing. */
  lemma AckIsFinal(c: Config, v: Service, topic: string, group: string, id: string, later: seq<Call>)
    requires Attained(c, v) && Ack(v.store, topic, group, id).1
    requires Serves(c, Perform(c, v, CallAck(topic, group, id)), later)
    requires UniqueIds(AfterCalls(c, Perform(c, v, CallAck(topic, group, id)), later).published)
    ensures
      var m := FirstWithId(Pel(v.store, PelKey(topic, group)), id).value.message;
      var v' := AfterCalls(c, Perform(c, v, CallAck(topic, group, id)), later);
      && m.id == id && m !in Total(v'.store)
      && (forall t, g :: Ack(v'.store, t, g, id) == (v'.store, false) && Nack(v'.store, t, g, id) == (v'.store, false))
      && (forall job, replies ::
            Fetch(c, v'.store, job, replies).1.Fetched? ==> m !in Fetch(c, v'.store, job, replies).1.messages)
  {
    var m := FirstWithId(Pel(v.store, PelKey(topic, group)), id).value.message;
    var v1 := Perform(c, v, CallAck(topic, group, id));
    var v' := AfterCalls(c, v1, later);
    assert Serves(c, v, [CallAck(topic, group, id)]) && AfterCalls(c, v, [CallAck(topic, group, id)]) == v1;
    AttainedAfter(c, v, [CallAck(topic, group, id)]);
    AttainedAfter(c, v1, later);
    HistoryGrows(c, v1, later);
    assert v1.acked[|v1.acked| - 1] == m;
    assert v'.acked[|v1.acked| - 1] == m;
    assert Distinct(v'.published);
    AckedIsNowhere(c, v', m);
    forall t, g ensures Ack(v'.store, t, g, id) == (v'.store, false) && Nack(v'.store, t, g, id) == (v'.store, false) {
      AckedIdNotFound(c, v', m, PelKey(t, g));
    }
    forall job, replies | Fetch(c, v'.store, job, replies).1.Fetched?
      ensures m !in Fetch(c, v'.store, job, replies).1.messages
    {
      AttainedRouted(c, v', job.topic);
      ListWithin(v'.store, job.topic);
      forall x | x in Fetch(c, v'.store, job, replies).1.messages ensures x in Total(v'.store) {
        FetchedFromList(c, v'.store, job, replies, x);
        assert x in multiset(List(v'.store, job.topic));
      }
    }
  }

  /** The entry an ID names in a set: the first that carries it. */
  ghost predicate Names(z: seq<PendingEntry>, id: string, i: nat) {
    i < |z| && z[i].message.id == id && forall j :: 0 <= j < i ==> z[j].message.id != id
  }

  /** `st'` is `st` with the entry taken out of its set and nothing else changed but, perhaps, the lists. */
  ghost predicate TakenOut(st: Store, st': Store, key: string, e: PendingEntry) {
    && (forall x :: x in Pel(st', key) <==> x in Pel(st, key) && x != e)
    && (forall k :: k != key ==> Pel(st', k) == Pel(st, k))
    && st'.dead == st.dead
  }

  /** What Ack does, whatever is pending: not-found and no change exactly if no entry of the set carries the ID;
      otherwise it takes out the first that does, and changes nothing else. */
  lemma AckExactly(st: Store, topic: string, group: string, id: string)
    ensures
      var z, (st', found) := Pel(st, PelKey(topic, group)), Ack(st, topic, group, id);
      && (found <==> exists e :: e in z && e.message.id == id)
      && (!found ==> st' == st)
      && (found ==> exists i: nat :: Names(z, id, i) && TakenOut(st, st', PelKey(topic, group), z[i]) && st'.lists == st.lists)
  {
    var z := Pel(st, PelKey(topic, group));
    if FirstWithId(z, id).Some? {
      FirstWithIdIsFirst(z, id);
      var i: nat :| i < |z| && z[i] == FirstWithId(z, id).value && forall j :: 0 <= j < i ==> z[j].message.id != id;
      assert Names(z, id, i);
    }
  }

  /** The lists of `st'` are those of `st` with the message at the popping end of its own. */
  ghost predicate PutBack(st: Store, st': Store, m: Message) {
    List(st', m.topic) == List(st, m.topic) + [m] && forall t :: t != m.topic ==> List(st', t) == List(st, t)
  }

  lemma TakenAndPutBack(st: Store, key: string, e: PendingEntry)
    ensures
      var st' := RPush(ZRem(st, key, e), e.message);
      TakenOut(st, st', key, e) && PutBack(st, st', e.message)
  {
  }

  /** Nack does the same and puts the message at the popping end of its list. */
  lemma NackExactly(st: Store, topic: string, group: string, id: string)
    ensures
      var z, (st', found) := Pel(st, PelKey(topic, group)), Nack(st, topic, group, id);
      && (found <==> exists e :: e in z && e.message.id == id)
      && (!found ==> st' == st)
      && (found ==> exists i: nat ::
            Names(z, id, i) && TakenOut(st, st', PelKey(topic, group), z[i]) && PutBack(st, st', z[i].message))
  {
    var z := Pel(st, PelKey(topic, group));
    if FirstWithId(z, id).Some? {
      FirstWithIdIsFirst(z, id);
      var i: nat :| i < |z| && z[i] == FirstWithId(z, id).value && forall j :: 0 <= j < i ==> z[j].message.id != id;
      assert Names(z, id, i);
      TakenAndPutBack(st, PelKey(topic, group), z[i]);
    }
  }

  /** What is pending for a topic and group in a service whose topics hold no colon: only that topic's
      messages, fetched by that group, with delivery count one. */
  lemma AttainedPending(c: Config, v: Service, topic: string, group: string, e: PendingEntry)
    requires Attained(c, v) && e in Pel(v.store, PelKey(topic, group))
    requires ':' !in topic && ':' !in e.message.topic
    ensures e.message.topic == topic && e.group == group && e.deliveryCount == 1
    ensures InOrder(Pel(v.store, PelKey(topic, group)))
  {
    CallsRefineMachine(c, v);
    var s :| Reachable(c, s) && Matches(s, v);
    ReachableEntries(c, s);
    assert EntryOk(c, s.clock, PelKey(topic, group), e);
    ColonFreePair(topic, group, e.message.topic, e.group);
  }

  /** Expiry in a service: a pass over one pending set takes exactly the entries of its second. With maxRetries two
      or more it requeues them all, dead-letters nothing, and whatever the next fetch returns begins with them, in
      reverse score order; otherwise it dead-letters them all. */
  lemma ExpiryInService(c: Config, v: Service, job: Job, now: nat, replies: seq<Reply>)
    requires Attained(c, v) && Distinct(v.published)
    requires ':' !in job.topic && forall m :: m in v.published ==> ':' !in m.topic
    ensures
      var key := PelKey(job.topic, job.group);
      var taken, st1 := UpTo(Pel(v.store, key), Unix(now)), Expire(c, v.store, now, [key]);
      var retried := if c.maxRetries > 1 then MessagesOf(taken) else [];
      var out := Fetch(c, st1, job, replies).1;
      && Pel(st1, key) == Beyond(Pel(v.store, key), Unix(now))
      && List(st1, job.topic) == List(v.store, job.topic) + retried
      && st1.dead == (if c.maxRetries > 1 then [] else v.store.dead + taken)
      && (out.Fetched? ==> ComesFirst(Reverse(retried), out.messages))
  {
    var key := PelKey(job.topic, job.group);
    forall e | e in Pel(v.store, key) ensures e.message.topic == job.topic && e.deliveryCount == 1 {
      PendingIsPublished(c, v, key, e);
      AttainedPending(c, v, job.topic, job.group, e);
    }
    var taken := UpTo(Pel(v.store, key), Unix(now));
    if c.maxRetries > 1 {
      AttainedDead(c, v);
      AllRetriable(c, taken);
    } else {
      AllExhausted(c, taken);
      assert MessagesOf([]) == [];
    }
    AttainedRouted(c, v, job.topic);
    ExpireOneSet(c, v.store, job.topic, key, now);
    ExpiredComeBackReversed(c, v.store, job, now, replies);
  }

  lemma AttainedDead(c: Config, v: Service)
    requires Attained(c, v) && c.maxRetries > 1
    ensures v.store.dead == []
  {
    CallsRefineMachine(c, v);
    var s :| Reachable(c, s) && Matches(s, v);
    ReachableEntries(c, s);
  }
}
