/** The batch-polling consumer composed with the queue: fetch, handle, then Ack or Nack each message. */
module Consumer {
  import opened Messages
  import opened RedisStore
  import opened DeliveryMachine
  import opened WholeOperations
  import opened Conservation
  import opened FetchAndExpiry
  import opened SerialFinality
  import opened RedisQueueService

  const PREFETCH_COUNT: nat := 500

  /** A request the consumer sends for a message of its batch. */
  datatype Request = SendAck(id: string) | SendNack(id: string)

  function RequestFor(m: Message, handled: bool): Request {
    if handled then SendAck(m.id) else SendNack(m.id)
  }

  /** The store after the consumer has answered for a batch; `handled[i]` is whether the handler returned no
      error for message i. */
  function Settle(st: Store, topic: string, group: string, batch: seq<Message>, handled: seq<bool>): Store
    requires |batch| <= |handled|
    decreases |batch|
  {
    if batch == [] then st
    else
      Settle(if handled[0] then Ack(st, topic, group, batch[0].id).0 else Nack(st, topic, group, batch[0].id).0,
             topic, group, batch[1..], handled[1..])
  }

  /** The messages of the batch whose handler failed, in order. */
  function Failed(batch: seq<Message>, handled: seq<bool>): (r: seq<Message>)
    requires |batch| <= |handled|
    ensures forall m :: m in r ==> m in batch
  {
    if batch == [] then []
    else (if handled[0] then [] else [batch[0]]) + Failed(batch[1..], handled[1..])
  }

  lemma {:induction false} FailedAppend(batch: seq<Message>, handled: seq<bool>, n: nat)
    requires n < |batch| <= |handled|
    ensures Failed(batch[..n + 1], handled) == Failed(batch[..n], handled) + if handled[n] then [] else [batch[n]]
  {
    if n == 0 {
      assert batch[..1][1..] == [];
    } else {
      FailedAppend(batch[1..], handled[1..], n - 1);
      assert batch[..n + 1][1..] == batch[1..][..n] && batch[..n][1..] == batch[1..][..n - 1];
    }
  }

  /** The failures are the messages at exactly the positions the handler failed at, in order. */
  lemma {:induction false} FailedExactly(batch: seq<Message>, handled: seq<bool>, n: nat)
    requires n <= |batch| <= |handled|
    ensures
      var at := Indices(handled[..n], h => !h);
      |Failed(batch[..n], handled)| == |at| && forall k :: 0 <= k < |at| ==> Failed(batch[..n], handled)[k] == batch[at[k]]
  {
    if n > 0 {
      FailedExactly(batch, handled, n - 1);
      FailedAppend(batch, handled, n - 1);
      assert handled[..n] == handled[..n - 1] + [handled[n - 1]];
      IndicesAppend(handled[..n - 1], handled[n - 1], h => !h);
    }
  }

  /** The entries whose message is not in `ms`. */
  function Without(z: seq<PendingEntry>, ms: seq<Message>): (r: seq<PendingEntry>)
    ensures forall e :: e in r <==> e in z && e.message !in ms
  {
    if z == [] then []
    else
      assert z == [z[0]] + z[1..];
      (if z[0].message in ms then [] else [z[0]]) + Without(z[1..], ms)
  }

  /** An ID names one pending entry. */
  ghost predicate IdsPending(z: seq<PendingEntry>) {
    forall d, e :: d in z && e in z && d.message.id == e.message.id ==> d == e
  }

  lemma {:induction false} RemovedIsWithout(z: seq<PendingEntry>, e: PendingEntry)
    requires forall d :: d in z && d.message == e.message ==> d == e
    ensures Removed(z, e) == Without(z, [e.message])
  {
    if z != [] {
      assert z == [z[0]] + z[1..];
      RemovedIsWithout(z[1..], e);
    }
  }

  lemma {:induction false} WithoutTwice(z: seq<PendingEntry>, m: Message, ms: seq<Message>)
    ensures Without(Without(z, [m]), ms) == Without(z, [m] + ms)
  {
    if z != [] {
      var tail := Without(z[1..], [m]);
      WithoutTwice(z[1..], m, ms);
      if z[0].message == m {
        assert Without(z, [m]) == tail;
        assert Without(z, [m] + ms) == Without(z[1..], [m] + ms);
      } else {
        assert Without(z, [m]) == [z[0]] + tail;
        assert ([z[0]] + tail)[1..] == tail;
        assert z[0].message in ms <==> z[0].message in [m] + ms;
      }
    }
  }

  lemma SettleHead(st: Store, topic: string, group: string, batch: seq<Message>, handled: seq<bool>, i: nat)
    requires i < |batch| <= |handled|
    ensures
      var st1 := if handled[i] then Ack(st, topic, group, batch[i].id).0 else Nack(st, topic, group, batch[i].id).0;
      Settle(st, topic, group, batch[i..], handled[i..]) == Settle(st1, topic, group, batch[i + 1..], handled[i + 1..])
  {
    assert batch[i..][1..] == batch[i + 1..];
    assert handled[i..][1..] == handled[i + 1..];
  }

  lemma SettleOne(st: Store, topic: string, group: string, m: Message, handled: bool)
    requires IdsPending(Pel(st, PelKey(topic, group))) && m.topic == topic
    requires exists e :: e in Pel(st, PelKey(topic, group)) && e.message == m
    ensures
      var st' := if handled then Ack(st, topic, group, m.id).0 else Nack(st, topic, group, m.id).0;
      && Pel(st', PelKey(topic, group)) == Without(Pel(st, PelKey(topic, group)), [m])
      && List(st', topic) == List(st, topic) + (if handled then [] else [m])
      && RestUntouched(st, st', Job(topic, group, ""))
  {
    var z := Pel(st, PelKey(topic, group));
    var e :| e in z && e.message == m;
    assert FirstWithId(z, m.id) == Some(e);
    RemovedIsWithout(z, e);
    assert List(st, topic) + [] == List(st, topic);
  }

  /** Answering for a batch removes exactly the batch from the pending set and appends exactly the failed
      messages, in batch order, at the end of the list that is popped next. */
  lemma {:induction false} SettleExactly(st: Store, topic: string, group: string, batch: seq<Message>, handled: seq<bool>)
    requires |batch| <= |handled| && Distinct(batch)
    requires IdsPending(Pel(st, PelKey(topic, group)))
    requires forall m :: m in batch ==> m.topic == topic && exists e :: e in Pel(st, PelKey(topic, group)) && e.message == m
    ensures
      var st' := Settle(st, topic, group, batch, handled);
      && Pel(st', PelKey(topic, group)) == Without(Pel(st, PelKey(topic, group)), batch)
      && List(st', topic) == List(st, topic) + Failed(batch, handled)
      && RestUntouched(st, st', Job(topic, group, ""))
    decreases |batch|
  {
    var z := Pel(st, PelKey(topic, group));
    if batch == [] {
      WithoutNone(z);
    } else {
      var m, rest := batch[0], batch[1..];
      assert batch == [m] + rest;
      SettleOne(st, topic, group, m, handled[0]);
      var st1 := if handled[0] then Ack(st, topic, group, m.id).0 else Nack(st, topic, group, m.id).0;
      forall x | x in rest ensures exists e :: e in Pel(st1, PelKey(topic, group)) && e.message == x {
        var e :| e in z && e.message == x;
        assert e in Without(z, [m]);
      }
      SettleExactly(st1, topic, group, rest, handled[1..]);
      WithoutTwice(z, m, rest);
      Assoc(List(st, topic), if handled[0] then [] else [m], Failed(rest, handled[1..]));
      var st' := Settle(st1, topic, group, rest, handled[1..]);
      forall t | t != topic ensures List(st', t) == List(st, t) {
        assert List(st1, t) == List(st, t);
      }
      forall k | k != PelKey(topic, group) ensures Pel(st', k) == Pel(st, k) {
        assert Pel(st1, k) == Pel(st, k);
      }
    }
  }

  lemma {:induction false} WithoutNone(z: seq<PendingEntry>)
    ensures Without(z, []) == z
  {
    if z != [] {
      WithoutNone(z[1..]);
    }
  }

  lemma {:induction false} WithoutAbsent(z: seq<PendingEntry>, ms: seq<Message>)
    requires forall e :: e in z ==> e.message !in ms
    ensures Without(z, ms) == z
  {
    if z != [] {
      WithoutAbsent(z[1..], ms);
    }
  }

  lemma {:induction false} WithoutPlaced(z: seq<PendingEntry>, e: PendingEntry, ms: seq<Message>)
    requires e.message in ms
    ensures Without(Placed(z, e), ms) == Without(z, ms)
  {
    if z == [] {
    } else if Precedes(e, z[0]) {
      assert ([e] + z)[1..] == z;
    } else {
      WithoutPlaced(z[1..], e, ms);
      assert ([z[0]] + Placed(z[1..], e))[1..] == Placed(z[1..], e);
    }
  }

  /** Taking a fetched batch out of the pending set again gives the set before the fetch. */
  lemma {:induction false} WithoutInserted(z: seq<PendingEntry>, es: seq<PendingEntry>, ms: seq<Message>)
    requires forall e :: e in es ==> e.message in ms
    ensures Without(InsertedAll(z, es), ms) == Without(z, ms)
    decreases |es|
  {
    if es != [] {
      WithoutPlaced(z, es[0], ms);
      assert es == [es[0]] + es[1..];
      WithoutInserted(Inserted(z, es[0]), es[1..], ms);
    }
  }

  // ---------------------------------------------------------------- one polling iteration

  /** The store after a polling iteration. A fetch that dies answers with an error, and the consumer goes
      on to poll again. */
  function Polled(c: Config, st: Store, job: Job, replies: seq<Reply>, handled: seq<bool>): Store
    requires |replies| <= |handled|
  {
    var (st1, out) := Fetch(c, st, job, replies);
    if out.Panicked? then st1 else Settle(st1, job.topic, job.group, out.messages, handled)
  }

  /** The IDs waiting or pending for one topic and group are all different. */
  ghost predicate IdsSeparate(st: Store, job: Job) {
    var list, z := List(st, job.topic), Pel(st, PelKey(job.topic, job.group));
    UniqueIds(list) && IdsPending(z) && forall m, e :: m in list && e in z ==> m.id != e.message.id
  }

  lemma BatchOfList(list: seq<Message>, n: nat)
    requires n <= |list| && UniqueIds(list)
    ensures UniqueIds(LastPopped(list, n))
    ensures forall m :: m in LastPopped(list, n) ==> m in list
  {
    var batch := LastPopped(list, n);
    LastPoppedInList(list, n);
    assert forall i :: 0 <= i < n ==> batch[i] == list[|list| - 1 - i];
  }

  lemma EntriesOfBatch(c: Config, job: Job, batch: seq<Message>, times: seq<nat>)
    requires |batch| <= |times|
    ensures forall e :: e in NewEntries(c, job, batch, times) ==> e.message in batch
    ensures forall m :: m in batch ==> exists e :: e in NewEntries(c, job, batch, times) && e.message == m
    ensures UniqueIds(batch) ==> IdsPending(NewEntries(c, job, batch, times))
  {
    var es := NewEntries(c, job, batch, times);
    forall m | m in batch ensures exists e :: e in es && e.message == m {
      var i :| 0 <= i < |batch| && batch[i] == m;
      assert es[i] in es && es[i].message == m;
    }
    if UniqueIds(batch) {
      forall d, e | d in es && e in es && d.message.id == e.message.id ensures d == e {
        var i :| 0 <= i < |es| && es[i] == d;
        var j :| 0 <= j < |es| && es[j] == e;
        assert batch[i].id == batch[j].id;
        assert i == j;
      }
    }
  }

  /** Answering for a batch just fetched takes it out of the pending set again. */
  lemma SettleFetched(c: Config, st: Store, st1: Store, job: Job, n: nat, times: seq<nat>, handled: seq<bool>)
    requires IdsSeparate(st, job) && Routed(st, job.topic) && n <= |List(st, job.topic)| && n <= |times| && n <= |handled|
    requires
      var batch := LastPopped(List(st, job.topic), n);
      Pel(st1, PelKey(job.topic, job.group)) == InsertedAll(Pel(st, PelKey(job.topic, job.group)), NewEntries(c, job, batch, times))
    ensures
      var batch := LastPopped(List(st, job.topic), n);
      var st' := Settle(st1, job.topic, job.group, batch, handled);
      && Pel(st', PelKey(job.topic, job.group)) == Pel(st, PelKey(job.topic, job.group))
      && List(st', job.topic) == List(st1, job.topic) + Failed(batch, handled)
      && RestUntouched(st1, st', Job(job.topic, job.group, ""))
  {
    var list, z := List(st, job.topic), Pel(st, PelKey(job.topic, job.group));
    var batch := LastPopped(list, n);
    var es := NewEntries(c, job, batch, times);
    BatchOfList(list, n);
    EntriesOfBatch(c, job, batch, times);
    assert IdsPending(InsertedAll(z, es));
    SettleExactly(st1, job.topic, job.group, batch, handled);
    WithoutInserted(z, es, batch);
    WithoutAbsent(z, batch);
  }

  /** One polling iteration of a consumer whose fetch succeeds, whatever ZADDs were refused and wherever a BRPOP
      failed: the pending set is as before the fetch, and the list has lost the batch and gained, at its popping
      end and in batch order, the messages that failed. */
  lemma PollExactly(c: Config, st: Store, job: Job, replies: seq<Reply>, handled: seq<bool>)
    requires Routed(st, job.topic) && IdsSeparate(st, job) && |replies| <= |handled|
    requires Fetch(c, st, job, replies).1.Fetched?
    ensures
      var list, n := List(st, job.topic), Moves(List(st, job.topic), Cut(replies));
      var st', batch := Polled(c, st, job, replies, handled), LastPopped(list, n);
      && n <= |handled|
      && Fetch(c, st, job, replies).1 == Fetched(batch)
      && Pel(st', PelKey(job.topic, job.group)) == Pel(st, PelKey(job.topic, job.group))
      && List(st', job.topic) == list[..|list| - n] + Failed(batch, handled)
      && RestUntouched(st, st', job)
  {
    var n := Moves(List(st, job.topic), Cut(replies));
    FetchStopsAtError(c, st, job, replies);
    FetchExactly(c, st, job, Cut(replies));
    var st1 := Fetch(c, st, job, replies).0;
    SettleFetched(c, st, st1, job, n, PendTimes(Cut(replies)), handled);
    SameRest(st, st1, Polled(c, st, job, replies, handled), job);
  }

  lemma NewEntriesBag(c: Config, job: Job, z: seq<PendingEntry>, batch: seq<Message>, times: seq<nat>)
    requires |batch| <= |times| && UniqueIds(batch) && forall m, e :: m in batch && e in z ==> m.id != e.message.id
    ensures
      var es := NewEntries(c, job, batch, times);
      multiset(InsertedAll(z, es)) == multiset(z) + multiset(es)
  {
    var es := NewEntries(c, job, batch, times);
    EntriesOfBatch(c, job, batch, times);
    assert Distinct(es) by {
      assert forall i :: 0 <= i < |es| ==> es[i].message == batch[i];
    }
    InsertedAllBag(z, es);
  }

  /** The entry that holds the k-th message fetched, which the iteration `a` pended. */
  ghost predicate EntryFor(c: Config, job: Job, e: PendingEntry, m: Message, a: Reply) {
    && e.message == m && e.group == job.group && e.consumer == job.consumer && e.deliveryCount == 1
    && a.Answer? && a.pended && e.visibleAt == a.now + c.visibilityTimeout
  }

  /** `es` holds, in order, an entry for each of the last `|es|` messages of the list, pended by the iterations of
      `replies` whose ZADD is accepted. */
  ghost predicate EntriesFor(c: Config, job: Job, es: seq<PendingEntry>, list: seq<Message>, replies: seq<Reply>) {
    var at := Indices(Cut(replies), FetchAndExpiry.Accepted);
    && |es| <= |list| && |es| <= |at|
    && forall i :: 0 <= i < |es| ==> EntryFor(c, job, es[i], list[|list| - 1 - i], replies[at[i]])
  }

  lemma NewEntriesFor(c: Config, job: Job, list: seq<Message>, replies: seq<Reply>, k: nat)
    requires k <= |list| && k <= |PendTimes(Cut(replies))|
    ensures EntriesFor(c, job, NewEntries(c, job, LastPopped(list, k), PendTimes(Cut(replies))), list, replies)
  {
    var answers := Cut(replies);
    PendTimesExactly(answers);
    var es, at := NewEntries(c, job, LastPopped(list, k), PendTimes(answers)), Indices(answers, FetchAndExpiry.Accepted);
    forall i | 0 <= i < k ensures EntryFor(c, job, es[i], list[|list| - 1 - i], replies[at[i]]) {
      assert es[i].message == LastPopped(list, k)[i];
      assert answers[at[i]] == replies[at[i]];
    }
  }

  /** Whatever BRPOP and ZADD answer, and also when the fetch dies, the pending set gains exactly one entry for each
      message moved off the end of the list: for the consumer and its group, with a first delivery and a deadline one
      visibility timeout after the clock reading of the iteration whose ZADD was accepted. */
  lemma FetchGainsOneEach(c: Config, st: Store, job: Job, replies: seq<Reply>)
    requires Routed(st, job.topic) && IdsSeparate(st, job)
    ensures
      var list, key, st' := List(st, job.topic), PelKey(job.topic, job.group), Fetch(c, st, job, replies).0;
      exists es :: (
        && EntriesFor(c, job, es, list, replies)
        && (|es| == |list| || |es| == |Indices(Cut(replies), FetchAndExpiry.Accepted)|)
        && List(st', job.topic) == list[..|list| - |es|]
        && multiset(Pel(st', key)) == multiset(Pel(st, key)) + multiset(es))
  {
    var list, answers := List(st, job.topic), Cut(replies);
    FetchStopsAtError(c, st, job, replies);
    FetchExactly(c, st, job, answers);
    PendTimesExactly(answers);
    var k := Moves(list, answers);
    BatchOfList(list, k);
    NewEntriesBag(c, job, Pel(st, PelKey(job.topic, job.group)), LastPopped(list, k), PendTimes(answers));
    NewEntriesFor(c, job, list, replies, k);
    assert EntriesFor(c, job, NewEntries(c, job, LastPopped(list, k), PendTimes(answers)), list, replies);
  }

  lemma SameRest(st: Store, st1: Store, st2: Store, job: Job)
    requires RestUntouched(st, st1, job) && RestUntouched(st1, st2, Job(job.topic, job.group, ""))
    ensures RestUntouched(st, st2, job)
  {
    forall t | t != job.topic ensures List(st2, t) == List(st, t) {
      assert List(st1, t) == List(st, t);
    }
    forall k | k != PelKey(job.topic, job.group) ensures Pel(st2, k) == Pel(st, k) {
      assert Pel(st1, k) == Pel(st, k);
    }
  }

  /** A message whose handler failed is not put behind the others: whatever the next fetch returns begins with the
      failures, in reverse order of failure. */
  lemma FailedComeBackReversed(c: Config, st: Store, job: Job, replies: seq<Reply>, handled: seq<bool>, next: seq<Reply>)
    requires Routed(st, job.topic) && IdsSeparate(st, job) && |replies| <= |handled|
    requires Fetch(c, st, job, replies).1.Fetched?
    requires Fetch(c, Polled(c, st, job, replies, handled), job, next).1.Fetched?
    ensures
      var failed := Failed(Fetch(c, st, job, replies).1.messages, handled);
      ComesFirst(Reverse(failed), Fetch(c, Polled(c, st, job, replies, handled), job, next).1.messages)
  {
    PollExactly(c, st, job, replies, handled);
    var list, n := List(st, job.topic), Moves(List(st, job.topic), Cut(replies));
    var failed, st' := Failed(LastPopped(list, n), handled), Polled(c, st, job, replies, handled);
    LastPoppedInList(list, n);
    assert Routed(st', job.topic);
    RequeuedComeFirst(c, st', job, list[..|list| - n], failed, next);
  }

  /** Calls made one after the other with unique message IDs lead only to states PollExactly applies to. */
  lemma AttainedIdsSeparate(c: Config, v: Service, job: Job)
    requires Attained(c, v) && UniqueIds(v.published)
    ensures Routed(v.store, job.topic) && IdsSeparate(v.store, job)
  {
    AttainedRouted(c, v, job.topic);
    var list, z := List(v.store, job.topic), Pel(v.store, PelKey(job.topic, job.group));
    var b := multiset(list) + Bag(z);
    ListAndPelWithin(v.store, job.topic, PelKey(job.topic, job.group));
    PublishedIsConserved(c, v);
    forall m ensures b[m] <= 1 && (m in b ==> m in v.published) {
      assert (Total(v.store) + multiset(v.acked))[m] <= 1;
      assert m in Total(v.store) + multiset(v.acked) ==> m in multiset(v.published);
    }
    SeparateOnce(v.published, list, z);
  }

  lemma SeparateOnce(published: seq<Message>, list: seq<Message>, z: seq<PendingEntry>)
    requires UniqueIds(published) && Once(multiset(list) + Bag(z))
    requires forall m :: m in multiset(list) + Bag(z) ==> m in published
    ensures UniqueIds(list) && IdsPending(z)
    ensures forall m, e :: m in list && e in z ==> m.id != e.message.id
  {
    var both := list + MessagesOf(z);
    assert multiset(both) == multiset(list) + Bag(z);
    OnceHasUniqueIds(published, both);
    SeparateParts(list, z);
  }

  lemma OnceHasUniqueIds(published: seq<Message>, s: seq<Message>)
    requires UniqueIds(published) && Once(multiset(s)) && forall m :: m in multiset(s) ==> m in published
    ensures UniqueIds(s)
  {
    OnceIsDistinct(s);
    forall i, j | 0 <= i < j < |s| ensures s[i].id != s[j].id {
      assert s[i] in multiset(s) && s[j] in multiset(s);
      if s[i].id == s[j].id {
        SameId(published, s[i], s[j]);
      }
    }
  }

  lemma SeparateParts(list: seq<Message>, z: seq<PendingEntry>)
    requires UniqueIds(list + MessagesOf(z))
    ensures UniqueIds(list) && IdsPending(z)
    ensures forall m, e :: m in list && e in z ==> m.id != e.message.id
  {
    var both := list + MessagesOf(z);
    forall i, j | 0 <= i < j < |list| ensures list[i].id != list[j].id {
      assert both[i].id != both[j].id;
    }
    forall i, j | 0 <= i < j < |z| ensures z[i].message.id != z[j].message.id {
      assert both[|list| + i].id != both[|list| + j].id;
    }
    forall m, e | m in list && e in z ensures m.id != e.message.id {
      var i :| 0 <= i < |list| && list[i] == m;
      var j :| 0 <= j < |z| && z[j] == e;
      assert both[i].id != both[|list| + j].id;
    }
  }

  lemma OnceIsDistinct(s: seq<Message>)
    requires Once(multiset(s))
    ensures Distinct(s)
  {
    forall i, j | 0 <= i < j < |s| ensures s[i] != s[j] {
      assert s == s[..j] + [s[j]] + s[j + 1..];
      assert s[i] in s[..j];
      assert multiset(s)[s[j]] <= 1;
    }
  }

  // ---------------------------------------------------------------- the client

  class HTTPQueueClient {
    const queue: RedisQueue
    const consumerGroup: string
    const consumerID: string

    constructor (queue: RedisQueue, consumerGroup: string, consumerID: string)
      ensures this.queue == queue && this.consumerGroup == consumerGroup && this.consumerID == consumerID
    {
      this.queue, this.consumerGroup, this.consumerID := queue, consumerGroup, consumerID;
    }

    /** One iteration of the polling loop; `handled[i]` is the handler's verdict on the i-th message. */
    method Poll(topic: string, replies: seq<Reply>, handled: seq<bool>) returns (fetched: seq<Message>, sent: seq<Request>)
      requires |replies| == PREFETCH_COUNT <= |handled|
      modifies queue
      ensures queue.Stores() == Polled(queue.config, old(queue.Stores()), Job(topic, consumerGroup, consumerID), replies, handled)
      ensures |sent| == |fetched| <= |handled|
      ensures forall i :: 0 <= i < |sent| ==> sent[i] == if handled[i] then SendAck(fetched[i].id) else SendNack(fetched[i].id)
      ensures
        var out := Fetch(queue.config, old(queue.Stores()), Job(topic, consumerGroup, consumerID), replies).1;
        fetched == if out.Fetched? then out.messages else []
    {
      var outcome := queue.FetchBatch(topic, consumerGroup, consumerID, PREFETCH_COUNT, replies);
      if outcome.Panicked? {
        return [], [];
      }
      fetched := outcome.messages;
      sent := Answer(topic, fetched, handled);
    }

    /** The loop over a batch: one request per message, in batch order. */
    method Answer(topic: string, fetched: seq<Message>, handled: seq<bool>) returns (sent: seq<Request>)
      requires |fetched| <= |handled|
      modifies queue
      ensures queue.Stores() == Settle(old(queue.Stores()), topic, consumerGroup, fetched, handled)
      ensures |sent| == |fetched|
      ensures forall i :: 0 <= i < |sent| ==> sent[i] == if handled[i] then SendAck(fetched[i].id) else SendNack(fetched[i].id)
    {
      sent := [];
      ghost var before := queue.Stores();
      for i := 0 to |fetched|
        invariant |sent| == i && forall k :: 0 <= k < i ==> sent[k] == RequestFor(fetched[k], handled[k])
        invariant Settle(before, topic, consumerGroup, fetched, handled)
               == Settle(queue.Stores(), topic, consumerGroup, fetched[i..], handled[i..])
      {
        var msg := fetched[i];
        SettleHead(queue.Stores(), topic, consumerGroup, fetched, handled, i);
        // A request that fails is only logged.
        if handled[i] {
          var acked := queue.Ack(topic, consumerGroup, msg.id);
        } else {
          var nacked := queue.Nack(topic, consumerGroup, msg.id);
        }
        sent := sent + [RequestFor(msg, handled[i])];
      }
    }
  }

  /** When polling dies: exactly if an iteration finds the list empty. Every listed message is then left pending
      with no request ever sent for it. While no BRPOP or ZADD fails, that is whenever fewer than 500 messages are
      listed. */
  lemma PollNeedsAFullBatch(c: Config, st: Store, job: Job, replies: seq<Reply>, handled: seq<bool>)
    requires Routed(st, job.topic) && |replies| == PREFETCH_COUNT <= |handled|
    ensures Fetch(c, st, job, replies).1.Panicked? <==> RunsDry(List(st, job.topic), Cut(replies))
    ensures Fetch(c, st, job, replies).1.Panicked? ==>
      var st' := Polled(c, st, job, replies, handled);
      && List(st', job.topic) == []
      && forall m :: m in List(st, job.topic) ==>
           exists e :: e in Pel(st', PelKey(job.topic, job.group)) && e.message == m && e.consumer == job.consumer
    ensures (forall i :: 0 <= i < |replies| ==> replies[i].Answer? && replies[i].pended) ==>
      (Fetch(c, st, job, replies).1.Fetched? <==> |List(st, job.topic)| >= 500)
  {
    FetchStopsAtError(c, st, job, replies);
    FetchExactly(c, st, job, Cut(replies));
    if Fetch(c, st, job, replies).1.Panicked? {
      DiedWithAllPending(c, st, job, replies);
    }
    if forall i :: 0 <= i < |replies| ==> replies[i].Answer? && replies[i].pended {
      FullBatch(c, st, job, replies);
    }
  }

  lemma DiedWithAllPending(c: Config, st: Store, job: Job, replies: seq<Reply>)
    requires Routed(st, job.topic) && Fetch(c, st, job, replies).1.Panicked?
    ensures
      var st' := Fetch(c, st, job, replies).0;
      && List(st', job.topic) == []
      && forall m :: m in List(st, job.topic) ==>
           exists e :: e in Pel(st', PelKey(job.topic, job.group)) && e.message == m && e.consumer == job.consumer
  {
    var list, answers, st' := List(st, job.topic), Cut(replies), Fetch(c, st, job, replies).0;
    FetchStopsAtError(c, st, job, replies);
    FetchExactly(c, st, job, answers);
    PendTimesFront(answers);
    assert Moves(list, answers) == |list|;
    var batch := LastPopped(list, |list|);
    var es := NewEntries(c, job, batch, PendTimes(answers));
    forall m | m in list
      ensures exists e :: e in Pel(st', PelKey(job.topic, job.group)) && e.message == m && e.consumer == job.consumer
    {
      var i :| 0 <= i < |list| && list[i] == m;
      assert batch[|list| - 1 - i] == m;
      assert es[|list| - 1 - i] in es;
    }
  }

  lemma {:induction false} PendTimesFront(answers: seq<Reply>)
    requires answers != []
    ensures |PendTimes(answers[..|answers| - 1])| <= |PendTimes(answers)|
  {
    if |answers| > 1 {
      assert answers[..|answers| - 1][1..] == answers[1..][..|answers| - 2];
      PendTimesFront(answers[1..]);
    }
  }
}
