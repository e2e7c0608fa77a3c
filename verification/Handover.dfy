/** From the queue service to the collector: the client acknowledges what handleMessage accepts without an error, which
    is before anything is stored. */
module Handover {
  import opened Messages
  import opened RedisStore
  import opened DeliveryMachine
  import opened WholeOperations
  import opened FetchAndExpiry
  import opened SerialFinality
  import opened Consumer
  import K = Collector

  /** How handleMessage ends: the message is in the work queue, dropped after five seconds, or the context is done. */
  datatype HandleOutcome = Enqueued | Dropped | ContextDone

  /** Whether handleMessage returns no error: a dropped message is acknowledged too. */
  function Handled(o: HandleOutcome): bool {
    o != ContextDone
  }

  function Verdicts(outcomes: seq<HandleOutcome>): (r: seq<bool>)
    ensures |r| == |outcomes| && forall i :: 0 <= i < |r| ==> r[i] == Handled(outcomes[i])
  {
    seq(|outcomes|, i requires 0 <= i < |outcomes| => Handled(outcomes[i]))
  }

  lemma {:induction false} FailedHas(batch: seq<Message>, handled: seq<bool>, i: nat)
    requires i < |batch| <= |handled| && UniqueIds(batch)
    ensures batch[i] in Failed(batch, handled) <==> !handled[i]
  {
    if i == 0 {
      assert forall m :: m in batch[1..] ==> m != batch[0];
    } else {
      FailedHas(batch[1..], handled[1..], i - 1);
      assert batch[i] != batch[0];
    }
  }

  lemma OutsideBatch(list: seq<Message>, n: nat, i: nat)
    requires i < n <= |list| && UniqueIds(list)
    ensures LastPopped(list, n)[i] !in list[..|list| - n]
  {
    assert LastPopped(list, n)[i] == list[|list| - 1 - i];
  }

  /** After an iteration a message of the batch is in the queue service, listed again, exactly if the context was done
      when it was handled; otherwise it is in neither the list nor the pending set it came from. */
  lemma AfterIteration(c: Config, st: Store, job: Job, replies: seq<Reply>, outcomes: seq<HandleOutcome>, i: nat)
    requires Routed(st, job.topic) && IdsSeparate(st, job) && |replies| <= |outcomes|
    requires Fetch(c, st, job, replies).1.Fetched? && i < |Fetch(c, st, job, replies).1.messages|
    ensures
      var m, st' := Fetch(c, st, job, replies).1.messages[i], Polled(c, st, job, replies, Verdicts(outcomes));
      && (m in List(st', job.topic) <==> outcomes[i] == ContextDone)
      && forall e :: e in Pel(st', PelKey(job.topic, job.group)) ==> e.message != m
  {
    PollExactly(c, st, job, replies, Verdicts(outcomes));
    var list, n := List(st, job.topic), Moves(List(st, job.topic), Cut(replies));
    BatchOfList(list, n);
    FailedHas(LastPopped(list, n), Verdicts(outcomes), i);
    OutsideBatch(list, n, i);
    assert LastPopped(list, n)[i] in list;
  }

  /** Where an acknowledged message is that the collector accepted once: nowhere in the queue service, and unless it
      has been stored or counted as an error, in the work queue or in a worker's hand. */
  lemma AcknowledgedThenWhere(c: Config, st: Store, job: Job, replies: seq<Reply>, outcomes: seq<HandleOutcome>, i: nat,
                              cc: K.Config, s: K.State)
    requires Routed(st, job.topic) && IdsSeparate(st, job) && |replies| <= |outcomes|
    requires Fetch(c, st, job, replies).1.Fetched? && i < |Fetch(c, st, job, replies).1.messages|
    requires outcomes[i] == Enqueued && K.Reachable(cc, s)
    requires multiset(s.accepted)[Fetch(c, st, job, replies).1.messages[i]] == 1
    ensures
      var m, st' := Fetch(c, st, job, replies).1.messages[i], Polled(c, st, job, replies, Verdicts(outcomes));
      && m !in List(st', job.topic) && (forall e :: e in Pel(st', PelKey(job.topic, job.group)) ==> e.message != m)
      && (m !in s.settled <==>
            m in s.queue || exists w :: 0 <= w < |s.workers| && K.InHand(s.workers[w]) == Some(m))
  {
    AfterIteration(c, st, job, replies, outcomes, i);
    K.WhereMessagesAre(cc, s, Fetch(c, st, job, replies).1.messages[i]);
  }

  /** What is acknowledged and lost once Start has returned and every worker has gone: exactly the accepted messages
      still queued. They are never stored nor counted as errors, however the collector runs on. */
  lemma LostAfterAcknowledgement(cc: K.Config, s: K.State, m: Message, acts: seq<K.Action>)
    requires K.Reachable(cc, s) && s.start == K.StartReturned && K.AllExited(s) && K.Runs(cc, s, acts)
    requires multiset(s.accepted)[m] == 1
    ensures m !in K.After(cc, s, acts).settled <==> m in s.queue
  {
    K.WhereMessagesAre(cc, s, m);
    K.NothingAfterExit(cc, s, acts);
    forall w | 0 <= w < |s.workers| ensures K.InHand(s.workers[w]) == None {
      assert s.workers[w].Exited?;
    }
  }
}
