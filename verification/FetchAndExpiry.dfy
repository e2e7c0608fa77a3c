/** Closed forms of FetchBatch and of an expiry pass run without interference: what moves, in what order. */
module FetchAndExpiry {
  import opened Messages
  import opened RedisStore
  import opened DeliveryMachine
  import opened WholeOperations

  // ---------------------------------------------------------------- FetchBatch

  /** The iterations before the first failing BRPOP. */
  function Cut(replies: seq<Reply>): (r: seq<Reply>)
    ensures r <= replies && (forall i :: 0 <= i < |r| ==> r[i].Answer?)
    ensures |r| < |replies| ==> replies[|r|].PopError?
  {
    if replies == [] || replies[0].PopError? then [] else [replies[0]] + Cut(replies[1..])
  }

  /** The clock readings of the iterations whose ZADD succeeds. */
  function PendTimes(answers: seq<Reply>): (r: seq<nat>)
    ensures |r| <= |answers|
  {
    if answers == [] then []
    else (if answers[0].Answer? && answers[0].pended then [answers[0].now] else []) + PendTimes(answers[1..])
  }

  lemma {:induction false} PendTimesAppend(a: seq<Reply>, x: Reply)
    ensures PendTimes(a + [x]) == PendTimes(a) + (if x.Answer? && x.pended then [x.now] else [])
  {
    if a == [] {
      assert [x][1..] == [] && a + [x] == [x];
    } else {
      var head := if a[0].Answer? && a[0].pended then [a[0].now] else [];
      assert (a + [x])[0] == a[0] && (a + [x])[1..] == a[1..] + [x];
      PendTimesAppend(a[1..], x);
      Assoc(head, PendTimes(a[1..]), if x.Answer? && x.pended then [x.now] else []);
    }
  }

  predicate Accepted(r: Reply) {
    r.Answer? && r.pended
  }

  /** The times are the clock readings of exactly the iterations whose ZADD is accepted, in order. */
  lemma {:induction false} PendTimesExactly(answers: seq<Reply>)
    ensures
      var at := Indices(answers, Accepted);
      |PendTimes(answers)| == |at| && forall k :: 0 <= k < |at| ==> PendTimes(answers)[k] == answers[at[k]].now
  {
    if answers != [] {
      var n := |answers| - 1;
      assert answers == answers[..n] + [answers[n]];
      PendTimesExactly(answers[..n]);
      PendTimesAppend(answers[..n], answers[n]);
      IndicesAppend(answers[..n], answers[n], Accepted);
    }
  }

  /** One entry per message, in order. */
  function NewEntries(c: Config, job: Job, ms: seq<Message>, times: seq<nat>): (r: seq<PendingEntry>)
    requires |ms| <= |times|
    ensures |r| == |ms|
  {
    seq(|ms|, i requires 0 <= i < |ms| => NewEntry(c, job, ms[i], times[i]))
  }

  function InsertedAll(z: seq<PendingEntry>, es: seq<PendingEntry>): (r: seq<PendingEntry>)
    ensures forall e :: e in r <==> e in z || e in es
    decreases |es|
  {
    if es == [] then z
    else
      assert es == [es[0]] + es[1..];
      InsertedAll(Inserted(z, es[0]), es[1..])
  }

  /** The last `k` messages of a list, in the order they are popped. */
  function LastPopped(list: seq<Message>, k: nat): (r: seq<Message>)
    requires k <= |list|
    ensures |r| == k
  {
    Reverse(list[|list| - k..])
  }

  ghost predicate Routed(st: Store, t: string) {
    forall m :: m in List(st, t) ==> m.topic == t
  }

  lemma {:induction false} FetchStopsAtError(c: Config, st: Store, job: Job, replies: seq<Reply>)
    ensures Fetch(c, st, job, replies) == Fetch(c, st, job, Cut(replies))
    decreases |replies|
  {
    if replies != [] && replies[0].Answer? && List(st, job.topic) != [] {
      var m, st1 := Last(st, job.topic), RPop(st, job.topic);
      assert Cut(replies)[1..] == Cut(replies[1..]);
      if replies[0].pended {
        FetchStopsAtError(c, ZAdd(st1, PelKey(m.topic, job.group), NewEntry(c, job, m, replies[0].now)), job, replies[1..]);
      } else {
        FetchStopsAtError(c, RPush(st1, m), job, replies[1..]);
      }
    }
  }

  /** How many messages FetchBatch moves: one for each successful ZADD, as long as the list lasts. */
  function Moves(list: seq<Message>, answers: seq<Reply>): (k: nat)
    ensures k <= |list| && k <= |PendTimes(answers)|
  {
    if |PendTimes(answers)| <= |list| then |PendTimes(answers)| else |list|
  }

  /** FetchBatch meets an empty list: its last iteration starts after at least |list| successful ZADDs. */
  predicate RunsDry(list: seq<Message>, answers: seq<Reply>) {
    answers != [] && |PendTimes(answers[..|answers| - 1])| >= |list|
  }

  lemma RunsDryTail(list: seq<Message>, a: Reply, rest: seq<Reply>)
    requires a.Answer? && list != []
    ensures a.pended ==> RunsDry(list, [a] + rest) == RunsDry(list[..|list| - 1], rest)
    ensures !a.pended ==> RunsDry(list, [a] + rest) == RunsDry(list, rest)
  {
    if rest != [] {
      var all := [a] + rest;
      assert all[..|all| - 1] == [a] + rest[..|rest| - 1];
      assert ([a] + rest[..|rest| - 1])[1..] == rest[..|rest| - 1];
    } else {
      assert ([a] + rest)[..0] == [];
    }
  }

  /** What FetchBatch returns and what it leaves in the list. */
  ghost predicate Took(list: seq<Message>, answers: seq<Reply>, list': seq<Message>, out: FetchOutcome) {
    && (out.Panicked? <==> RunsDry(list, answers))
    && (out.Fetched? ==> out.messages == LastPopped(list, Moves(list, answers)))
    && list' == list[..|list| - Moves(list, answers)]
  }

  /** What FetchBatch adds to the pending set: an entry per message moved, stamped at its own clock reading. */
  ghost predicate Pended(c: Config, job: Job, list: seq<Message>, answers: seq<Reply>,
                         z: seq<PendingEntry>, z': seq<PendingEntry>) {
    z' == InsertedAll(z, NewEntries(c, job, LastPopped(list, Moves(list, answers)), PendTimes(answers)))
  }

  ghost predicate RestUntouched(st: Store, st': Store, job: Job) {
    && (forall t :: t != job.topic ==> List(st', t) == List(st, t))
    && (forall k :: k != PelKey(job.topic, job.group) ==> Pel(st', k) == Pel(st, k))
    && st'.dead == st.dead
  }

  /** The result of FetchBatch in closed form, without interference and before any BRPOP error. */
  ghost predicate FetchedExactly(c: Config, st: Store, job: Job, answers: seq<Reply>, r: (Store, FetchOutcome)) {
    var list, key := List(st, job.topic), PelKey(job.topic, job.group);
    && Took(list, answers, List(r.0, job.topic), r.1)
    && Pended(c, job, list, answers, Pel(st, key), Pel(r.0, key))
    && RestUntouched(st, r.0, job)
  }

  lemma LastPoppedCons(list: seq<Message>, k: nat)
    requires 0 < k <= |list|
    ensures LastPopped(list, k) == [list[|list| - 1]] + LastPopped(list[..|list| - 1], k - 1)
  {
  }

  lemma TookOneMore(list: seq<Message>, a: Reply, rest: seq<Reply>, list': seq<Message>, out: FetchOutcome)
    requires list != [] && a.Answer? && a.pended && Took(list[..|list| - 1], rest, list', out)
    ensures Took(list, [a] + rest, list', if out.Panicked? then out else Fetched([list[|list| - 1]] + out.messages))
    ensures Moves(list, [a] + rest) == Moves(list[..|list| - 1], rest) + 1
  {
    assert ([a] + rest)[1..] == rest;
    RunsDryTail(list, a, rest);
    LastPoppedCons(list, Moves(list, [a] + rest));
  }

  lemma PendedOneMore(c: Config, job: Job, list: seq<Message>, a: Reply, rest: seq<Reply>,
                      z: seq<PendingEntry>, z': seq<PendingEntry>)
    requires list != [] && a.Answer? && a.pended
    requires Moves(list, [a] + rest) == Moves(list[..|list| - 1], rest) + 1
    requires Pended(c, job, list[..|list| - 1], rest, Inserted(z, NewEntry(c, job, list[|list| - 1], a.now)), z')
    ensures Pended(c, job, list, [a] + rest, z, z')
  {
    var e, ms := NewEntry(c, job, list[|list| - 1], a.now), LastPopped(list[..|list| - 1], Moves(list[..|list| - 1], rest));
    assert ([a] + rest)[1..] == rest;
    LastPoppedCons(list, Moves(list, [a] + rest));
    var es := NewEntries(c, job, ms, PendTimes(rest));
    assert NewEntries(c, job, [e.message] + ms, [a.now] + PendTimes(rest)) == [e] + es;
    assert ([e] + es)[1..] == es;
  }

  lemma RestAfter(st: Store, e: PendingEntry, st': Store, job: Job)
    requires List(st, job.topic) != []
    requires RestUntouched(ZAdd(RPop(st, job.topic), PelKey(job.topic, job.group), e), st', job)
    ensures RestUntouched(st, st', job)
  {
    var st1 := ZAdd(RPop(st, job.topic), PelKey(job.topic, job.group), e);
    forall t | t != job.topic ensures List(st', t) == List(st, t) {
      assert List(st1, t) == List(st, t);
    }
    forall k | k != PelKey(job.topic, job.group) ensures Pel(st', k) == Pel(st, k) {
      assert Pel(st1, k) == Pel(st, k);
    }
  }

  lemma FetchGoodIteration(c: Config, st: Store, job: Job, a: Reply, rest: seq<Reply>, r: (Store, FetchOutcome))
    requires Routed(st, job.topic) && List(st, job.topic) != [] && a.Answer? && a.pended
    requires
      var e := NewEntry(c, job, Last(st, job.topic), a.now);
      FetchedExactly(c, ZAdd(RPop(st, job.topic), PelKey(job.topic, job.group), e), job, rest, r)
    ensures FetchedExactly(c, st, job, [a] + rest, Prepend([Last(st, job.topic)], r))
  {
    var list, key, e := List(st, job.topic), PelKey(job.topic, job.group), NewEntry(c, job, Last(st, job.topic), a.now);
    var st1 := ZAdd(RPop(st, job.topic), key, e);
    assert List(st1, job.topic) == list[..|list| - 1] && Pel(st1, key) == Inserted(Pel(st, key), e);
    TookOneMore(list, a, rest, List(r.0, job.topic), r.1);
    PendedOneMore(c, job, list, a, rest, Pel(st, key), Pel(r.0, key));
    RestAfter(st, e, r.0, job);
  }

  lemma PendTimesFailed(a: Reply, rest: seq<Reply>)
    requires a.Answer? && !a.pended
    ensures PendTimes([a] + rest) == PendTimes(rest)
  {
    assert ([a] + rest)[1..] == rest;
  }

  lemma FetchFailedIteration(c: Config, st: Store, job: Job, a: Reply, rest: seq<Reply>, r: (Store, FetchOutcome))
    requires List(st, job.topic) != [] && a.Answer? && !a.pended && FetchedExactly(c, st, job, rest, r)
    ensures FetchedExactly(c, st, job, [a] + rest, r)
  {
    PendTimesFailed(a, rest);
    RunsDryTail(List(st, job.topic), a, rest);
  }

  /** Popping a message of the topic and pushing it back changes nothing. */
  lemma PopPushBack(st: Store, t: string)
    requires Routed(st, t) && List(st, t) != []
    ensures RPush(RPop(st, t), Last(st, t)) == st
  {
    var list := List(st, t);
    assert list == list[..|list| - 1] + [list[|list| - 1]];
    assert Last(st, t) in list;
    assert RPush(RPop(st, t), Last(st, t)).lists == st.lists;
  }

  /** FetchBatch without interference: it dies if it meets an empty list; otherwise it returns, in pop
      order, one message per successful ZADD, and the list and the pending set change by exactly those. A
      failed ZADD costs an iteration and nothing else. */
  lemma {:induction false} FetchExactly(c: Config, st: Store, job: Job, answers: seq<Reply>)
    requires Routed(st, job.topic) && forall i :: 0 <= i < |answers| ==> answers[i].Answer?
    ensures FetchedExactly(c, st, job, answers, Fetch(c, st, job, answers))
    decreases |answers|
  {
    var list := List(st, job.topic);
    if answers == [] || list == [] {
      assert list[..|list|] == list;
      assert LastPopped(list, 0) == [];
    } else {
      var m, rest := Last(st, job.topic), answers[1..];
      assert m in list;
      assert answers == [answers[0]] + rest;
      if answers[0].pended {
        var st2 := ZAdd(RPop(st, job.topic), PelKey(m.topic, job.group), NewEntry(c, job, m, answers[0].now));
        FetchExactly(c, st2, job, rest);
        FetchGoodIteration(c, st, job, answers[0], rest, Fetch(c, st2, job, rest));
      } else {
        PopPushBack(st, job.topic);
        FetchExactly(c, st, job, rest);
        FetchFailedIteration(c, st, job, answers[0], rest, Fetch(c, st, job, rest));
      }
    }
  }

  /** With every ZADD succeeding, a fetch of `|answers|` messages returns if and only if the list holds that
      many; it then takes exactly that many off the end of the list, in order. */
  lemma FullBatch(c: Config, st: Store, job: Job, answers: seq<Reply>)
    requires Routed(st, job.topic)
    requires forall i :: 0 <= i < |answers| ==> answers[i].Answer? && answers[i].pended
    ensures
      var list, n := List(st, job.topic), |answers|;
      var (st', out) := Fetch(c, st, job, answers);
      && (out.Fetched? <==> n <= |list|)
      && (out.Fetched? ==> out.messages == LastPopped(list, n) && List(st', job.topic) == list[..|list| - n])
      && (out.Panicked? ==> List(st', job.topic) == [])
  {
    FetchExactly(c, st, job, answers);
    AllPended(answers);
    if answers != [] {
      AllPended(answers[..|answers| - 1]);
    }
  }

  lemma {:induction false} AllPended(answers: seq<Reply>)
    requires forall i :: 0 <= i < |answers| ==> answers[i].Answer? && answers[i].pended
    ensures |PendTimes(answers)| == |answers|
  {
    if answers != [] {
      AllPended(answers[1..]);
    }
  }

  /** The entries a fetch adds, as a multiset, when none of them is pending already. */
  lemma {:induction false} InsertedAllBag(z: seq<PendingEntry>, es: seq<PendingEntry>)
    requires Distinct(es) && forall e :: e in es ==> e !in z
    ensures multiset(InsertedAll(z, es)) == multiset(z) + multiset(es)
    decreases |es|
  {
    if es != [] {
      assert es == [es[0]] + es[1..];
      assert forall e :: e in es[1..] ==> e in es && e != es[0];
      InsertedAllBag(Inserted(z, es[0]), es[1..]);
    }
  }

  // ---------------------------------------------------------------- checkExpiredMessages

  function Retriable(c: Config, es: seq<PendingEntry>): (r: seq<PendingEntry>)
    ensures forall e :: e in r <==> e in es && e.deliveryCount < c.maxRetries
  {
    if es == [] then []
    else
      assert es == [es[0]] + es[1..];
      (if es[0].deliveryCount < c.maxRetries then [es[0]] else []) + Retriable(c, es[1..])
  }

  function Exhausted(c: Config, es: seq<PendingEntry>): (r: seq<PendingEntry>)
    ensures forall e :: e in r <==> e in es && e.deliveryCount >= c.maxRetries
  {
    if es == [] then []
    else
      assert es == [es[0]] + es[1..];
      (if es[0].deliveryCount >= c.maxRetries then [es[0]] else []) + Exhausted(c, es[1..])
  }

  function RemovedAll(z: seq<PendingEntry>, es: seq<PendingEntry>): seq<PendingEntry>
    decreases |es|
  {
    if es == [] then z else RemovedAll(Removed(z, es[0]), es[1..])
  }

  lemma {:induction false} RemovedAllCons(x: PendingEntry, z: seq<PendingEntry>, es: seq<PendingEntry>)
    ensures RemovedAll([x] + z, es) == (if x in es then [] else [x]) + RemovedAll(z, es)
    decreases |es|
  {
    if es != [] {
      assert es == [es[0]] + es[1..];
      assert ([x] + z)[1..] == z;
      if x == es[0] {
        assert Removed([x] + z, es[0]) == Removed(z, es[0]);
      } else {
        assert Removed([x] + z, es[0]) == [x] + Removed(z, es[0]);
        RemovedAllCons(x, Removed(z, es[0]), es[1..]);
      }
    }
  }

  lemma {:induction false} RemovedAllNil(es: seq<PendingEntry>)
    ensures RemovedAll([], es) == []
    decreases |es|
  {
    if es != [] {
      RemovedAllNil(es[1..]);
    }
  }

  /** Removing what UpTo reads, one member at a time, leaves Beyond. */
  lemma {:induction false} RemovingTheExpired(z: seq<PendingEntry>, es: seq<PendingEntry>, second: nat)
    requires forall e :: e in z ==> (e in es <==> Score(e) <= second)
    ensures RemovedAll(z, es) == Beyond(z, second)
  {
    if z == [] {
      RemovedAllNil(es);
    } else {
      assert z == [z[0]] + z[1..];
      RemovedAllCons(z[0], z[1..], es);
      RemovingTheExpired(z[1..], es, second);
    }
  }

  /** What a pass does to a store, given the entries `es` it takes out of the set `key`. */
  ghost predicate Expired(c: Config, st: Store, es: seq<PendingEntry>, st': Store) {
    && (forall t :: List(st', t) == List(st, t) + OnTopic(MessagesOf(Retriable(c, es)), t))
    && st'.dead == st.dead + Exhausted(c, es)
  }

  lemma ExpiredOne(c: Config, st: Store, key: string, e: PendingEntry)
    ensures Expired(c, st, [e], ExpireEntry(c, st, key, e))
  {
    var st' := ExpireEntry(c, st, key, e);
    assert [e][1..] == [];
    assert Retriable(c, []) == [] && Exhausted(c, []) == [];
    if e.deliveryCount < c.maxRetries {
      assert Retriable(c, [e]) == [e];
      assert MessagesOf([e]) == [] + [e.message];
      forall t ensures List(st', t) == List(st, t) + OnTopic(MessagesOf([e]), t) {
        OnTopicAppend([], e.message, t);
      }
    } else {
      assert Retriable(c, [e]) == [];
      assert MessagesOf([]) == [];
      forall t ensures List(st', t) == List(st, t) + OnTopic([], t) {
        assert List(st, t) + [] == List(st, t);
      }
    }
  }

  lemma {:induction false} RetriableConcat(c: Config, a: seq<PendingEntry>, b: seq<PendingEntry>)
    ensures Retriable(c, a + b) == Retriable(c, a) + Retriable(c, b)
  {
    if a == [] {
      assert a + b == b;
    } else {
      assert (a + b)[0] == a[0] && (a + b)[1..] == a[1..] + b;
      RetriableConcat(c, a[1..], b);
      var head := if a[0].deliveryCount < c.maxRetries then [a[0]] else [];
      Assoc(head, Retriable(c, a[1..]), Retriable(c, b));
    }
  }

  lemma {:induction false} ExhaustedConcat(c: Config, a: seq<PendingEntry>, b: seq<PendingEntry>)
    ensures Exhausted(c, a + b) == Exhausted(c, a) + Exhausted(c, b)
  {
    if a == [] {
      assert a + b == b;
    } else {
      assert (a + b)[0] == a[0] && (a + b)[1..] == a[1..] + b;
      ExhaustedConcat(c, a[1..], b);
      var head := if a[0].deliveryCount >= c.maxRetries then [a[0]] else [];
      Assoc(head, Exhausted(c, a[1..]), Exhausted(c, b));
    }
  }

  lemma ListThen(l: seq<Message>, l1: seq<Message>, l2: seq<Message>, a: seq<Message>, b: seq<Message>, t: string)
    requires l1 == l + OnTopic(a, t) && l2 == l1 + OnTopic(b, t)
    ensures l2 == l + OnTopic(a + b, t)
  {
    OnTopicConcat(a, b, t);
    Assoc(l, OnTopic(a, t), OnTopic(b, t));
  }

  lemma MessagesOfConcat(a: seq<PendingEntry>, b: seq<PendingEntry>)
    ensures MessagesOf(a + b) == MessagesOf(a) + MessagesOf(b)
  {
  }

  lemma ExpiredThen(c: Config, st: Store, a: seq<PendingEntry>, st1: Store, b: seq<PendingEntry>, st2: Store)
    requires Expired(c, st, a, st1) && Expired(c, st1, b, st2)
    ensures Expired(c, st, a + b, st2)
  {
    RetriableConcat(c, a, b);
    ExhaustedConcat(c, a, b);
    Assoc(st.dead, Exhausted(c, a), Exhausted(c, b));
    MessagesOfConcat(Retriable(c, a), Retriable(c, b));
    forall t ensures List(st2, t) == List(st, t) + OnTopic(MessagesOf(Retriable(c, a + b)), t) {
      ListThen(List(st, t), List(st1, t), List(st2, t), MessagesOf(Retriable(c, a)), MessagesOf(Retriable(c, b)), t);
    }
  }

  lemma {:induction false} ExpireEntriesExactly(c: Config, st: Store, key: string, es: seq<PendingEntry>)
    ensures
      var st' := ExpireEntries(c, st, key, es);
      && Expired(c, st, es, st')
      && Pel(st', key) == RemovedAll(Pel(st, key), es)
      && forall k :: k != key ==> Pel(st', k) == Pel(st, k)
    decreases |es|
  {
    if es == [] {
      assert MessagesOf([]) == [];
    } else {
      var st1 := ExpireEntry(c, st, key, es[0]);
      ExpiredOne(c, st, key, es[0]);
      ExpireEntriesExactly(c, st1, key, es[1..]);
      assert es == [es[0]] + es[1..];
      ExpiredThen(c, st, [es[0]], st1, es[1..], ExpireEntries(c, st1, key, es[1..]));
      forall k | k != key ensures Pel(ExpireEntries(c, st, key, es), k) == Pel(st, k) {
        assert Pel(st1, k) == Pel(st, k);
      }
    }
  }

  /** All entries a pass takes, set by set in the order of `keys`, in score order within a set. */
  function TakenBy(st: Store, now: nat, keys: seq<string>): seq<PendingEntry> {
    if keys == [] then [] else UpTo(Pel(st, keys[0]), Unix(now)) + TakenBy(st, now, keys[1..])
  }

  lemma {:induction false} TakenByFrame(st: Store, st1: Store, now: nat, keys: seq<string>)
    requires forall k :: k in keys ==> Pel(st1, k) == Pel(st, k)
    ensures TakenBy(st1, now, keys) == TakenBy(st, now, keys)
  {
    if keys != [] {
      TakenByFrame(st, st1, now, keys[1..]);
    }
  }

  /** Sets are taken one after the other, in the order of `keys`. */
  lemma {:induction false} TakenByConcat(st: Store, now: nat, a: seq<string>, b: seq<string>)
    ensures TakenBy(st, now, a + b) == TakenBy(st, now, a) + TakenBy(st, now, b)
  {
    if a == [] {
      assert a + b == b;
    } else {
      assert (a + b)[0] == a[0] && (a + b)[1..] == a[1..] + b;
      TakenByConcat(st, now, a[1..], b);
      Assoc(UpTo(Pel(st, a[0]), Unix(now)), TakenBy(st, now, a[1..]), TakenBy(st, now, b));
    }
  }

  /** The expiry pass as a transformation of the stores: every set keeps exactly its entries beyond the
      pass's second; what was taken and may be retried is appended, in the order taken, at the end of the
      lists that is popped next; the rest is dead-lettered. */
  lemma {:induction false} ExpireExactly(c: Config, st: Store, now: nat, keys: seq<string>)
    requires Distinct(keys)
    ensures
      var st' := Expire(c, st, now, keys);
      && Expired(c, st, TakenBy(st, now, keys), st')
      && (forall k :: k in keys ==> Pel(st', k) == Beyond(Pel(st, k), Unix(now)))
      && (forall k :: k !in keys ==> Pel(st', k) == Pel(st, k))
    decreases |keys|
  {
    if keys == [] {
      assert MessagesOf([]) == [];
    } else {
      var key, rest := keys[0], keys[1..];
      assert keys == [key] + rest;
      assert key !in rest;
      var es := UpTo(Pel(st, key), Unix(now));
      var st1 := ExpireEntries(c, st, key, es);
      ExpireEntriesExactly(c, st, key, es);
      RemovingTheExpired(Pel(st, key), es, Unix(now));
      TakenByFrame(st, st1, now, rest);
      ExpireExactly(c, st1, now, rest);
      var st' := Expire(c, st1, now, rest);
      ExpiredThen(c, st, es, st1, TakenBy(st, now, rest), st');
      forall k | k in keys ensures Pel(st', k) == Beyond(Pel(st, k), Unix(now)) {
        if k != key {
          assert k in rest;
        }
      }
    }
  }

  lemma {:induction false} AllOnTopic(s: seq<Message>, t: string)
    requires forall m :: m in s ==> m.topic == t
    ensures OnTopic(s, t) == s
  {
    if s != [] {
      assert s == s[..|s| - 1] + [s[|s| - 1]];
      AllOnTopic(s[..|s| - 1], t);
    }
  }

  lemma {:induction false} AllRetriable(c: Config, es: seq<PendingEntry>)
    requires forall e :: e in es ==> e.deliveryCount < c.maxRetries
    ensures Retriable(c, es) == es && Exhausted(c, es) == []
  {
    if es != [] {
      assert es == [es[0]] + es[1..];
      AllRetriable(c, es[1..]);
    }
  }

  lemma {:induction false} AllExhausted(c: Config, es: seq<PendingEntry>)
    requires forall e :: e in es ==> e.deliveryCount >= c.maxRetries
    ensures Retriable(c, es) == [] && Exhausted(c, es) == es
  {
    if es != [] {
      assert es == [es[0]] + es[1..];
      AllExhausted(c, es[1..]);
    }
  }

  /** A pass over one pending set: of its expired messages those that may be retried go to the end of the topic's
      list in score order, the others are dead-lettered, and the set keeps the rest. */
  lemma ExpireOneSet(c: Config, st: Store, topic: string, key: string, now: nat)
    requires forall e :: e in Pel(st, key) ==> e.message.topic == topic
    ensures
      var st1, taken := Expire(c, st, now, [key]), UpTo(Pel(st, key), Unix(now));
      && List(st1, topic) == List(st, topic) + MessagesOf(Retriable(c, taken))
      && Pel(st1, key) == Beyond(Pel(st, key), Unix(now))
      && st1.dead == st.dead + Exhausted(c, taken)
  {
    var es := UpTo(Pel(st, key), Unix(now));
    ExpireExactly(c, st, now, [key]);
    assert [key][1..] == [];
    assert TakenBy(st, now, [key]) == es + TakenBy(st, now, []) == es;
    assert key in [key];
    AllOnTopic(MessagesOf(Retriable(c, es)), topic);
  }

  /** As far as both go, `ms` is `first`. */
  ghost predicate ComesFirst(first: seq<Message>, ms: seq<Message>) {
    forall i :: 0 <= i < |first| && i < |ms| ==> ms[i] == first[i]
  }

  lemma LastPoppedBegins(list: seq<Message>, requeued: seq<Message>, k: nat)
    requires k <= |list + requeued|
    ensures ComesFirst(Reverse(requeued), LastPopped(list + requeued, k))
  {
    var whole := list + requeued;
    forall i | 0 <= i < |requeued| && i < k ensures LastPopped(whole, k)[i] == Reverse(requeued)[i] {
      assert whole[|whole| - k..][k - 1 - i] == whole[|whole| - 1 - i];
    }
  }

  /** Whatever a fetch returns, it begins with what was last requeued. */
  lemma RequeuedComeFirst(c: Config, st: Store, job: Job, list: seq<Message>, requeued: seq<Message>, replies: seq<Reply>)
    requires Routed(st, job.topic) && List(st, job.topic) == list + requeued
    ensures
      var out := Fetch(c, st, job, replies).1;
      out.Fetched? ==> ComesFirst(Reverse(requeued), out.messages)
  {
    FetchStopsAtError(c, st, job, replies);
    FetchExactly(c, st, job, Cut(replies));
    LastPoppedBegins(list, requeued, Moves(List(st, job.topic), Cut(replies)));
  }

  /** Expired messages come back at once: after a pass over one pending set, whatever the next fetch returns begins
      with the expired messages that may be retried, in reverse score order, ahead of everything that was
      waiting. */
  lemma ExpiredComeBackReversed(c: Config, st: Store, job: Job, now: nat, replies: seq<Reply>)
    requires Routed(st, job.topic)
    requires forall e :: e in Pel(st, PelKey(job.topic, job.group)) ==> e.message.topic == job.topic
    ensures
      var key := PelKey(job.topic, job.group);
      var retried := MessagesOf(Retriable(c, UpTo(Pel(st, key), Unix(now))));
      var out := Fetch(c, Expire(c, st, now, [key]), job, replies).1;
      out.Fetched? ==> ComesFirst(Reverse(retried), out.messages)
  {
    var key := PelKey(job.topic, job.group);
    ExpireOneSet(c, st, job.topic, key, now);
    var retried, st1 := MessagesOf(Retriable(c, UpTo(Pel(st, key), Unix(now)))), Expire(c, st, now, [key]);
    assert Routed(st1, job.topic);
    RequeuedComeFirst(c, st1, job, List(st, job.topic), retried, replies);
  }
}
