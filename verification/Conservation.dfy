/** With calls made one after the other, every published message is in exactly one place: a list, a pending
    set, the dead letter slice, or the acknowledged messages. */
module Conservation {
  import opened Messages
  import opened RedisStore
  import opened DeliveryMachine
  import opened WholeOperations

  function Bag(z: seq<PendingEntry>): multiset<Message> {
    multiset(MessagesOf(z))
  }

  // Multiset arithmetic, element by element.

  lemma Beside(a': multiset<Message>, a: multiset<Message>, b: multiset<Message>, d: multiset<Message>,
               x: multiset<Message>, y: multiset<Message>)
    requires a' + x == a + y
    ensures (a' + b + d) + x == (a + b + d) + y
    ensures (b + a' + d) + x == (b + a + d) + y
    ensures (b + d + a') + x == (b + d + a) + y
  {
    forall m ensures a'[m] + x[m] == a[m] + y[m] {
      assert (a' + x)[m] == (a + y)[m];
    }
  }

  /** The total after replacing a part `x` by a part `y` that is larger by `e`. */
  lemma Grown(t': multiset<Message>, t: multiset<Message>, x: multiset<Message>, y: multiset<Message>, e: multiset<Message>)
    requires t' + x == t + y && y == x + e
    ensures t' == t + e
  {
    forall m ensures t'[m] == (t + e)[m] {
      assert (t' + x)[m] == (t + y)[m];
    }
  }

  /** The messages held by a family of sequences, with multiplicity. */
  ghost function Sum(f: map<string, seq<Message>>): multiset<Message> {
    if f == map[] then multiset{}
    else
      var k :| k in f;
      multiset(f[k]) + Sum(f - {k})
  }

  lemma {:induction false} SumSplit(f: map<string, seq<Message>>, k: string)
    requires k in f
    ensures Sum(f) == multiset(f[k]) + Sum(f - {k})
  {
    var j :| j in f && Sum(f) == multiset(f[j]) + Sum(f - {j});
    if j != k {
      SumSplit(f - {j}, k);
      SumSplit(f - {k}, j);
      assert (f - {j}) - {k} == (f - {k}) - {j};
    }
  }

  lemma SumUpdate(f: map<string, seq<Message>>, k: string, s: seq<Message>)
    ensures Sum(f[k := s]) + multiset(if k in f then f[k] else []) == Sum(f) + multiset(s)
  {
    SumSplit(f[k := s], k);
    if k in f {
      SumSplit(f, k);
      assert f[k := s] - {k} == f - {k};
    } else {
      assert f[k := s] - {k} == f;
    }
  }

  ghost function PelMessages(pels: map<string, seq<PendingEntry>>): map<string, seq<Message>> {
    map k | k in pels :: MessagesOf(pels[k])
  }

  /** Every message in the three stores, with multiplicity. */
  ghost function Total(st: Store): multiset<Message> {
    Sum(st.lists) + Sum(PelMessages(st.pels)) + Bag(st.dead)
  }

  ghost predicate Once(b: multiset<Message>) {
    forall m :: b[m] <= 1
  }

  lemma ListUpdate(st: Store, t: string, s: seq<Message>)
    ensures Total(st.(lists := st.lists[t := s])) + multiset(List(st, t)) == Total(st) + multiset(s)
  {
    SumUpdate(st.lists, t, s);
    Beside(Sum(st.lists[t := s]), Sum(st.lists), Sum(PelMessages(st.pels)), Bag(st.dead),
           multiset(List(st, t)), multiset(s));
  }

  lemma PelUpdate(st: Store, k: string, z: seq<PendingEntry>)
    ensures Total(st.(pels := st.pels[k := z])) + Bag(Pel(st, k)) == Total(st) + Bag(z)
  {
    var pm := PelMessages(st.pels);
    SumUpdate(pm, k, MessagesOf(z));
    assert PelMessages(st.pels[k := z]) == pm[k := MessagesOf(z)];
    assert MessagesOf([]) == [];
    Beside(Sum(pm[k := MessagesOf(z)]), Sum(pm), Sum(st.lists), Bag(st.dead), Bag(Pel(st, k)), Bag(z));
  }

  lemma BagCons(e: PendingEntry, z: seq<PendingEntry>)
    ensures Bag([e] + z) == multiset{e.message} + Bag(z)
  {
    assert MessagesOf([e] + z) == [e.message] + MessagesOf(z);
  }

  lemma BagSnoc(z: seq<PendingEntry>, e: PendingEntry)
    ensures Bag(z + [e]) == Bag(z) + multiset{e.message}
  {
    assert MessagesOf(z + [e]) == MessagesOf(z) + [e.message];
  }

  lemma {:induction false} BagPlaced(z: seq<PendingEntry>, e: PendingEntry)
    ensures Bag(Placed(z, e)) == Bag(z) + multiset{e.message}
  {
    if z == [] {
      BagCons(e, []);
      assert [e] + [] == [e];
    } else {
      assert z == [z[0]] + z[1..];
      BagCons(z[0], z[1..]);
      if Precedes(e, z[0]) {
        BagCons(e, z);
      } else {
        BagPlaced(z[1..], e);
        BagCons(z[0], Placed(z[1..], e));
      }
    }
  }

  lemma BagTail(z: seq<PendingEntry>)
    requires z != [] && Once(Bag(z))
    ensures Once(Bag(z[1..])) && z[0].message !in Bag(z[1..])
    ensures Bag(z) == multiset{z[0].message} + Bag(z[1..])
  {
    assert z == [z[0]] + z[1..];
    BagCons(z[0], z[1..]);
    assert Bag(z)[z[0].message] <= 1;
    forall m ensures Bag(z[1..])[m] <= 1 {
      assert Bag(z)[m] <= 1;
    }
  }

  lemma {:induction false} BagRemoved(z: seq<PendingEntry>, e: PendingEntry)
    requires e in z && Once(Bag(z))
    ensures Bag(Removed(z, e)) + multiset{e.message} == Bag(z)
  {
    BagTail(z);
    if z[0] == e {
      if e in z[1..] {
        BagHas(z[1..], e);
      }
      RemovedAbsent(z[1..], e);
    } else {
      assert z == [z[0]] + z[1..];
      BagRemoved(z[1..], e);
      BagCons(z[0], Removed(z[1..], e));
    }
  }

  lemma BagHas(z: seq<PendingEntry>, e: PendingEntry)
    requires e in z
    ensures e.message in Bag(z)
  {
    var i :| 0 <= i < |z| && z[i] == e;
    assert MessagesOf(z)[i] == e.message;
  }

  lemma PelWithin(st: Store, k: string)
    ensures Bag(Pel(st, k)) <= Total(st)
  {
    if k in st.pels {
      SumSplit(PelMessages(st.pels), k);
    } else {
      assert MessagesOf([]) == [];
    }
  }

  lemma ListWithin(st: Store, t: string)
    ensures multiset(List(st, t)) <= Total(st)
  {
    if t in st.lists {
      SumSplit(st.lists, t);
    }
  }

  lemma ListAndPelWithin(st: Store, t: string, k: string)
    ensures multiset(List(st, t)) + Bag(Pel(st, k)) <= Total(st)
  {
    if t in st.lists {
      SumSplit(st.lists, t);
    }
    if k in st.pels {
      SumSplit(PelMessages(st.pels), k);
    }
    assert MessagesOf([]) == [];
    assert multiset(List(st, t)) <= Sum(st.lists);
    assert Bag(Pel(st, k)) <= Sum(PelMessages(st.pels));
  }

  // ---------------------------------------------------------------- the commands

  lemma LPushTotal(st: Store, m: Message)
    ensures Total(LPush(st, m)) == Total(st) + multiset{m}
  {
    ListUpdate(st, m.topic, [m] + List(st, m.topic));
    Grown(Total(LPush(st, m)), Total(st), multiset(List(st, m.topic)), multiset([m] + List(st, m.topic)), multiset{m});
  }

  lemma RPushTotal(st: Store, m: Message)
    ensures Total(RPush(st, m)) == Total(st) + multiset{m}
  {
    ListUpdate(st, m.topic, List(st, m.topic) + [m]);
    Grown(Total(RPush(st, m)), Total(st), multiset(List(st, m.topic)), multiset(List(st, m.topic) + [m]), multiset{m});
  }

  lemma RPopTotal(st: Store, t: string)
    requires List(st, t) != []
    ensures Total(RPop(st, t)) + multiset{Last(st, t)} == Total(st)
  {
    var l := List(st, t);
    ListUpdate(st, t, l[..|l| - 1]);
    assert l == l[..|l| - 1] + [l[|l| - 1]];
    Grown(Total(st), Total(RPop(st, t)), multiset(l[..|l| - 1]), multiset(l), multiset{Last(st, t)});
  }

  lemma ZAddTotal(st: Store, key: string, e: PendingEntry)
    requires e.message !in Total(st)
    ensures Total(ZAdd(st, key, e)) == Total(st) + multiset{e.message}
  {
    PelWithin(st, key);
    if e in Pel(st, key) {
      BagHas(Pel(st, key), e);
      assert false;
    }
    BagPlaced(Pel(st, key), e);
    PelUpdate(st, key, Inserted(Pel(st, key), e));
    Grown(Total(ZAdd(st, key, e)), Total(st), Bag(Pel(st, key)), Bag(Placed(Pel(st, key), e)), multiset{e.message});
  }

  lemma ZRemTotal(st: Store, key: string, e: PendingEntry)
    requires e in Pel(st, key) && Once(Bag(Pel(st, key)))
    ensures Total(ZRem(st, key, e)) + multiset{e.message} == Total(st)
  {
    BagRemoved(Pel(st, key), e);
    PelUpdate(st, key, Removed(Pel(st, key), e));
    Grown(Total(st), Total(ZRem(st, key, e)), Bag(Removed(Pel(st, key), e)), Bag(Pel(st, key)), multiset{e.message});
  }

  lemma DeadTotal(st: Store, e: PendingEntry)
    ensures Total(st.(dead := st.dead + [e])) == Total(st) + multiset{e.message}
  {
    BagSnoc(st.dead, e);
  }

  lemma OnceWithin(a: multiset<Message>, b: multiset<Message>)
    requires a <= b && Once(b)
    ensures Once(a)
  {
    forall m ensures a[m] <= 1 {
      assert b[m] <= 1;
    }
  }

  // ---------------------------------------------------------------- the calls

  lemma {:induction false} FetchConserves(c: Config, st: Store, job: Job, replies: seq<Reply>)
    requires Once(Total(st))
    ensures Total(Fetch(c, st, job, replies).0) == Total(st)
    decreases |replies|
  {
    if replies != [] && !replies[0].PopError? && List(st, job.topic) != [] {
      var m := Last(st, job.topic);
      var st1 := RPop(st, job.topic);
      RPopTotal(st, job.topic);
      if replies[0].pended {
        assert Total(st)[m] <= 1;
        var e := NewEntry(c, job, m, replies[0].now);
        ZAddTotal(st1, PelKey(m.topic, job.group), e);
        FetchConserves(c, ZAdd(st1, PelKey(m.topic, job.group), e), job, replies[1..]);
      } else {
        RPushTotal(st1, m);
        FetchConserves(c, RPush(st1, m), job, replies[1..]);
      }
    }
  }

  lemma ExpireEntryConserves(c: Config, st: Store, key: string, e: PendingEntry)
    requires e in Pel(st, key) && Once(Total(st))
    ensures Total(ExpireEntry(c, st, key, e)) == Total(st)
    ensures Pel(ExpireEntry(c, st, key, e), key) == Removed(Pel(st, key), e)
  {
    PelWithin(st, key);
    OnceWithin(Bag(Pel(st, key)), Total(st));
    if e.deliveryCount >= c.maxRetries {
      BuryConserves(st, key, e);
    } else {
      ZRemTotal(st, key, e);
      RPushTotal(ZRem(st, key, e), e.message);
    }
  }

  lemma BuryConserves(st: Store, key: string, e: PendingEntry)
    requires e in Pel(st, key) && Once(Bag(Pel(st, key)))
    ensures Total(ZRem(st.(dead := st.dead + [e]), key, e)) == Total(st)
  {
    var st1 := st.(dead := st.dead + [e]);
    assert Pel(st1, key) == Pel(st, key);
    DeadTotal(st, e);
    ZRemTotal(st1, key, e);
    var one := multiset{e.message};
    forall m ensures Total(ZRem(st1, key, e))[m] == Total(st)[m] {
      assert (Total(ZRem(st1, key, e)) + one)[m] == (Total(st) + one)[m];
    }
  }

  lemma {:induction false} ExpireEntriesConserves(c: Config, st: Store, key: string, es: seq<PendingEntry>)
    requires Distinct(es) && (forall e :: e in es ==> e in Pel(st, key)) && Once(Total(st))
    ensures Total(ExpireEntries(c, st, key, es)) == Total(st)
    decreases |es|
  {
    if es != [] {
      ExpireEntryConserves(c, st, key, es[0]);
      assert forall e :: e in es[1..] ==> e in es && e != es[0];
      ExpireEntriesConserves(c, ExpireEntry(c, st, key, es[0]), key, es[1..]);
    }
  }

  lemma {:induction false} UpToDistinct(z: seq<PendingEntry>, second: nat)
    requires Once(Bag(z))
    ensures Distinct(UpTo(z, second))
  {
    if z != [] {
      BagTail(z);
      UpToDistinct(z[1..], second);
      forall x | x in z[1..] ensures x != z[0] {
        BagHas(z[1..], x);
      }
    }
  }

  lemma {:induction false} ExpireConserves(c: Config, st: Store, now: nat, keys: seq<string>)
    requires Once(Total(st))
    ensures Total(Expire(c, st, now, keys)) == Total(st)
    decreases |keys|
  {
    if keys != [] {
      var z := Pel(st, keys[0]);
      PelWithin(st, keys[0]);
      OnceWithin(Bag(z), Total(st));
      UpToDistinct(z, Unix(now));
      ExpireEntriesConserves(c, st, keys[0], UpTo(z, Unix(now)));
      ExpireConserves(c, ExpireEntries(c, st, keys[0], UpTo(z, Unix(now))), now, keys[1..]);
    }
  }

  ghost predicate Conserved(v: Service) {
    Total(v.store) + multiset(v.acked) == multiset(v.published)
  }

  lemma DistinctOnce(s: seq<Message>)
    requires Distinct(s)
    ensures Once(multiset(s))
  {
    if s != [] {
      var front, last := s[..|s| - 1], s[|s| - 1];
      DistinctOnce(front);
      assert s == front + [last];
      assert last !in front;
      forall m ensures multiset(s)[m] <= 1 {
        assert multiset(front)[m] <= 1;
      }
    }
  }

  lemma AckConserves(c: Config, v: Service, topic: string, group: string, id: string)
    requires Conserved(v) && Once(Total(v.store))
    ensures Conserved(Perform(c, v, CallAck(topic, group, id)))
  {
    var key := PelKey(topic, group);
    PelWithin(v.store, key);
    OnceWithin(Bag(Pel(v.store, key)), Total(v.store));
    var found := FirstWithId(Pel(v.store, key), id);
    if found.Some? {
      ZRemTotal(v.store, key, found.value);
      var v' := Perform(c, v, CallAck(topic, group, id));
      assert v'.acked == v.acked + [found.value.message] && Total(v'.store) + multiset{found.value.message} == Total(v.store);
    }
  }

  lemma NackTotal(st: Store, topic: string, group: string, id: string)
    requires Once(Total(st))
    ensures Total(Nack(st, topic, group, id).0) == Total(st)
  {
    var key := PelKey(topic, group);
    var found := FirstWithId(Pel(st, key), id);
    if found.Some? {
      PelWithin(st, key);
      OnceWithin(Bag(Pel(st, key)), Total(st));
      var st1 := ZRem(st, key, found.value);
      ZRemTotal(st, key, found.value);
      RPushTotal(st1, found.value.message);
      assert Nack(st, topic, group, id).0 == RPush(st1, found.value.message);
    }
  }

  lemma CallConserves(c: Config, v: Service, call: Call)
    requires Conserved(v) && Distinct(v.published)
    ensures Conserved(Perform(c, v, call))
  {
    DistinctOnce(v.published);
    OnceWithin(Total(v.store), multiset(v.published));
    match call
    case CallPublish(m) => LPushTotal(v.store, m);
    case CallFetch(job, replies) => FetchConserves(c, v.store, job, replies);
    case CallExpire(now, keys) => ExpireConserves(c, v.store, now, keys);
    case CallAck(topic, group, id) => AckConserves(c, v, topic, group, id);
    case CallNack(topic, group, id) => NackTotal(v.store, topic, group, id);
  }

  lemma {:induction false} HistoryGrows(c: Config, v: Service, calls: seq<Call>)
    requires Serves(c, v, calls)
    ensures v.published <= AfterCalls(c, v, calls).published && v.acked <= AfterCalls(c, v, calls).acked
    decreases |calls|
  {
    if calls != [] {
      HistoryGrows(c, Perform(c, v, calls[0]), calls[1..]);
    }
  }

  lemma PrefixDistinct(a: seq<Message>, b: seq<Message>)
    requires a <= b && Distinct(b)
    ensures Distinct(a)
  {
    assert forall i :: 0 <= i < |a| ==> a[i] == b[i];
  }

  lemma {:induction false} CallsConserve(c: Config, v: Service, calls: seq<Call>)
    requires Serves(c, v, calls) && Conserved(v) && Distinct(AfterCalls(c, v, calls).published)
    ensures Conserved(AfterCalls(c, v, calls))
    decreases |calls|
  {
    if calls != [] {
      HistoryGrows(c, v, calls);
      PrefixDistinct(v.published, AfterCalls(c, v, calls).published);
      CallConserves(c, v, calls[0]);
      CallsConserve(c, Perform(c, v, calls[0]), calls[1..]);
    }
  }

  /** Conservation: published is the disjoint union of the lists, the pending sets, the dead letters and
      the acknowledged messages. */
  lemma PublishedIsConserved(c: Config, v: Service)
    requires Attained(c, v) && Distinct(v.published)
    ensures Total(v.store) + multiset(v.acked) == multiset(v.published)
    ensures Once(Total(v.store) + multiset(v.acked))
  {
    var calls :| Serves(c, IDLE, calls) && AfterCalls(c, IDLE, calls) == v;
    assert MessagesOf([]) == [];
    assert Conserved(IDLE);
    CallsConserve(c, IDLE, calls);
    DistinctOnce(v.published);
  }
}
