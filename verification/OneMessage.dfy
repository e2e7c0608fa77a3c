/** Runs of the command machine with one message and one operation at a time: the material of every lemma that
    shows something can happen. */
module OneMessage {
  import opened Messages
  import opened RedisStore
  import opened DeliveryMachine
  import opened PendingEntries

  /** Two kinds of run with no refused ZADD: no consumer Nacks, or no expiry pass starts. */
  datatype Kind = NoNack | NoSweep

  predicate Allowed(k: Kind, a: Action) {
    && (a.Pend? ==> a.ok)
    && match k
       case NoNack => !a.BeginNack?
       case NoSweep => !a.BeginSweep?
  }

  predicate AllAllowed(k: Kind, acts: seq<Action>) {
    forall i :: 0 <= i < |acts| ==> Allowed(k, acts[i])
  }

  /** A run of the kind leads from `s` to `s'`. */
  ghost predicate Leads(c: Config, k: Kind, s: State, s': State) {
    exists acts :: Runs(c, s, acts) && After(c, s, acts) == s' && AllAllowed(k, acts)
  }

  lemma LeadsNowhere(c: Config, k: Kind, s: State)
    ensures Leads(c, k, s, s)
  {
    assert Runs(c, s, []) && After(c, s, []) == s;
  }

  lemma LeadsOn(c: Config, k: Kind, s: State, s1: State, s2: State)
    requires Leads(c, k, s, s1) && Leads(c, k, s1, s2)
    ensures Leads(c, k, s, s2)
  {
    var a :| Runs(c, s, a) && After(c, s, a) == s1 && AllAllowed(k, a);
    var b :| Runs(c, s1, b) && After(c, s1, b) == s2 && AllAllowed(k, b);
    RunsConcat(c, s, a, b);
    assert AllAllowed(k, a + b);
  }

  lemma LeadsStep(c: Config, k: Kind, s: State, s1: State, a: Action)
    requires Leads(c, k, s, s1) && Enabled(c, s1, a) && Allowed(k, a)
    ensures Leads(c, k, s, Apply(c, s1, a))
  {
    var s2 := Apply(c, s1, a);
    assert [a][0] == a && [a][1..] == [];
    assert Runs(c, s2, []) && After(c, s2, []) == s2;
    assert Runs(c, s1, [a]) && After(c, s1, [a]) == After(c, s2, []);
    assert AllAllowed(k, [a]);
    assert Leads(c, k, s1, s2);
    LeadsOn(c, k, s, s1, s2);
  }

  lemma LeadsReachable(c: Config, k: Kind, s: State, s': State)
    requires Reachable(c, s) && Leads(c, k, s, s')
    ensures Reachable(c, s')
  {
    var a :| Runs(c, INIT, a) && After(c, INIT, a) == s;
    var b :| Runs(c, s, b) && After(c, s, b) == s' && AllAllowed(k, b);
    RunsConcat(c, INIT, a, b);
  }

  lemma InitReachable(c: Config)
    ensures Reachable(c, INIT)
  {
    assert Runs(c, INIT, []) && After(c, INIT, []) == INIT;
  }

  /** At rest with `m` listed and nothing pending. */
  ghost predicate OnlyListed(s: State, m: Message) {
    s.procs == map[] && List(s.store, m.topic) == [m] && forall k :: Pel(s.store, k) == []
  }

  /** At rest with the entry `e` pending for its topic and `group` and nothing else listed there or pending. */
  ghost predicate OnlyPending(s: State, group: string, e: PendingEntry) {
    && s.procs == map[] && List(s.store, e.message.topic) == []
    && e.group == group && e.deliveryCount == 1
    && Pel(s.store, PelKey(e.message.topic, group)) == [e]
    && (forall k :: k != PelKey(e.message.topic, group) ==> Pel(s.store, k) == [])
  }

  /** `s'` comes after `s` with the deliveries `ms`, nothing published and nothing dead-lettered. */
  ghost predicate DeliversOn(s: State, s': State, ms: seq<Message>) {
    && s'.published == s.published && s'.popped == s.popped + ms
    && s'.clock >= s.clock && s'.store.dead == s.store.dead
  }

  lemma PublishTheOne(c: Config, k: Kind, m: Message, at: nat) returns (s: State)
    ensures Leads(c, k, INIT, s) && OnlyListed(s, m)
    ensures s.popped == [] && s.published == [m] && s.clock == at && s.store.dead == []
  {
    LeadsNowhere(c, k, INIT);
    var s1 := Apply(c, INIT, Tick(at));
    LeadsStep(c, k, INIT, INIT, Tick(at));
    s := Apply(c, s1, Publish(m));
    LeadsStep(c, k, INIT, s1, Publish(m));
  }

  /** A fetch of the one message listed, up to the point where its entry is built. */
  lemma PopTheOne(c: Config, k: Kind, s: State, job: Job, m: Message) returns (s': State)
    requires OnlyListed(s, m) && m.topic == job.topic
    ensures Leads(c, k, s, s')
    ensures s'.procs == map[0 := Stamped(job, 0, NewEntry(c, job, m, s.clock))]
    ensures s'.store == RPop(s.store, job.topic)
    ensures DeliversOn(s, s', [m]) && s'.clock == s.clock
  {
    LeadsNowhere(c, k, s);
    var s1 := Apply(c, s, BeginFetch(0, job, 1));
    LeadsStep(c, k, s, s, BeginFetch(0, job, 1));
    assert s1.procs == map[0 := Fetching(job, 1)];
    var s2 := Apply(c, s1, Pop(0));
    LeadsStep(c, k, s, s1, Pop(0));
    assert s2.procs == map[0 := Popped(job, 0, m)];
    s' := Apply(c, s2, Stamp(0));
    LeadsStep(c, k, s, s2, Stamp(0));
  }

  /** The rest of that fetch. */
  lemma PendTheOne(c: Config, k: Kind, s: State, job: Job, e: PendingEntry) returns (s': State)
    requires s.procs == map[0 := Stamped(job, 0, e)]
    ensures Leads(c, k, s, s')
    ensures s' == s.(procs := map[], store := ZAdd(s.store, PelKey(e.message.topic, job.group), e))
  {
    LeadsNowhere(c, k, s);
    var s1 := Apply(c, s, Pend(0, true));
    LeadsStep(c, k, s, s, Pend(0, true));
    s' := Apply(c, s1, FetchReturns(0));
    LeadsStep(c, k, s, s1, FetchReturns(0));
    assert s'.procs == map[];
  }

  lemma FetchTheOne(c: Config, k: Kind, s: State, job: Job, m: Message) returns (s': State, e: PendingEntry)
    requires OnlyListed(s, m) && m.topic == job.topic
    ensures Leads(c, k, s, s') && OnlyPending(s', job.group, e) && e == NewEntry(c, job, m, s.clock)
    ensures DeliversOn(s, s', [m]) && s'.clock == s.clock
  {
    e := NewEntry(c, job, m, s.clock);
    var s1 := PopTheOne(c, k, s, job, m);
    s' := PendTheOne(c, k, s1, job, e);
    LeadsOn(c, k, s, s1, s');
    forall key ensures Pel(s1.store, key) == [] {
      assert Pel(s.store, key) == [];
    }
    assert Inserted([], e) == [e];
    forall key | key != PelKey(job.topic, job.group) ensures Pel(s'.store, key) == [] {
      assert Pel(s1.store, key) == [];
    }
    assert Pel(s'.store, PelKey(job.topic, job.group)) == [e];
  }

  /** An expiry pass that reads the clock at `late`, up to its read of the one sorted set. */
  lemma StartSweep(c: Config, s: State, key: string, late: nat) returns (s': State)
    requires s.procs == map[] && s.clock <= late && IsKeysReply(s.store, [key])
    ensures Leads(c, NoNack, s, s') && s' == s.(procs := map[0 := Sweeping(late, [key])], clock := late)
  {
    LeadsNowhere(c, NoNack, s);
    var s1 := Apply(c, s, Tick(late));
    LeadsStep(c, NoNack, s, s, Tick(late));
    var s2 := Apply(c, s1, BeginSweep(0, [key]));
    LeadsStep(c, NoNack, s, s1, BeginSweep(0, [key]));
    s' := Apply(c, s2, ReadClock(0));
    LeadsStep(c, NoNack, s, s2, ReadClock(0));
    assert s'.procs == map[0 := Sweeping(late, [key])];
  }

  /** An expiry pass in the second of the one entry's deadline or later, up to the moment it decides about it. */
  lemma SweepTheOne(c: Config, s: State, group: string, e: PendingEntry, late: nat) returns (s': State)
    requires OnlyPending(s, group, e) && s.clock <= late && Score(e) <= Unix(late)
    ensures Leads(c, NoNack, s, s') && DeliversOn(s, s', []) && s'.store == s.store && s'.clock == late
    ensures s'.procs == map[0 := Expiring(late, [], PelKey(e.message.topic, group), [e])]
  {
    var key := PelKey(e.message.topic, group);
    KeyTail(e.message.topic, group);
    assert IsKeysReply(s.store, [key]);
    var s1 := StartSweep(c, s, key, late);
    s' := Apply(c, s1, ReadKey(0));
    LeadsStep(c, NoNack, s, s1, ReadKey(0));
    assert UpTo([e], Unix(late)) == [e];
    assert [key][1..] == [];
    assert s'.procs == map[0 := Expiring(late, [], key, [e])];
  }

  /** The rest of an expiry pass that requeues its one entry. */
  lemma ReviveTheOne(c: Config, s: State, now: nat, key: string, e: PendingEntry) returns (s': State)
    requires e.deliveryCount < c.maxRetries && s.procs == map[0 := Expiring(now, [], key, [e])]
    ensures Leads(c, NoNack, s, s')
    ensures s' == s.(procs := map[], store := RPush(ZRem(s.store, key, e), e.message))
  {
    LeadsNowhere(c, NoNack, s);
    var s1 := Apply(c, s, Take(0));
    LeadsStep(c, NoNack, s, s, Take(0));
    assert [e][1..] == [];
    assert s1.procs == map[0 := Reviving(now, [], key, e, [])];
    var s2 := Apply(c, s1, PushBack(0));
    LeadsStep(c, NoNack, s, s1, PushBack(0));
    assert s2.procs == map[0 := Expiring(now, [], key, [])];
    s' := EndSweep(c, s2, now, key);
    LeadsOn(c, NoNack, s, s2, s');
  }

  lemma EndSweep(c: Config, s: State, now: nat, key: string) returns (s': State)
    requires s.procs == map[0 := Expiring(now, [], key, [])]
    ensures Leads(c, NoNack, s, s') && s' == s.(procs := map[])
  {
    LeadsNowhere(c, NoNack, s);
    var s1 := Apply(c, s, KeyDone(0));
    LeadsStep(c, NoNack, s, s, KeyDone(0));
    assert s1.procs == map[0 := Sweeping(now, [])];
    s' := Apply(c, s1, SweepReturns(0));
    LeadsStep(c, NoNack, s, s1, SweepReturns(0));
    assert s'.procs == map[];
  }

  /** Taking the one entry out of its set and its message back leaves the message listed alone. */
  lemma PutBackTheOne(s: State, s': State, group: string, e: PendingEntry)
    requires OnlyPending(s, group, e) && s'.procs == map[]
    requires s'.store == RPush(ZRem(s.store, PelKey(e.message.topic, group), e), e.message)
    ensures OnlyListed(s', e.message)
  {
    var key := PelKey(e.message.topic, group);
    assert Removed([e], e) == [];
    assert [] + [e.message] == [e.message];
    forall k ensures Pel(s'.store, k) == [] {
      if k != key {
        assert Pel(s.store, k) == [];
      }
    }
  }

  /** The one pending entry expires and its message is listed again. */
  lemma ExpireTheOne(c: Config, s: State, group: string, e: PendingEntry) returns (s': State)
    requires OnlyPending(s, group, e) && c.maxRetries > 1
    ensures Leads(c, NoNack, s, s') && OnlyListed(s', e.message) && DeliversOn(s, s', [])
  {
    var late := s.clock + e.visibleAt;
    SecondsComparison(e.visibleAt, late);
    var s1 := SweepTheOne(c, s, group, e, late);
    s' := ReviveTheOne(c, s1, late, PelKey(e.message.topic, group), e);
    LeadsOn(c, NoNack, s, s1, s');
    PutBackTheOne(s, s', group, e);
  }

  /** The one pending entry is rejected by its consumer and its message is listed again. */
  lemma NackTheOne(c: Config, s: State, group: string, e: PendingEntry) returns (s': State)
    requires OnlyPending(s, group, e)
    ensures Leads(c, NoSweep, s, s') && OnlyListed(s', e.message) && DeliversOn(s, s', [])
  {
    var m, key := e.message, PelKey(e.message.topic, group);
    var nack := BeginNack(0, m.topic, group, m.id);
    assert FirstWithId([e], m.id) == Some(e);
    LeadsNowhere(c, NoSweep, s);
    var s1 := Apply(c, s, nack);
    LeadsStep(c, NoSweep, s, s, nack);
    assert s1.procs == map[0 := Nacking(key, e)];
    s' := FinishNack(c, s1, key, e);
    LeadsOn(c, NoSweep, s, s1, s');
    PutBackTheOne(s, s', group, e);
  }

  lemma FinishNack(c: Config, s: State, key: string, e: PendingEntry) returns (s': State)
    requires s.procs == map[0 := Nacking(key, e)]
    ensures Leads(c, NoSweep, s, s')
    ensures s' == s.(procs := map[], store := RPush(ZRem(s.store, key, e), e.message))
  {
    LeadsNowhere(c, NoSweep, s);
    var s1 := Apply(c, s, NackRemove(0));
    LeadsStep(c, NoSweep, s, s, NackRemove(0));
    assert s1.procs == map[0 := NackHolding(e.message)];
    s' := Apply(c, s1, PushBack(0));
    LeadsStep(c, NoSweep, s, s1, PushBack(0));
    assert s'.procs == map[];
  }

  /** A message fetched at `at`, and an expiry pass at `late` about to take it. */
  lemma ExpiringAt(c: Config, at: nat, late: nat) returns (s: State, e: PendingEntry)
    requires at <= late && Unix(at + c.visibilityTimeout) <= Unix(late)
    ensures Leads(c, NoNack, INIT, s) && Reachable(c, s) && s.clock == late
    ensures e == NewEntry(c, Job("t", "g", "c"), Message("id", "t", ""), at)
    ensures Pel(s.store, PelKey("t", "g")) == [e] && s.published == [e.message]
    ensures s.procs == map[0 := Expiring(late, [], PelKey("t", "g"), [e])]
  {
    var job, m := Job("t", "g", "c"), Message("id", "t", "");
    var s0 := PublishTheOne(c, NoNack, m, at);
    var s1;
    s1, e := FetchTheOne(c, NoNack, s0, job, m);
    LeadsOn(c, NoNack, INIT, s0, s1);
    s := SweepTheOne(c, s1, "g", e, late);
    LeadsOn(c, NoNack, INIT, s1, s);
    InitReachable(c);
    LeadsReachable(c, NoNack, INIT, s);
  }
}
