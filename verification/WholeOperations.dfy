/** Whole calls of the queue service, run without interference, as functions of the stored values; and the
    proof that each of them is one run of the command machine by a single operation. */
module WholeOperations {
  import opened Messages
  import opened RedisStore
  import opened DeliveryMachine

  /** What one iteration of FetchBatch meets: a failing BRPOP, or a clock reading and whether ZADD succeeds. */
  datatype Reply = PopError | Answer(now: nat, pended: bool)

  /** FetchBatch returns a batch, or dies dereferencing the message an empty list did not give. */
  datatype FetchOutcome = Fetched(messages: seq<Message>) | Panicked

  function Prepend(ms: seq<Message>, r: (Store, FetchOutcome)): (Store, FetchOutcome) {
    if r.1.Panicked? then r else (r.0, Fetched(ms + r.1.messages))
  }

  function Fetch(c: Config, st: Store, job: Job, replies: seq<Reply>): (r: (Store, FetchOutcome))
    ensures r.1.Fetched? ==> |r.1.messages| <= |replies|
    decreases |replies|
  {
    if replies == [] || replies[0].PopError? then (st, Fetched([]))
    else if List(st, job.topic) == [] then (st, Panicked)
    else
      var m := Last(st, job.topic);
      var st1 := RPop(st, job.topic);
      if replies[0].pended then
        Prepend([m], Fetch(c, ZAdd(st1, PelKey(m.topic, job.group), NewEntry(c, job, m, replies[0].now)), job, replies[1..]))
      else
        Fetch(c, RPush(st1, m), job, replies[1..])
  }

  /** Ack and Nack: the new store, and whether an entry was found (otherwise the not-found error). */
  function Ack(st: Store, topic: string, group: string, id: string): (Store, bool) {
    match FirstWithId(Pel(st, PelKey(topic, group)), id)
    case None => (st, false)
    case Some(e) => (ZRem(st, PelKey(topic, group), e), true)
  }

  function Nack(st: Store, topic: string, group: string, id: string): (Store, bool) {
    match FirstWithId(Pel(st, PelKey(topic, group)), id)
    case None => (st, false)
    case Some(e) => (RPush(ZRem(st, PelKey(topic, group), e), e.message), true)
  }

  function ExpireEntry(c: Config, st: Store, key: string, e: PendingEntry): Store {
    if e.deliveryCount >= c.maxRetries then ZRem(st.(dead := st.dead + [e]), key, e)
    else RPush(ZRem(st, key, e), e.message)
  }

  function ExpireEntries(c: Config, st: Store, key: string, es: seq<PendingEntry>): Store
    decreases |es|
  {
    if es == [] then st else ExpireEntries(c, ExpireEntry(c, st, key, es[0]), key, es[1..])
  }

  function Expire(c: Config, st: Store, now: nat, keys: seq<string>): Store
    decreases |keys|
  {
    if keys == [] then st
    else Expire(c, ExpireEntries(c, st, keys[0], UpTo(Pel(st, keys[0]), Unix(now))), now, keys[1..])
  }

  // ---------------------------------------------------------------- calls one after the other

  datatype Call =
    | CallPublish(msg: Message)
    | CallFetch(job: Job, replies: seq<Reply>)
    | CallAck(topic: string, group: string, id: string)
    | CallNack(topic: string, group: string, id: string)
    | CallExpire(now: nat, keys: seq<string>)

  /** The service between calls; `published` and `acked` are history. */
  datatype Service = Service(store: Store, clock: nat, published: seq<Message>, acked: seq<Message>)

  const IDLE := Service(EMPTY, 0, [], [])

  /** Clock readings do not run backwards, starting from `clock`. */
  ghost predicate InTime(clock: nat, replies: seq<Reply>)
    decreases |replies|
  {
    replies == [] || (if replies[0].PopError? then InTime(clock, replies[1..])
                      else clock <= replies[0].now && InTime(replies[0].now, replies[1..]))
  }

  /** The clock when the call is over. */
  function LastRead(clock: nat, replies: seq<Reply>): nat
    decreases |replies|
  {
    if replies == [] then clock
    else if replies[0].PopError? then LastRead(clock, replies[1..])
    else LastRead(replies[0].now, replies[1..])
  }

  ghost predicate Possible(v: Service, call: Call) {
    match call
    case CallFetch(_, replies) => InTime(v.clock, replies)
    case CallExpire(now, keys) => v.clock <= now && IsKeysReply(v.store, keys)
    case _ => true
  }

  function Perform(c: Config, v: Service, call: Call): Service {
    match call
    case CallPublish(m) => v.(store := LPush(v.store, m), published := v.published + [m])
    case CallFetch(job, replies) =>
      v.(store := Fetch(c, v.store, job, replies).0, clock := LastRead(v.clock, replies))
    case CallAck(topic, group, id) =>
      (match FirstWithId(Pel(v.store, PelKey(topic, group)), id)
       case None => v
       case Some(e) => v.(store := Ack(v.store, topic, group, id).0, acked := v.acked + [e.message]))
    case CallNack(topic, group, id) => v.(store := Nack(v.store, topic, group, id).0)
    case CallExpire(now, keys) => v.(store := Expire(c, v.store, now, keys), clock := now)
  }

  ghost predicate Serves(c: Config, v: Service, calls: seq<Call>)
    decreases |calls|
  {
    calls == [] || (Possible(v, calls[0]) && Serves(c, Perform(c, v, calls[0]), calls[1..]))
  }

  ghost function AfterCalls(c: Config, v: Service, calls: seq<Call>): Service
    requires Serves(c, v, calls)
    decreases |calls|
  {
    if calls == [] then v else AfterCalls(c, Perform(c, v, calls[0]), calls[1..])
  }

  ghost predicate Attained(c: Config, v: Service) {
    exists calls :: Serves(c, IDLE, calls) && AfterCalls(c, IDLE, calls) == v
  }

  // ---------------------------------------------------------------- calls are machine runs

  /** The machine state between calls that a service stands for. */
  ghost predicate Matches(s: State, v: Service) {
    && s.store == v.store && s.clock <= v.clock && s.procs == map[]
    && s.published == v.published && s.acked == (set m | m in v.acked)
  }

  /** Same state up to the store, the clock and the history of pops. */
  ghost predicate Moved(s: State, s': State, store: Store, procs: map<nat, Local>) {
    && s'.store == store && s'.procs == procs && s'.published == s.published && s'.acked == s.acked
  }

  /** One iteration of FetchBatch that pops a message, command by command. */
  lemma FetchIteration(c: Config, s: State, job: Job, left: nat, r: Reply) returns (s': State)
    requires Reachable(c, s) && s.procs == map[0 := Fetching(job, left)] && left > 0
    requires r.Answer? && s.clock <= r.now && List(s.store, job.topic) != []
    ensures Reachable(c, s') && s'.clock == r.now
    ensures
      var m, st := Last(s.store, job.topic), RPop(s.store, job.topic);
      Moved(s, s', if r.pended then ZAdd(st, PelKey(m.topic, job.group), NewEntry(c, job, m, r.now)) else RPush(st, m),
            map[0 := Fetching(job, left - 1)])
  {
    var m := Last(s.store, job.topic);
    var s1 := PopThenTick(c, s, job, left, r.now);
    var s2 := StampOne(c, s1, job, left - 1, m);
    s' := FinishIteration(c, s2, job, left - 1, NewEntry(c, job, m, r.now), r.pended);
  }

  lemma StampOne(c: Config, s: State, job: Job, left: nat, m: Message) returns (s': State)
    requires Reachable(c, s) && s.procs == map[0 := Popped(job, left, m)]
    ensures Reachable(c, s') && s'.clock == s.clock
    ensures Moved(s, s', s.store, map[0 := Stamped(job, left, NewEntry(c, job, m, s.clock))])
  {
    s' := Apply(c, s, Stamp(0));
    ReachableStep(c, s, Stamp(0));
  }

  lemma PopThenTick(c: Config, s: State, job: Job, left: nat, now: nat) returns (s': State)
    requires Reachable(c, s) && s.procs == map[0 := Fetching(job, left)] && left > 0
    requires s.clock <= now && List(s.store, job.topic) != []
    ensures Reachable(c, s') && s'.clock == now
    ensures Moved(s, s', RPop(s.store, job.topic), map[0 := Popped(job, left - 1, Last(s.store, job.topic))])
  {
    var s1 := Apply(c, s, Pop(0));
    ReachableStep(c, s, Pop(0));
    assert s1.procs == map[0 := Popped(job, left - 1, Last(s.store, job.topic))];
    s' := Apply(c, s1, Tick(now));
    ReachableStep(c, s1, Tick(now));
  }

  lemma FinishIteration(c: Config, s: State, job: Job, left: nat, e: PendingEntry, pended: bool) returns (s': State)
    requires Reachable(c, s) && s.procs == map[0 := Stamped(job, left, e)]
    ensures Reachable(c, s') && s'.clock == s.clock
    ensures Moved(s, s', if pended then ZAdd(s.store, PelKey(e.message.topic, job.group), e) else RPush(s.store, e.message),
                  map[0 := Fetching(job, left)])
  {
    s' := Apply(c, s, Pend(0, pended));
    ReachableStep(c, s, Pend(0, pended));
    if !pended {
      var s1 := s';
      assert s1.procs == map[0 := PuttingBack(job, left, e.message)];
      s' := Apply(c, s1, PushBack(0));
      ReachableStep(c, s1, PushBack(0));
    }
  }

  lemma {:induction false} FetchIsRun(c: Config, s: State, job: Job, replies: seq<Reply>) returns (s': State)
    requires Reachable(c, s) && s.procs == map[0 := Fetching(job, |replies|)] && InTime(s.clock, replies)
    ensures Reachable(c, s') && s'.clock <= LastRead(s.clock, replies)
    ensures Moved(s, s', Fetch(c, s.store, job, replies).0, map[])
    decreases |replies|
  {
    if replies == [] {
      s' := Apply(c, s, FetchReturns(0));
      ReachableStep(c, s, FetchReturns(0));
      assert s'.procs == map[];
    } else if replies[0].PopError? {
      s' := Apply(c, s, PopFails(0));
      ReachableStep(c, s, PopFails(0));
      assert s'.procs == map[];
      LastReadGrows(s.clock, replies);
    } else if List(s.store, job.topic) == [] {
      s' := Apply(c, s, Pop(0));
      ReachableStep(c, s, Pop(0));
      assert s'.procs == map[];
      LastReadGrows(s.clock, replies);
    } else {
      var s1 := FetchIteration(c, s, job, |replies|, replies[0]);
      s' := FetchIsRun(c, s1, job, replies[1..]);
    }
  }

  lemma {:induction false} LastReadGrows(clock: nat, replies: seq<Reply>)
    requires InTime(clock, replies)
    ensures clock <= LastRead(clock, replies)
    decreases |replies|
  {
    if replies != [] {
      LastReadGrows(if replies[0].PopError? then clock else replies[0].now, replies[1..]);
    }
  }

  lemma {:induction false} EntriesAreRun(c: Config, s: State, now: nat, keys: seq<string>, key: string,
                                         es: seq<PendingEntry>) returns (s': State)
    requires Reachable(c, s) && s.procs == map[0 := Expiring(now, keys, key, es)]
    ensures Reachable(c, s') && s'.clock == s.clock
    ensures Moved(s, s', ExpireEntries(c, s.store, key, es), map[0 := Sweeping(now, keys)])
    decreases |es|
  {
    if es == [] {
      s' := Apply(c, s, KeyDone(0));
      ReachableStep(c, s, KeyDone(0));
    } else {
      var s1 := EntryIsRun(c, s, now, keys, key, es);
      s' := EntriesAreRun(c, s1, now, keys, key, es[1..]);
    }
  }

  lemma EntryIsRun(c: Config, s: State, now: nat, keys: seq<string>, key: string, es: seq<PendingEntry>) returns (s': State)
    requires Reachable(c, s) && s.procs == map[0 := Expiring(now, keys, key, es)] && es != []
    ensures Reachable(c, s') && s'.clock == s.clock
    ensures Moved(s, s', ExpireEntry(c, s.store, key, es[0]), map[0 := Expiring(now, keys, key, es[1..])])
  {
    var s1 := Apply(c, s, Take(0));
    ReachableStep(c, s, Take(0));
    if es[0].deliveryCount >= c.maxRetries {
      s' := BuryIsRun(c, s1, now, keys, key, es[0], es[1..]);
    } else {
      s' := ReviveIsRun(c, s1, now, keys, key, es[0], es[1..]);
    }
  }

  lemma BuryIsRun(c: Config, s: State, now: nat, keys: seq<string>, key: string, e: PendingEntry, es: seq<PendingEntry>)
    returns (s': State)
    requires Reachable(c, s) && s.procs == map[0 := Burying(now, keys, key, e, es)]
    ensures Reachable(c, s') && s'.clock == s.clock
    ensures Moved(s, s', ZRem(s.store, key, e), map[0 := Expiring(now, keys, key, es)])
  {
    s' := Apply(c, s, BuryRemove(0));
    ReachableStep(c, s, BuryRemove(0));
  }

  lemma ReviveIsRun(c: Config, s: State, now: nat, keys: seq<string>, key: string, e: PendingEntry, es: seq<PendingEntry>)
    returns (s': State)
    requires Reachable(c, s) && s.procs == map[0 := Reviving(now, keys, key, e, es)]
    ensures Reachable(c, s') && s'.clock == s.clock
    ensures Moved(s, s', RPush(s.store, e.message), map[0 := Expiring(now, keys, key, es)])
  {
    s' := Apply(c, s, PushBack(0));
    ReachableStep(c, s, PushBack(0));
  }

  lemma {:induction false} SweepIsRun(c: Config, s: State, now: nat, keys: seq<string>) returns (s': State)
    requires Reachable(c, s) && s.procs == map[0 := Sweeping(now, keys)]
    ensures Reachable(c, s') && s'.clock == s.clock
    ensures Moved(s, s', Expire(c, s.store, now, keys), map[])
    decreases |keys|
  {
    if keys == [] {
      s' := Apply(c, s, SweepReturns(0));
      ReachableStep(c, s, SweepReturns(0));
      assert s'.procs == map[];
    } else {
      var s1 := Apply(c, s, ReadKey(0));
      ReachableStep(c, s, ReadKey(0));
      var s2 := EntriesAreRun(c, s1, now, keys[1..], keys[0], UpTo(Pel(s.store, keys[0]), Unix(now)));
      s' := SweepIsRun(c, s2, now, keys[1..]);
    }
  }

  lemma StartExpire(c: Config, s: State, now: nat, keys: seq<string>) returns (s': State)
    requires Reachable(c, s) && s.procs == map[] && s.clock <= now && IsKeysReply(s.store, keys)
    ensures Reachable(c, s') && s'.clock == now
    ensures Moved(s, s', s.store, map[0 := Sweeping(now, keys)])
  {
    var s1 := Apply(c, s, BeginSweep(0, keys));
    ReachableStep(c, s, BeginSweep(0, keys));
    var s2 := Apply(c, s1, Tick(now));
    ReachableStep(c, s1, Tick(now));
    assert s2.procs == map[0 := Listed(keys)];
    s' := Apply(c, s2, ReadClock(0));
    ReachableStep(c, s2, ReadClock(0));
  }

  lemma AckIsRun(c: Config, s: State, v: Service, topic: string, group: string, id: string) returns (s': State)
    requires Reachable(c, s) && Matches(s, v)
    ensures Reachable(c, s') && Matches(s', Perform(c, v, CallAck(topic, group, id)))
  {
    s' := Apply(c, s, BeginAck(0, topic, group, id));
    ReachableStep(c, s, BeginAck(0, topic, group, id));
    match FirstWithId(Pel(s.store, PelKey(topic, group)), id)
    case None =>
    case Some(e) =>
      var s1 := s';
      assert s1.procs == map[0 := Acking(PelKey(topic, group), e)];
      s' := Apply(c, s1, AckRemove(0));
      ReachableStep(c, s1, AckRemove(0));
      assert s'.procs == map[];
      assert (set m | m in v.acked + [e.message]) == (set m | m in v.acked) + {e.message};
  }

  lemma NackIsRun(c: Config, s: State, v: Service, topic: string, group: string, id: string) returns (s': State)
    requires Reachable(c, s) && Matches(s, v)
    ensures Reachable(c, s') && Matches(s', Perform(c, v, CallNack(topic, group, id)))
  {
    s' := Apply(c, s, BeginNack(0, topic, group, id));
    ReachableStep(c, s, BeginNack(0, topic, group, id));
    match FirstWithId(Pel(s.store, PelKey(topic, group)), id)
    case None =>
    case Some(e) =>
      assert s'.procs == map[0 := Nacking(PelKey(topic, group), e)];
      s' := FinishNack(c, s', PelKey(topic, group), e);
  }

  lemma FinishNack(c: Config, s: State, key: string, e: PendingEntry) returns (s': State)
    requires Reachable(c, s) && s.procs == map[0 := Nacking(key, e)]
    ensures Reachable(c, s') && s'.clock == s.clock && Moved(s, s', RPush(ZRem(s.store, key, e), e.message), map[])
  {
    var s1 := Apply(c, s, NackRemove(0));
    ReachableStep(c, s, NackRemove(0));
    assert s1.procs == map[0 := NackHolding(e.message)];
    s' := Apply(c, s1, PushBack(0));
    ReachableStep(c, s1, PushBack(0));
    assert s'.procs == map[];
  }

  lemma CallIsRun(c: Config, s: State, v: Service, call: Call) returns (s': State)
    requires Reachable(c, s) && Matches(s, v) && Possible(v, call)
    ensures Reachable(c, s') && Matches(s', Perform(c, v, call))
  {
    match call
    case CallPublish(m) =>
      s' := Apply(c, s, Publish(m));
      ReachableStep(c, s, Publish(m));
    case CallFetch(job, replies) =>
      var s0 := Apply(c, s, Tick(v.clock));
      ReachableStep(c, s, Tick(v.clock));
      var s1 := Apply(c, s0, BeginFetch(0, job, |replies|));
      ReachableStep(c, s0, BeginFetch(0, job, |replies|));
      assert s1.procs == map[0 := Fetching(job, |replies|)];
      s' := FetchIsRun(c, s1, job, replies);
    case CallAck(topic, group, id) => s' := AckIsRun(c, s, v, topic, group, id);
    case CallNack(topic, group, id) => s' := NackIsRun(c, s, v, topic, group, id);
    case CallExpire(now, keys) =>
      var s1 := StartExpire(c, s, now, keys);
      s' := SweepIsRun(c, s1, now, keys);
  }

  lemma {:induction false} CallsAreRun(c: Config, s: State, v: Service, calls: seq<Call>) returns (s': State)
    requires Reachable(c, s) && Matches(s, v) && Serves(c, v, calls)
    ensures Reachable(c, s') && Matches(s', AfterCalls(c, v, calls))
    decreases |calls|
  {
    if calls == [] {
      s' := s;
    } else {
      var s1 := CallIsRun(c, s, v, calls[0]);
      s' := CallsAreRun(c, s1, Perform(c, v, calls[0]), calls[1..]);
    }
  }

  /** Any sequence of whole calls is a run of the command machine: what holds of every interleaving holds
      of calls made one after the other. */
  lemma CallsRefineMachine(c: Config, v: Service)
    requires Attained(c, v)
    ensures exists s :: Reachable(c, s) && Matches(s, v)
  {
    var calls :| Serves(c, IDLE, calls) && AfterCalls(c, IDLE, calls) == v;
    assert Runs(c, INIT, []) && After(c, INIT, []) == INIT;
    var s := CallsAreRun(c, INIT, IDLE, calls);
  }
}
