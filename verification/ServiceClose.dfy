/** Closing the queue service: its context is cancelled, every Redis command sent under it fails from then on, and the
    operations still running go through their error paths. */
module ServiceClose {
  import opened Messages
  import opened RedisStore
  import opened DeliveryMachine
  import opened NoLoss
  import opened PendingEntries
  import opened AckFinality

  /** What an action comes to once the context is cancelled. The dead letter slice is in memory and still grows; an
      operation begun now fails at its first command. */
  function Fails(c: Config, s: State, a: Action): State
    requires Enabled(c, s, a)
  {
    match a
    case Publish(_) => s
    case Tick(to) => s.(clock := to)
    case BeginFetch(_, _, _) => s
    case BeginAck(_, _, _, _) => s
    case BeginNack(_, _, _, _) => s
    case BeginSweep(_, _) => s
    case Pop(pid) => Ends(s, pid)
    case PopFails(pid) => Ends(s, pid)
    case FetchReturns(pid) => Ends(s, pid)
    case Stamp(_) => Apply(c, s, a)
    case Pend(pid, _) =>
      var l := s.procs[pid];
      Goes(s, pid, PuttingBack(l.job, l.left, l.entry.message))
    case PushBack(pid) =>
      (match s.procs[pid]
       case PuttingBack(job, left, _) => Goes(s, pid, Fetching(job, left))
       case NackHolding(_) => Ends(s, pid)
       case Reviving(now, keys, key, _, entries) => Goes(s, pid, Expiring(now, keys, key, entries)))
    case AckRemove(pid) => Ends(s, pid)
    case NackRemove(pid) => Ends(s, pid)
    case ReadClock(_) => Apply(c, s, a)
    case ReadKey(pid) => Goes(s, pid, Sweeping(s.procs[pid].now, s.procs[pid].keys[1..]))
    case SweepReturns(pid) => Ends(s, pid)
    case Take(pid) =>
      var l := s.procs[pid];
      var e, rest := l.entries[0], l.entries[1..];
      if e.deliveryCount >= c.maxRetries then
        Goes(s, pid, Burying(l.now, l.keys, l.key, e, rest)).(store := s.store.(dead := s.store.dead + [e]))
      else Goes(s, pid, Reviving(l.now, l.keys, l.key, e, rest))
    case BuryRemove(pid) =>
      var l := s.procs[pid];
      Goes(s, pid, Expiring(l.now, l.keys, l.key, l.entries))
    case KeyDone(_) => Apply(c, s, a)
  }

  ghost predicate RunsClosed(c: Config, s: State, acts: seq<Action>)
    decreases acts
  {
    acts == [] || (Enabled(c, s, acts[0]) && RunsClosed(c, Fails(c, s, acts[0]), acts[1..]))
  }

  ghost function AfterClosed(c: Config, s: State, acts: seq<Action>): State
    requires RunsClosed(c, s, acts)
    decreases acts
  {
    if acts == [] then s else AfterClosed(c, Fails(c, s, acts[0]), acts[1..])
  }

  /** What is left in expiry snapshots may be retried. */
  ghost predicate SnapshotsRetriable(c: Config, s: State) {
    forall pid, e :: pid in s.procs && SnapshotHas(s.procs[pid], e) ==> e.deliveryCount < c.maxRetries
  }

  predicate SnapshotHas(l: Local, e: PendingEntry) {
    (l.Expiring? || l.Burying? || l.Reviving?) && e in l.entries
  }

  lemma TakeFails(c: Config, s: State, pid: nat)
    requires Enabled(c, s, Take(pid)) && SnapshotsRetriable(c, s)
    ensures Fails(c, s, Take(pid)).store == s.store && SnapshotsRetriable(c, Fails(c, s, Take(pid)))
  {
    var es := s.procs[pid].entries;
    assert SnapshotHas(s.procs[pid], es[0]);
    forall e | e in es[1..] ensures e.deliveryCount < c.maxRetries {
      assert SnapshotHas(s.procs[pid], e);
    }
  }

  lemma FailsStep(c: Config, s: State, a: Action)
    requires Enabled(c, s, a) && SnapshotsRetriable(c, s)
    ensures Fails(c, s, a).store == s.store && SnapshotsRetriable(c, Fails(c, s, a))
  {
    if a.Take? {
      TakeFails(c, s, a.pid);
    } else {
      var s' := Fails(c, s, a);
      forall pid, e | pid in s'.procs && SnapshotHas(s'.procs[pid], e) ensures e.deliveryCount < c.maxRetries {
        assert pid in s.procs && SnapshotHas(s.procs[pid], e);
      }
    }
  }

  lemma {:induction false} FailsAlong(c: Config, s: State, acts: seq<Action>)
    requires RunsClosed(c, s, acts) && SnapshotsRetriable(c, s)
    ensures AfterClosed(c, s, acts).store == s.store
    decreases acts
  {
    if acts != [] {
      FailsStep(c, s, acts[0]);
      FailsAlong(c, Fails(c, s, acts[0]), acts[1..]);
    }
  }

  /** The lists and pending sets never change again, whatever the limit, and nothing leaves the dead letters. */
  lemma {:induction false} ClosedStores(c: Config, s: State, acts: seq<Action>)
    requires RunsClosed(c, s, acts)
    ensures
      var st := AfterClosed(c, s, acts).store;
      st.lists == s.store.lists && st.pels == s.store.pels && s.store.dead <= st.dead
    decreases acts
  {
    if acts != [] {
      ClosedStores(c, Fails(c, s, acts[0]), acts[1..]);
    }
  }

  lemma StoredAfterClose(st: Store, st': Store, m: Message)
    requires st'.lists == st.lists && st'.pels == st.pels && st.dead <= st'.dead
    ensures Stored(st', m) <==> Stored(st, m) || Pends(st'.dead, m)
  {
    forall t ensures List(st', t) == List(st, t) { }
    forall k ensures Pel(st', k) == Pel(st, k) { }
    if Pends(st.dead, m) {
      var e :| e in st.dead && e.message == m;
      assert e in st'.dead;
    }
    if k :| Pends(Pel(st, k), m) {
      assert Pends(Pel(st', k), m);
    }
    if k :| Pends(Pel(st', k), m) {
      assert Pends(Pel(st, k), m);
    }
  }

  /** What a Close loses: of the messages published and not acknowledged exactly those that were in no store at that
      moment, each of them in the hands of a running operation, unless an expiry pass still dead-letters it, which
      with two or more retries none does. */
  lemma CloseLosesExactly(c: Config, s: State, acts: seq<Action>, m: Message)
    requires Reachable(c, s) && m in s.published && m !in s.acked && RunsClosed(c, s, acts)
    ensures
      var st := AfterClosed(c, s, acts).store;
      && (!Stored(st, m) <==> !Stored(s.store, m) && !Pends(st.dead, m))
      && (!Stored(s.store, m) ==> Held(s, m))
      && (c.maxRetries > 1 ==> st == s.store)
  {
    ClosedStores(c, s, acts);
    StoredAfterClose(s.store, AfterClosed(c, s, acts).store, m);
    NoMessageIsLost(c, s, m);
    if c.maxRetries > 1 {
      ReachableEntries(c, s);
      forall pid, e | pid in s.procs && SnapshotHas(s.procs[pid], e) ensures e.deliveryCount < c.maxRetries {
        assert LocalOk(c, s.clock, s.procs[pid]);
      }
      FailsAlong(c, s, acts);
    }
  }

  /** Closing does lose messages, in every configuration: one that has just been popped is put nowhere. */
  lemma CloseCanLose(c: Config, m: Message)
    ensures exists s, acts :: (
      && Reachable(c, s) && s.published == [m] && s.acked == {} && RunsClosed(c, s, acts)
      && AfterClosed(c, s, acts).procs == map[] && !Stored(AfterClosed(c, s, acts).store, m))
  {
    var s := PoppedOne(c, m);
    var acts := FetchDies(c, s, m);
    var s' := AfterClosed(c, s, acts);
    forall t ensures m !in List(s'.store, t) {
      assert List(s.store, t) == [];
    }
    forall k ensures !Pends(Pel(s'.store, k), m) {
      assert Pel(s.store, k) == [];
    }
  }

  lemma PoppedOne(c: Config, m: Message) returns (s: State)
    ensures Reachable(c, s) && s.published == [m] && s.acked == {} && s.procs == map[0 := Popped(Job(m.topic, "g", "c"), 0, m)]
    ensures s.store.dead == [] && (forall t :: List(s.store, t) == []) && forall k :: Pel(s.store, k) == []
  {
    var job := Job(m.topic, "g", "c");
    assert Runs(c, INIT, []) && After(c, INIT, []) == INIT;
    var s1 := Apply(c, INIT, Publish(m));
    ReachableStep(c, INIT, Publish(m));
    assert List(s1.store, m.topic) == [m];
    var s2 := Apply(c, s1, BeginFetch(0, job, 1));
    ReachableStep(c, s1, BeginFetch(0, job, 1));
    assert s2.procs == map[0 := Fetching(job, 1)];
    s := Apply(c, s2, Pop(0));
    ReachableStep(c, s2, Pop(0));
    assert s.procs == map[0 := Popped(job, 0, m)];
  }

  /** The fetch goes on with every command failing. */
  lemma FetchDies(c: Config, s: State, m: Message) returns (acts: seq<Action>)
    requires s.procs == map[0 := Popped(Job(m.topic, "g", "c"), 0, m)]
    ensures RunsClosed(c, s, acts) && AfterClosed(c, s, acts).procs == map[] && AfterClosed(c, s, acts).store == s.store
  {
    var job, e := Job(m.topic, "g", "c"), NewEntry(c, Job(m.topic, "g", "c"), m, s.clock);
    var s1 := Fails(c, s, Stamp(0));
    assert s1.procs == map[0 := Stamped(job, 0, e)];
    var s2 := Fails(c, s1, Pend(0, false));
    assert s2.procs == map[0 := PuttingBack(job, 0, m)];
    var s3 := Fails(c, s2, PushBack(0));
    assert s3.procs == map[0 := Fetching(job, 0)];
    var s4 := Fails(c, s3, FetchReturns(0));
    assert s4.procs == map[];
    assert RunsClosed(c, s4, []) && AfterClosed(c, s4, []) == s4;
    ClosedCons(c, s3, FetchReturns(0), []);
    ClosedCons(c, s2, PushBack(0), [FetchReturns(0)] + []);
    ClosedCons(c, s1, Pend(0, false), [PushBack(0)] + ([FetchReturns(0)] + []));
    ClosedCons(c, s, Stamp(0), [Pend(0, false)] + ([PushBack(0)] + ([FetchReturns(0)] + [])));
    acts := [Stamp(0)] + ([Pend(0, false)] + ([PushBack(0)] + ([FetchReturns(0)] + [])));
  }

  lemma ClosedCons(c: Config, s: State, a: Action, rest: seq<Action>)
    requires Enabled(c, s, a) && RunsClosed(c, Fails(c, s, a), rest)
    ensures RunsClosed(c, s, [a] + rest) && AfterClosed(c, s, [a] + rest) == AfterClosed(c, Fails(c, s, a), rest)
  {
    assert ([a] + rest)[0] == a && ([a] + rest)[1..] == rest;
  }
}
