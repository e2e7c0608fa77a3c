/** The queue service as concurrent operations over Redis. Every action below is one Redis command,
    one clock reading or one local step of an operation, so a run interleaves the commands of any
    number of Publish, FetchBatch, Ack, Nack and checkExpiredMessages calls. */
module DeliveryMachine {
  import opened Messages
  import opened RedisStore

  datatype Config = Config(visibilityTimeout: nat, maxRetries: int)

  /** Who is fetching: the arguments of FetchBatch. */
  datatype Job = Job(topic: string, group: string, consumer: string)

  /** Where a running operation stands, with the values it keeps in local variables. */
  datatype Local =
    | Fetching(job: Job, left: nat)                              // at the head of FetchBatch's loop
    | Popped(job: Job, left: nat, msg: Message)                  // BRPOP done, addToPEL entered
    | Stamped(job: Job, left: nat, entry: PendingEntry)          // entry built, ZADD not yet sent
    | PuttingBack(job: Job, left: nat, msg: Message)             // ZADD failed, RPUSH not yet sent
    | Acking(key: string, entry: PendingEntry)                   // entry found, ZREM not yet sent
    | Nacking(key: string, entry: PendingEntry)
    | NackHolding(msg: Message)                                  // ZREM done, RPUSH not yet sent
    | Listed(keys: seq<string>)                                  // KEYS answered, clock not yet read
    | Sweeping(now: nat, keys: seq<string>)                      // at the head of the loop over keys
    | Expiring(now: nat, keys: seq<string>, key: string, entries: seq<PendingEntry>)
    | Burying(now: nat, keys: seq<string>, key: string, entry: PendingEntry, entries: seq<PendingEntry>)
    | Reviving(now: nat, keys: seq<string>, key: string, entry: PendingEntry, entries: seq<PendingEntry>)

  /** An entry built in addToPEL: from which message, for whom, and the clock reading it was built at. */
  datatype Stamping = Stamping(msg: Message, job: Job, at: nat, entry: PendingEntry)

  /** `published`, `popped`, `acked` and `stampings` are history: the LPUSHes and BRPOPs in order, the messages some
      Ack has sent its ZREM for, and the entries built. */
  datatype State = State(
    store: Store,
    clock: nat,
    procs: map<nat, Local>,
    published: seq<Message>,
    popped: seq<Message>,
    acked: set<Message>,
    stampings: seq<Stamping>)

  const INIT := State(EMPTY, 0, map[], [], [], {}, [])

  datatype Action =
    | Publish(msg: Message)
    | Tick(to: nat)
    | BeginFetch(pid: nat, job: Job, count: nat)
    | Pop(pid: nat)
    | PopFails(pid: nat)
    | Stamp(pid: nat)
    | Pend(pid: nat, ok: bool)
    | PushBack(pid: nat)
    | FetchReturns(pid: nat)
    | BeginAck(pid: nat, topic: string, group: string, id: string)
    | AckRemove(pid: nat)
    | BeginNack(pid: nat, topic: string, group: string, id: string)
    | NackRemove(pid: nat)
    | BeginSweep(pid: nat, keys: seq<string>)
    | ReadClock(pid: nat)
    | ReadKey(pid: nat)
    | Take(pid: nat)
    | BuryRemove(pid: nat)
    | KeyDone(pid: nat)
    | SweepReturns(pid: nat)

  function Goes(s: State, pid: nat, l: Local): State {
    s.(procs := s.procs[pid := l])
  }

  function Ends(s: State, pid: nat): State {
    s.(procs := s.procs - {pid})
  }

  function NewEntry(c: Config, job: Job, m: Message, now: nat): PendingEntry {
    PendingEntry(m, job.group, job.consumer, now + c.visibilityTimeout, 1)
  }

  ghost predicate Enabled(c: Config, s: State, a: Action) {
    match a
    case Publish(_) => true
    case Tick(to) => s.clock <= to
    case BeginFetch(pid, _, _) => pid !in s.procs
    case BeginAck(pid, _, _, _) => pid !in s.procs
    case BeginNack(pid, _, _, _) => pid !in s.procs
    case BeginSweep(pid, keys) => pid !in s.procs && IsKeysReply(s.store, keys)
    case Pop(pid) => pid in s.procs && s.procs[pid].Fetching? && s.procs[pid].left > 0
    case PopFails(pid) => pid in s.procs && s.procs[pid].Fetching? && s.procs[pid].left > 0
    case FetchReturns(pid) => pid in s.procs && s.procs[pid].Fetching? && s.procs[pid].left == 0
    case Stamp(pid) => pid in s.procs && s.procs[pid].Popped?
    case Pend(pid, _) => pid in s.procs && s.procs[pid].Stamped?
    case PushBack(pid) => pid in s.procs &&
      (s.procs[pid].PuttingBack? || s.procs[pid].NackHolding? || s.procs[pid].Reviving?)
    case AckRemove(pid) => pid in s.procs && s.procs[pid].Acking?
    case NackRemove(pid) => pid in s.procs && s.procs[pid].Nacking?
    case ReadClock(pid) => pid in s.procs && s.procs[pid].Listed?
    case ReadKey(pid) => pid in s.procs && s.procs[pid].Sweeping? && s.procs[pid].keys != []
    case SweepReturns(pid) => pid in s.procs && s.procs[pid].Sweeping? && s.procs[pid].keys == []
    case Take(pid) => pid in s.procs && s.procs[pid].Expiring? && s.procs[pid].entries != []
    case KeyDone(pid) => pid in s.procs && s.procs[pid].Expiring? && s.procs[pid].entries == []
    case BuryRemove(pid) => pid in s.procs && s.procs[pid].Burying?
  }

  function Apply(c: Config, s: State, a: Action): State
    requires Enabled(c, s, a)
  {
    match a
    case Publish(m) => s.(store := LPush(s.store, m), published := s.published + [m])
    case Tick(to) => s.(clock := to)
    case BeginFetch(pid, job, count) => Goes(s, pid, Fetching(job, count))
    case Pop(pid) =>
      var l := s.procs[pid];
      // On an empty list popMessage returns no error and no message, and addToPEL dereferences
      // the nil message: the request dies with what it has pended so far.
      if List(s.store, l.job.topic) == [] then Ends(s, pid)
      else
        var m := Last(s.store, l.job.topic);
        Goes(s, pid, Popped(l.job, l.left - 1, m))
          .(store := RPop(s.store, l.job.topic), popped := s.popped + [m])
    case PopFails(pid) => Ends(s, pid)
    case FetchReturns(pid) => Ends(s, pid)
    case Stamp(pid) =>
      var l := s.procs[pid];
      var e := NewEntry(c, l.job, l.msg, s.clock);
      Goes(s, pid, Stamped(l.job, l.left, e)).(stampings := s.stampings + [Stamping(l.msg, l.job, s.clock, e)])
    case Pend(pid, ok) =>
      var l := s.procs[pid];
      if ok then
        Goes(s, pid, Fetching(l.job, l.left))
          .(store := ZAdd(s.store, PelKey(l.entry.message.topic, l.job.group), l.entry))
      else Goes(s, pid, PuttingBack(l.job, l.left, l.entry.message))
    case PushBack(pid) =>
      (match s.procs[pid]
       case PuttingBack(job, left, m) => Goes(s, pid, Fetching(job, left)).(store := RPush(s.store, m))
       case NackHolding(m) => Ends(s, pid).(store := RPush(s.store, m))
       case Reviving(now, keys, key, e, entries) =>
         Goes(s, pid, Expiring(now, keys, key, entries)).(store := RPush(s.store, e.message)))
    case BeginAck(pid, topic, group, id) =>
      (match FirstWithId(Pel(s.store, PelKey(topic, group)), id)
       case None => s
       case Some(e) => Goes(s, pid, Acking(PelKey(topic, group), e)))
    case AckRemove(pid) =>
      var l := s.procs[pid];
      Ends(s, pid).(store := ZRem(s.store, l.key, l.entry), acked := s.acked + {l.entry.message})
    case BeginNack(pid, topic, group, id) =>
      (match FirstWithId(Pel(s.store, PelKey(topic, group)), id)
       case None => s
       case Some(e) => Goes(s, pid, Nacking(PelKey(topic, group), e)))
    case NackRemove(pid) =>
      var l := s.procs[pid];
      Goes(s, pid, NackHolding(l.entry.message)).(store := ZRem(s.store, l.key, l.entry))
    case BeginSweep(pid, keys) => Goes(s, pid, Listed(keys))
    case ReadClock(pid) => Goes(s, pid, Sweeping(s.clock, s.procs[pid].keys))
    case ReadKey(pid) =>
      var l := s.procs[pid];
      Goes(s, pid, Expiring(l.now, l.keys[1..], l.keys[0], UpTo(Pel(s.store, l.keys[0]), Unix(l.now))))
    case SweepReturns(pid) => Ends(s, pid)
    case Take(pid) =>
      var l := s.procs[pid];
      var e, rest := l.entries[0], l.entries[1..];
      if e.deliveryCount >= c.maxRetries then
        Goes(s, pid, Burying(l.now, l.keys, l.key, e, rest)).(store := s.store.(dead := s.store.dead + [e]))
      else
        // The count is incremented on a local copy only; the message alone is pushed back.
        Goes(s, pid, Reviving(l.now, l.keys, l.key, e, rest)).(store := ZRem(s.store, l.key, e))
    case BuryRemove(pid) =>
      var l := s.procs[pid];
      Goes(s, pid, Expiring(l.now, l.keys, l.key, l.entries)).(store := ZRem(s.store, l.key, l.entry))
    case KeyDone(pid) => Goes(s, pid, Sweeping(s.procs[pid].now, s.procs[pid].keys))
  }

  ghost predicate Runs(c: Config, s: State, acts: seq<Action>)
    decreases acts
  {
    acts == [] || (Enabled(c, s, acts[0]) && Runs(c, Apply(c, s, acts[0]), acts[1..]))
  }

  ghost function After(c: Config, s: State, acts: seq<Action>): State
    requires Runs(c, s, acts)
    decreases acts
  {
    if acts == [] then s else After(c, Apply(c, s, acts[0]), acts[1..])
  }

  ghost predicate Reachable(c: Config, s: State) {
    exists acts :: Runs(c, INIT, acts) && After(c, INIT, acts) == s
  }

  lemma {:induction false} RunsConcat(c: Config, s: State, a: seq<Action>, b: seq<Action>)
    requires Runs(c, s, a) && Runs(c, After(c, s, a), b)
    ensures Runs(c, s, a + b) && After(c, s, a + b) == After(c, After(c, s, a), b)
    decreases a
  {
    if a == [] {
      assert a + b == b;
    } else {
      RunsConcat(c, Apply(c, s, a[0]), a[1..], b);
      assert (a + b)[0] == a[0] && (a + b)[1..] == a[1..] + b;
    }
  }

  lemma ReachableStep(c: Config, s: State, a: Action)
    requires Reachable(c, s) && Enabled(c, s, a)
    ensures Reachable(c, Apply(c, s, a))
  {
    var acts :| Runs(c, INIT, acts) && After(c, INIT, acts) == s;
    var s' := Apply(c, s, a);
    assert [a][0] == a && [a][1..] == [];
    assert Runs(c, s', []) && After(c, s', []) == s';
    assert Runs(c, s, [a]) && After(c, s, [a]) == After(c, s', []);
    RunsConcat(c, INIT, acts, [a]);
  }
}
