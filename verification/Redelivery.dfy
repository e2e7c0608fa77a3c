/** How often a message is delivered, when an expiry pass may take it, and what the retry limit does about it. */
module Redelivery {
  import opened Messages
  import opened RedisStore
  import opened DeliveryMachine
  import opened NoLoss
  import opened DeliveryOrder
  import opened PendingEntries
  import opened Stampings
  import opened OneMessage

  // ---------------------------------------------------------------- deliveries are accounted for

  function Count<T(==)>(s: seq<T>, x: T): nat {
    multiset(s)[x]
  }

  /** The messages a run puts back at the popping end of their lists, in order. */
  ghost function PutBacks(c: Config, s: State, acts: seq<Action>): seq<Message>
    requires Runs(c, s, acts)
    decreases acts
  {
    if acts == [] then []
    else
      (if acts[0].PushBack? then [InHand(s.procs[acts[0].pid]).value] else [])
      + PutBacks(c, Apply(c, s, acts[0]), acts[1..])
  }

  /** How many more times `m` was listed or delivered than published. */
  ghost function Surplus(s: State, m: Message): int {
    Count(s.popped, m) + Count(List(s.store, m.topic), m) - Count(s.published, m)
  }

  lemma PopSurplus(c: Config, s: State, pid: nat, m: Message)
    requires Enabled(c, s, Pop(pid)) && ListsRouted(s)
    ensures Surplus(Apply(c, s, Pop(pid)), m) == Surplus(s, m)
  {
    var t := s.procs[pid].job.topic;
    var list := List(s.store, t);
    if list != [] {
      assert list == list[..|list| - 1] + [Last(s.store, t)];
      assert Last(s.store, t) in list;
    }
  }

  lemma PublishSurplus(c: Config, s: State, x: Message, m: Message)
    ensures Surplus(Apply(c, s, Publish(x)), m) == Surplus(s, m)
  {
    var s' := Apply(c, s, Publish(x));
    assert s'.popped == s.popped;
    if x.topic == m.topic {
      assert List(s'.store, m.topic) == [x] + List(s.store, m.topic);
    }
  }

  lemma PushBackSurplus(c: Config, s: State, pid: nat, m: Message)
    requires Enabled(c, s, PushBack(pid))
    ensures Surplus(Apply(c, s, PushBack(pid)), m) == Surplus(s, m) + if InHand(s.procs[pid]) == Some(m) then 1 else 0
  {
    var s', x := Apply(c, s, PushBack(pid)), InHand(s.procs[pid]).value;
    assert s'.popped == s.popped && s'.published == s.published;
    assert s'.store == RPush(s.store, x);
    if x.topic == m.topic {
      assert List(s'.store, m.topic) == List(s.store, m.topic) + [x];
    }
  }

  lemma SurplusStep(c: Config, s: State, a: Action, m: Message)
    requires Enabled(c, s, a) && ListsRouted(s)
    ensures Surplus(Apply(c, s, a), m)
         == Surplus(s, m) + if a.PushBack? && InHand(s.procs[a.pid]) == Some(m) then 1 else 0
  {
    match a
    case Pop(pid) => PopSurplus(c, s, pid, m);
    case Publish(x) => PublishSurplus(c, s, x, m);
    case PushBack(pid) => PushBackSurplus(c, s, pid, m);
    case _ => OtherActions(c, s, a);
  }

  lemma PutBacksHead(c: Config, s: State, acts: seq<Action>, m: Message)
    requires Runs(c, s, acts) && acts != []
    ensures Count(PutBacks(c, s, acts), m)
         == (if acts[0].PushBack? && InHand(s.procs[acts[0].pid]) == Some(m) then 1 else 0)
            + Count(PutBacks(c, Apply(c, s, acts[0]), acts[1..]), m)
  {
  }

  lemma {:induction false} SurplusAlong(c: Config, s: State, acts: seq<Action>, m: Message)
    requires Runs(c, s, acts) && ListsRouted(s)
    ensures Surplus(After(c, s, acts), m) == Surplus(s, m) + Count(PutBacks(c, s, acts), m)
    decreases acts
  {
    if acts != [] {
      SurplusStep(c, s, acts[0], m);
      PutBacksHead(c, s, acts, m);
      ListsRoutedStep(c, s, acts[0]);
      SurplusAlong(c, Apply(c, s, acts[0]), acts[1..], m);
    }
  }

  /** In every run every delivery is paid for: a message is delivered once per publish and once per put-back,
      less the times it is still waiting. */
  lemma DeliveriesBalance(c: Config, acts: seq<Action>, m: Message)
    requires Runs(c, INIT, acts)
    ensures
      var s := After(c, INIT, acts);
      Count(s.popped, m) + Count(List(s.store, m.topic), m) == Count(s.published, m) + Count(PutBacks(c, INIT, acts), m)
  {
    SurplusAlong(c, INIT, acts, m);
  }

  // ---------------------------------------------------------------- the retry limit

  /** No operation is about to put a message back. */
  ghost predicate NonePutsBack(s: State) {
    forall pid :: pid in s.procs ==>
      !s.procs[pid].PuttingBack? && !s.procs[pid].Nacking? && !s.procs[pid].NackHolding? && !s.procs[pid].Reviving?
  }

  lemma NonePutsBackStep(c: Config, s: State, a: Action)
    requires Enabled(c, s, a) && Allowed(NoNack, a) && EntriesOk(c, s) && NonePutsBack(s) && c.maxRetries <= 1
    ensures NonePutsBack(Apply(c, s, a)) && !a.PushBack?
  {
    var s' := Apply(c, s, a);
    if a.Take? {
      assert s.procs[a.pid].entries[0] in s.procs[a.pid].entries;
      assert LocalOk(c, s.clock, s.procs[a.pid]);
    }
    forall pid | pid in s'.procs
      ensures !s'.procs[pid].PuttingBack? && !s'.procs[pid].Nacking? && !s'.procs[pid].NackHolding? && !s'.procs[pid].Reviving?
    {
      if Actor(a) != Some(pid) {
        OthersCameAlong(c, s, a, pid);
      }
    }
  }

  lemma {:induction false} NoPutBacksAlong(c: Config, s: State, acts: seq<Action>)
    requires Runs(c, s, acts) && AllAllowed(NoNack, acts) && EntriesOk(c, s) && NonePutsBack(s) && c.maxRetries <= 1
    ensures PutBacks(c, s, acts) == []
    decreases acts
  {
    if acts != [] {
      NonePutsBackStep(c, s, acts[0]);
      EntriesStep(c, s, acts[0]);
      NoPutBacksAlong(c, Apply(c, s, acts[0]), acts[1..]);
    }
  }

  /** While no consumer Nacks and no ZADD is refused, the retry limit keeps a message from being delivered more
      often than it was published if and only if the limit is at most one. */
  lemma RetryLimitHoldsIff(c: Config)
    ensures (forall s, m :: Leads(c, NoNack, INIT, s) ==> Count(s.popped, m) <= Count(s.published, m)) <==> c.maxRetries <= 1
  {
    if c.maxRetries <= 1 {
      forall s, m | Leads(c, NoNack, INIT, s) ensures Count(s.popped, m) <= Count(s.published, m) {
        var acts :| Runs(c, INIT, acts) && After(c, INIT, acts) == s && AllAllowed(NoNack, acts);
        NoPutBacksAlong(c, INIT, acts);
        DeliveriesBalance(c, acts, m);
      }
    } else {
      var m := Message("id", "t", "");
      var s := ExpiredTimes(c, Job("t", "g", "c"), m, 2);
      TimesCount(2, m);
      TimesCount(1, m);
      assert s.published == Times(1, m);
    }
  }

  function Times<T>(n: nat, x: T): seq<T> {
    seq(n, i => x)
  }

  lemma {:induction false} TimesCount<T>(n: nat, x: T)
    ensures Count(Times(n, x), x) == n
  {
    if n > 0 {
      assert Times(n, x) == Times(n - 1, x) + [x];
      TimesCount(n - 1, x);
    }
  }

  /** A calm run delivers some message `n` times after one publish. */
  ghost predicate CalmlyDelivers(c: Config, n: nat) {
    exists s, m :: Leads(c, NoNack, INIT, s) && s.published == [m] && s.popped == Times(n, m)
  }

  /** In such runs one message published once is delivered any number of times exactly when the limit is two or
      more. */
  lemma ExpiredWithoutLimitIff(c: Config)
    ensures (forall n: nat :: CalmlyDelivers(c, n)) <==> c.maxRetries > 1
  {
    if c.maxRetries > 1 {
      var m := Message("id", "t", "");
      forall n: nat ensures CalmlyDelivers(c, n) {
        if n == 0 {
          var s := PublishTheOne(c, NoNack, m, 0);
          assert s.popped == Times(0, m);
        } else {
          var s := ExpiredTimes(c, Job("t", "g", "c"), m, n);
        }
      }
    } else {
      RetryLimitHoldsIff(c);
      assert !CalmlyDelivers(c, 2) by {
        if s, m :| Leads(c, NoNack, INIT, s) && s.published == [m] && s.popped == Times(2, m) {
          TimesCount(2, m);
          assert false;
        }
      }
    }
  }

  lemma {:induction false} ExpiredTimes(c: Config, job: Job, m: Message, n: nat) returns (s: State)
    requires c.maxRetries > 1 && n > 0 && m.topic == job.topic
    ensures Leads(c, NoNack, INIT, s) && s.published == [m] && s.popped == Times(n, m)
    ensures exists e :: OnlyPending(s, job.group, e) && e.message == m
  {
    if n == 1 {
      s := PublishTheOne(c, NoNack, m, 0);
      s := FetchOnceMore(c, s, job, m, 0);
    } else {
      s := ExpiredTimes(c, job, m, n - 1);
      var e :| OnlyPending(s, job.group, e) && e.message == m;
      var s1 := ExpireTheOne(c, s, job.group, e);
      LeadsOn(c, NoNack, INIT, s, s1);
      s := FetchOnceMore(c, s1, job, m, n - 1);
    }
  }

  lemma FetchOnceMore(c: Config, s: State, job: Job, m: Message, n: nat) returns (s': State)
    requires Leads(c, NoNack, INIT, s) && OnlyListed(s, m) && m.topic == job.topic
    requires s.published == [m] && s.popped == Times(n, m)
    ensures Leads(c, NoNack, INIT, s') && s'.published == [m] && s'.popped == Times(n + 1, m)
    ensures exists e :: OnlyPending(s', job.group, e) && e.message == m
  {
    var e: PendingEntry;
    s', e := FetchTheOne(c, NoNack, s, job, m);
    LeadsOn(c, NoNack, INIT, s, s');
    assert Times(n + 1, m) == Times(n, m) + [m];
  }

  /** A Nack carries no count: whatever the limit, a message published once and rejected every time is delivered
      any number of times, with no expiry pass and no refused ZADD in the run, and never dead-lettered. */
  lemma DeliveredWithoutLimit(c: Config, n: nat)
    ensures exists s, m :: Leads(c, NoSweep, INIT, s) && s.published == [m] && s.popped == Times(n, m) && s.store.dead == []
  {
    var m := Message("id", "t", "");
    var s := RejectedTimes(c, Job("t", "g", "c"), m, n);
  }

  lemma {:induction false} RejectedTimes(c: Config, job: Job, m: Message, n: nat) returns (s: State)
    requires m.topic == job.topic
    ensures Leads(c, NoSweep, INIT, s) && OnlyListed(s, m) && s.store.dead == []
    ensures s.published == [m] && s.popped == Times(n, m)
  {
    if n == 0 {
      s := PublishTheOne(c, NoSweep, m, 0);
    } else {
      var s0 := RejectedTimes(c, job, m, n - 1);
      var s1, e := FetchTheOne(c, NoSweep, s0, job, m);
      LeadsOn(c, NoSweep, INIT, s0, s1);
      s := NackTheOne(c, s1, job.group, e);
      LeadsOn(c, NoSweep, INIT, s1, s);
      assert Times(n, m) == Times(n - 1, m) + [m];
    }
  }

  /** The dead letter slice ever holds anything if and only if maxRetries is at most one. */
  lemma DeadLettersIff(c: Config)
    ensures (exists s :: Reachable(c, s) && s.store.dead != []) <==> c.maxRetries <= 1
  {
    if s :| Reachable(c, s) && s.store.dead != [] {
      ReachableEntries(c, s);
    }
    if c.maxRetries <= 1 {
      var s, e := ExpiringAt(c, 0, c.visibilityTimeout);
      var s' := Apply(c, s, Take(0));
      ReachableStep(c, s, Take(0));
      assert s'.store.dead != [];
    }
  }

  // ---------------------------------------------------------------- the visibility timeout

  /** In some run an expiry pass takes an entry `d` nanoseconds before a visibility timeout is over since the clock
      reading it was built at. */
  ghost predicate TakenEarly(c: Config, d: nat) {
    exists s, pid, r :: Reachable(c, s) && Enabled(c, s, Take(pid)) && EarlyBy(c, s, pid, r, d)
  }

  ghost predicate EarlyBy(c: Config, s: State, pid: nat, r: Stamping, d: int)
    requires Enabled(c, s, Take(pid))
  {
    r in s.stampings && r.entry == s.procs[pid].entries[0] && r.at + c.visibilityTimeout == s.clock + d
  }

  lemma EarlyWithin(c: Config, s: State, pid: nat, r: Stamping, d: int)
    requires Reachable(c, s) && Enabled(c, s, Take(pid)) && EarlyBy(c, s, pid, r, d)
    ensures d <= c.visibilityTimeout && d < NANOS_PER_SECOND
  {
    TakenNoSoonerThan(c, s, pid);
  }

  /** A fetch timed so that the deadline falls on the last nanosecond of second number `v`. */
  function FetchTime(v: nat): nat {
    v * (NANOS_PER_SECOND - 1) + NANOS_PER_SECOND - 1
  }

  lemma LastNanosecond(v: nat, d: nat)
    requires d < NANOS_PER_SECOND
    ensures d <= FetchTime(v) + v && Unix(FetchTime(v) + v - d) == Unix(FetchTime(v) + v) == v
  {
  }

  lemma ExpiringEarly(c: Config, at: nat, late: nat, d: nat)
    requires at <= late && Unix(at + c.visibilityTimeout) <= Unix(late) && at + c.visibilityTimeout == late + d
    ensures TakenEarly(c, d)
  {
    var s, e := ExpiringAt(c, at, late);
    ReachableBuilt(c, s);
    assert e in Pel(s.store, PelKey("t", "g"));
    assert WasBuilt(s, e);
    var r :| r in s.stampings && r.entry == e;
    assert Enabled(c, s, Take(0)) && EarlyBy(c, s, 0, r, d);
  }

  /** An expiry pass can take an entry `d` nanoseconds before its timeout is over exactly when `d` is no more than the
      visibility timeout and less than a second. */
  lemma TakenEarlyIff(c: Config, d: nat)
    ensures TakenEarly(c, d) <==> d <= c.visibilityTimeout && d < 1_000_000_000
  {
    if s, pid, r :| Reachable(c, s) && Enabled(c, s, Take(pid)) && EarlyBy(c, s, pid, r, d) {
      EarlyWithin(c, s, pid, r, d);
    }
    if d <= c.visibilityTimeout && d < NANOS_PER_SECOND {
      var at := FetchTime(c.visibilityTimeout);
      LastNanosecond(c.visibilityTimeout, d);
      ExpiringEarly(c, at, at + c.visibilityTimeout - d, d);
    }
  }

  /** No entry is ever taken before its timeout is over if and only if there is no visibility timeout at all. */
  lemma NeverEarlyIff(c: Config)
    ensures
      (forall s, pid, r :: Reachable(c, s) && Enabled(c, s, Take(pid)) && r in s.stampings && r.entry == s.procs[pid].entries[0]
        ==> s.clock - r.at >= c.visibilityTimeout)
      <==> c.visibilityTimeout == 0
  {
    TakenEarlyIff(c, 1);
    if c.visibilityTimeout == 0 {
      forall s, pid, r | Reachable(c, s) && Enabled(c, s, Take(pid)) && r in s.stampings && r.entry == s.procs[pid].entries[0]
        ensures s.clock - r.at >= c.visibilityTimeout
      {
        EarlyWithin(c, s, pid, r, r.at - s.clock);
      }
    } else {
      assert TakenEarly(c, 1);
      var s, pid, r :| Reachable(c, s) && Enabled(c, s, Take(pid)) && EarlyBy(c, s, pid, r, 1);
      assert s.clock - r.at < c.visibilityTimeout;
    }
  }
}
