/** Where pending entries come from: each was built in addToPEL from one message, for one consumer, at one clock
    reading, which settles all its fields; and what follows for the visibility timeout. */
module Stampings {
  import opened Messages
  import opened RedisStore
  import opened DeliveryMachine
  import opened NoLoss
  import opened PendingEntries

  /** The entry says what it was built from: its message, group and consumer, a deadline one visibility timeout after
      the clock reading, and a first delivery. */
  ghost predicate BuiltRight(c: Config, clock: nat, r: Stamping) {
    && r.entry.message == r.msg && r.entry.group == r.job.group && r.entry.consumer == r.job.consumer
    && r.entry.visibleAt == r.at + c.visibilityTimeout && r.entry.deliveryCount == 1
    && r.at <= clock
  }

  ghost predicate WasBuilt(s: State, e: PendingEntry) {
    exists r :: r in s.stampings && r.entry == e
  }

  /** An operation carries the entry, in hand or in a snapshot. */
  predicate Carries(l: Local, e: PendingEntry) {
    || ((l.Stamped? || l.Acking? || l.Nacking? || l.Burying? || l.Reviving?) && l.entry == e)
    || ((l.Expiring? || l.Burying? || l.Reviving?) && e in l.entries)
  }

  ghost predicate AllBuilt(c: Config, s: State) {
    && (forall r :: r in s.stampings ==> BuiltRight(c, s.clock, r))
    && (forall k, e :: e in Pel(s.store, k) ==> WasBuilt(s, e))
    && (forall e :: e in s.store.dead ==> WasBuilt(s, e))
    && (forall pid, e :: pid in s.procs && Carries(s.procs[pid], e) ==> WasBuilt(s, e))
  }

  lemma BuiltStays(c: Config, s: State, a: Action, e: PendingEntry)
    requires Enabled(c, s, a) && WasBuilt(s, e)
    ensures WasBuilt(Apply(c, s, a), e)
  {
    var r :| r in s.stampings && r.entry == e;
    assert r in Apply(c, s, a).stampings;
  }

  lemma StampingsStep(c: Config, s: State, a: Action, r: Stamping)
    requires Enabled(c, s, a) && AllBuilt(c, s) && r in Apply(c, s, a).stampings
    ensures BuiltRight(c, Apply(c, s, a).clock, r)
  {
    assert s.clock <= Apply(c, s, a).clock;
    if r in s.stampings {
      assert BuiltRight(c, s.clock, r);
    }
  }

  lemma SetsBuilt(c: Config, s: State, a: Action, k: string, e: PendingEntry)
    requires Enabled(c, s, a) && AllBuilt(c, s) && e in Pel(Apply(c, s, a).store, k)
    ensures WasBuilt(s, e)
  {
    if e !in Pel(s.store, k) {
      assert a.Pend? && Carries(s.procs[a.pid], e);
    }
  }

  lemma DeadBuilt(c: Config, s: State, a: Action, e: PendingEntry)
    requires Enabled(c, s, a) && AllBuilt(c, s) && e in Apply(c, s, a).store.dead
    ensures WasBuilt(s, e)
  {
    if e !in s.store.dead {
      assert a.Take? && e == s.procs[a.pid].entries[0];
      assert Carries(s.procs[a.pid], e);
    }
  }

  lemma TakeCarries(c: Config, s: State, pid: nat, e: PendingEntry)
    requires Enabled(c, s, Take(pid)) && Carries(Apply(c, s, Take(pid)).procs[pid], e)
    ensures Carries(s.procs[pid], e)
  {
    assert s.procs[pid].entries == [s.procs[pid].entries[0]] + s.procs[pid].entries[1..];
  }

  lemma StampCarries(c: Config, s: State, pid: nat, e: PendingEntry)
    requires Enabled(c, s, Stamp(pid)) && Carries(Apply(c, s, Stamp(pid)).procs[pid], e)
    ensures WasBuilt(Apply(c, s, Stamp(pid)), e)
  {
    var l := s.procs[pid];
    assert Stamping(l.msg, l.job, s.clock, e) in Apply(c, s, Stamp(pid)).stampings;
  }

  lemma MoverCarries(c: Config, s: State, a: Action, pid: nat, e: PendingEntry)
    requires Enabled(c, s, a) && AllBuilt(c, s) && Actor(a) == Some(pid) && !a.Stamp? && !a.Take?
    requires pid in Apply(c, s, a).procs && Carries(Apply(c, s, a).procs[pid], e)
    ensures WasBuilt(s, e)
  {
    if pid in s.procs && Carries(s.procs[pid], e) {
    } else {
      assert a.BeginAck? || a.BeginNack? || a.ReadKey?;
      assert e in Pel(s.store, if a.ReadKey? then s.procs[pid].keys[0] else PelKey(a.topic, a.group));
    }
  }

  lemma LocalsBuilt(c: Config, s: State, a: Action, pid: nat, e: PendingEntry)
    requires Enabled(c, s, a) && AllBuilt(c, s) && pid in Apply(c, s, a).procs && Carries(Apply(c, s, a).procs[pid], e)
    ensures WasBuilt(Apply(c, s, a), e)
  {
    if a == Stamp(pid) {
      StampCarries(c, s, pid, e);
    } else {
      if Actor(a) != Some(pid) {
        OthersCameAlong(c, s, a, pid);
      } else if a.Take? {
        TakeCarries(c, s, pid, e);
      } else {
        MoverCarries(c, s, a, pid, e);
      }
      BuiltStays(c, s, a, e);
    }
  }

  lemma AllBuiltStep(c: Config, s: State, a: Action)
    requires Enabled(c, s, a) && AllBuilt(c, s)
    ensures AllBuilt(c, Apply(c, s, a))
  {
    var s' := Apply(c, s, a);
    forall r | r in s'.stampings ensures BuiltRight(c, s'.clock, r) {
      StampingsStep(c, s, a, r);
    }
    forall k, e | e in Pel(s'.store, k) ensures WasBuilt(s', e) {
      SetsBuilt(c, s, a, k, e);
      BuiltStays(c, s, a, e);
    }
    forall e | e in s'.store.dead ensures WasBuilt(s', e) {
      DeadBuilt(c, s, a, e);
      BuiltStays(c, s, a, e);
    }
    forall pid, e | pid in s'.procs && Carries(s'.procs[pid], e) ensures WasBuilt(s', e) {
      LocalsBuilt(c, s, a, pid, e);
    }
  }

  lemma {:induction false} AllBuiltAlong(c: Config, s: State, acts: seq<Action>)
    requires Runs(c, s, acts) && AllBuilt(c, s)
    ensures AllBuilt(c, After(c, s, acts))
    decreases acts
  {
    if acts != [] {
      AllBuiltStep(c, s, acts[0]);
      AllBuiltAlong(c, Apply(c, s, acts[0]), acts[1..]);
    }
  }

  /** In every run every entry pending, dead or carried by an operation was built in addToPEL, and every entry built
      says, field by field, what it was built from and when. */
  lemma ReachableBuilt(c: Config, s: State)
    requires Reachable(c, s)
    ensures forall k, e :: e in Pel(s.store, k) ==> WasBuilt(s, e)
    ensures forall e :: e in s.store.dead ==> WasBuilt(s, e)
    ensures forall pid, e :: pid in s.procs && Carries(s.procs[pid], e) ==> WasBuilt(s, e)
    ensures forall r :: r in s.stampings ==>
      && r.entry.message == r.msg && r.entry.group == r.job.group && r.entry.consumer == r.job.consumer
      && r.entry.visibleAt == r.at + c.visibilityTimeout && r.entry.deliveryCount == 1 && r.at <= s.clock
  {
    var acts :| Runs(c, INIT, acts) && After(c, INIT, acts) == s;
    AllBuiltAlong(c, INIT, acts);
    forall r | r in s.stampings ensures BuiltRight(c, s.clock, r) { }
  }

  // ---------------------------------------------------------------- the visibility timeout

  /** An expiry pass takes an entry only after more than the visibility timeout less one second since the clock
      reading it was built at. */
  lemma TakenNoSoonerThan(c: Config, s: State, pid: nat)
    requires Reachable(c, s) && Enabled(c, s, Take(pid))
    ensures WasBuilt(s, s.procs[pid].entries[0])
    ensures forall r :: r in s.stampings && r.entry == s.procs[pid].entries[0] ==>
      r.at <= s.clock && s.clock - r.at > c.visibilityTimeout - NANOS_PER_SECOND
  {
    ReachableBuilt(c, s);
    ReachableEntries(c, s);
    var l := s.procs[pid];
    var e := l.entries[0];
    assert e in l.entries && Carries(l, e);
    assert TakenOk(c, s.clock, l.now, l.key, e);
    SecondsComparison(e.visibleAt, l.now);
  }

  /** When a pass reads a set it takes every entry that, by the pass's clock reading, has waited out the visibility
      timeout since it was built, and leaves every entry a second or more short of it. */
  lemma ReadTakesTheExpired(c: Config, s: State, pid: nat, e: PendingEntry)
    requires Reachable(c, s) && Enabled(c, s, ReadKey(pid)) && e in Pel(s.store, s.procs[pid].keys[0])
    ensures WasBuilt(s, e)
    ensures forall r :: r in s.stampings && r.entry == e ==>
      var waited := s.procs[pid].now - r.at;
      var taken := Apply(c, s, ReadKey(pid)).procs[pid].entries;
      && (waited >= c.visibilityTimeout ==> e in taken)
      && (waited <= c.visibilityTimeout - NANOS_PER_SECOND ==> e !in taken)
  {
    ReachableBuilt(c, s);
    SecondsComparison(e.visibleAt, s.procs[pid].now);
  }
}
