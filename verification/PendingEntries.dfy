/** What every pending entry looks like in every run: its key, its delivery count, its deadline; and what
    follows for acknowledgements and for the expiry decision. */
module PendingEntries {
  import opened Messages
  import opened RedisStore
  import opened DeliveryMachine
  import opened NoLoss

  /** An entry of the sorted set `key`: filed under its own topic and group, delivery count one, deadline
      a visibility timeout after some past clock reading. */
  ghost predicate EntryOk(c: Config, clock: nat, key: string, e: PendingEntry) {
    && key == PelKey(e.message.topic, e.group)
    && e.deliveryCount == 1
    && c.visibilityTimeout <= e.visibleAt <= clock + c.visibilityTimeout
  }

  /** An entry in the hands of an expiry pass that read the clock at `now`. */
  ghost predicate TakenOk(c: Config, clock: nat, now: nat, key: string, e: PendingEntry) {
    EntryOk(c, clock, key, e) && Score(e) <= Unix(now) && now <= clock
  }

  ghost predicate LocalOk(c: Config, clock: nat, l: Local) {
    match l
    case Stamped(job, _, e) => EntryOk(c, clock, PelKey(e.message.topic, job.group), e)
    case Acking(key, e) => EntryOk(c, clock, key, e)
    case Nacking(key, e) => EntryOk(c, clock, key, e)
    case Sweeping(now, _) => now <= clock
    case Expiring(now, _, key, es) => now <= clock && forall e :: e in es ==> TakenOk(c, clock, now, key, e)
    case Burying(now, _, key, e, es) => c.maxRetries <= 1 && TakenOk(c, clock, now, key, e)
      && forall x :: x in es ==> TakenOk(c, clock, now, key, x)
    case Reviving(now, _, key, e, es) => c.maxRetries > 1 && TakenOk(c, clock, now, key, e)
      && forall x :: x in es ==> TakenOk(c, clock, now, key, x)
    case _ => true
  }

  ghost predicate EntriesOk(c: Config, s: State) {
    && (forall k, e :: e in Pel(s.store, k) ==> EntryOk(c, s.clock, k, e))
    && (forall k :: InOrder(Pel(s.store, k)))
    && (forall pid :: pid in s.procs ==> LocalOk(c, s.clock, s.procs[pid]))
    && (c.maxRetries > 1 ==> s.store.dead == [])
  }

  /** An operation that does not move stays as good as it was: the clock only grows. */
  lemma LocalStays(c: Config, s: State, a: Action, pid: nat)
    requires Enabled(c, s, a) && EntriesOk(c, s) && pid in s.procs
    ensures LocalOk(c, Apply(c, s, a).clock, s.procs[pid])
  {
    assert LocalOk(c, s.clock, s.procs[pid]);
    assert s.clock <= Apply(c, s, a).clock;
  }

  lemma LocalTake(c: Config, s: State, pid: nat)
    requires Enabled(c, s, Take(pid)) && EntriesOk(c, s)
    ensures LocalOk(c, s.clock, Apply(c, s, Take(pid)).procs[pid])
  {
    assert LocalOk(c, s.clock, s.procs[pid]);
    assert s.procs[pid].entries[0] in s.procs[pid].entries;
  }

  lemma LocalRead(c: Config, s: State, pid: nat)
    requires Enabled(c, s, ReadKey(pid)) && EntriesOk(c, s)
    ensures LocalOk(c, s.clock, Apply(c, s, ReadKey(pid)).procs[pid])
  {
    assert LocalOk(c, s.clock, s.procs[pid]);
    var key := s.procs[pid].keys[0];
    forall e | e in Pel(s.store, key) ensures EntryOk(c, s.clock, key, e) { }
  }

  lemma LocalMoves(c: Config, s: State, a: Action, pid: nat)
    requires Enabled(c, s, a) && EntriesOk(c, s) && pid in Apply(c, s, a).procs && Actor(a) == Some(pid)
    requires !a.Take? && !a.ReadKey?
    ensures LocalOk(c, s.clock, Apply(c, s, a).procs[pid])
  {
    if pid in s.procs {
      assert LocalOk(c, s.clock, s.procs[pid]);
    }
  }

  lemma LocalStep(c: Config, s: State, a: Action, pid: nat)
    requires Enabled(c, s, a) && EntriesOk(c, s) && pid in Apply(c, s, a).procs
    ensures LocalOk(c, Apply(c, s, a).clock, Apply(c, s, a).procs[pid])
  {
    if Actor(a) != Some(pid) {
      OthersCameAlong(c, s, a, pid);
      LocalStays(c, s, a, pid);
    } else {
      match a
      case Take(p) => LocalTake(c, s, p);
      case ReadKey(p) => LocalRead(c, s, p);
      case _ => LocalMoves(c, s, a, pid);
    }
  }

  /** What one sorted set must satisfy. */
  ghost predicate SetOk(c: Config, clock: nat, k: string, z: seq<PendingEntry>) {
    InOrder(z) && forall e :: e in z ==> EntryOk(c, clock, k, e)
  }

  lemma SetGains(c: Config, s: State, pid: nat, k: string)
    requires Enabled(c, s, Pend(pid, true)) && EntriesOk(c, s) && SetOk(c, s.clock, k, Pel(s.store, k))
    ensures SetOk(c, s.clock, k, Pel(Apply(c, s, Pend(pid, true)).store, k))
  {
    assert LocalOk(c, s.clock, s.procs[pid]);
    PlacedInOrder(Pel(s.store, k), s.procs[pid].entry);
  }

  lemma SetLoses(c: Config, s: State, a: Action, k: string)
    requires a.AckRemove? || a.NackRemove? || a.BuryRemove? || a.Take?
    requires Enabled(c, s, a) && SetOk(c, s.clock, k, Pel(s.store, k))
    ensures SetOk(c, s.clock, k, Pel(Apply(c, s, a).store, k))
  {
    RemovedInOrder(Pel(s.store, k), if a.Take? then s.procs[a.pid].entries[0] else s.procs[a.pid].entry);
  }

  lemma SetStays(c: Config, s: State, a: Action, k: string)
    requires Enabled(c, s, a) && !a.AckRemove? && !a.NackRemove? && !a.BuryRemove? && !a.Take? && !(a.Pend? && a.ok)
    ensures Pel(Apply(c, s, a).store, k) == Pel(s.store, k) && s.clock <= Apply(c, s, a).clock
  {
  }

  lemma SetsStep(c: Config, s: State, a: Action, k: string)
    requires Enabled(c, s, a) && EntriesOk(c, s)
    ensures SetOk(c, Apply(c, s, a).clock, k, Pel(Apply(c, s, a).store, k))
  {
    assert SetOk(c, s.clock, k, Pel(s.store, k));
    if a.Pend? && a.ok {
      SetGains(c, s, a.pid, k);
    } else if a.AckRemove? || a.NackRemove? || a.BuryRemove? || a.Take? {
      SetLoses(c, s, a, k);
    } else {
      SetStays(c, s, a, k);
    }
  }

  lemma EntriesStep(c: Config, s: State, a: Action)
    requires Enabled(c, s, a) && EntriesOk(c, s)
    ensures EntriesOk(c, Apply(c, s, a))
  {
    var s' := Apply(c, s, a);
    forall k ensures SetOk(c, s'.clock, k, Pel(s'.store, k)) {
      SetsStep(c, s, a, k);
    }
    forall pid | pid in s'.procs ensures LocalOk(c, s'.clock, s'.procs[pid]) {
      LocalStep(c, s, a, pid);
    }
    if a.Take? {
      assert s.procs[a.pid].entries[0] in s.procs[a.pid].entries;
    }
  }

  lemma {:induction false} EntriesAlong(c: Config, s: State, acts: seq<Action>)
    requires Runs(c, s, acts) && EntriesOk(c, s)
    ensures EntriesOk(c, After(c, s, acts))
    decreases acts
  {
    if acts != [] {
      EntriesStep(c, s, acts[0]);
      EntriesAlong(c, Apply(c, s, acts[0]), acts[1..]);
    }
  }

  /** In every reachable state every pending entry is filed under its own topic and group, carries delivery count
      one and a deadline at most a visibility timeout ahead of the clock, and every sorted set is in order of score
      and then message ID. */
  lemma ReachableEntries(c: Config, s: State)
    requires Reachable(c, s)
    ensures EntriesOk(c, s)
  {
    var acts :| Runs(c, INIT, acts) && After(c, INIT, acts) == s;
    EntriesAlong(c, INIT, acts);
  }

  // ---------------------------------------------------------------- keys

  /** When two (topic, group) pairs share a sorted set: exactly when moving a colon-separated tail of one
      topic into the group gives the other pair. */
  lemma KeyCollision(t: string, g: string, u: string, h: string)
    ensures PelKey(t, g) == PelKey(u, h) <==>
      (t == u && g == h)
      || (exists x: string :: t == u + ":" + x && h == x + ":" + g)
      || (exists x: string :: u == t + ":" + x && g == x + ":" + h)
  {
    if PelKey(t, g) == PelKey(u, h) {
      KeyTail(t, g);
      KeyTail(u, h);
      if |u| < |t| {
        LongerTopic(t, g, u, h);
      } else if |t| < |u| {
        LongerTopic(u, h, t, g);
      } else {
        var a, b := t + ":" + g, u + ":" + h;
        assert t == a[..|t|] && u == b[..|u|] && g == a[|t| + 1..] && h == b[|u| + 1..];
      }
    }
    if x: string :| t == u + ":" + x && h == x + ":" + g {
      assert t + ":" + g == u + ":" + h;
      KeyTail(t, g);
      KeyTail(u, h);
    }
    if x: string :| u == t + ":" + x && g == x + ":" + h {
      assert t + ":" + g == u + ":" + h;
      KeyTail(t, g);
      KeyTail(u, h);
    }
  }

  lemma KeyTail(t: string, g: string)
    ensures PelKey(t, g)[4..] == t + ":" + g
    ensures PelKey(t, g) == "pel:" + (t + ":" + g)
  {
  }

  lemma LongerTopic(t: string, g: string, u: string, h: string)
    requires t + ":" + g == u + ":" + h && |u| < |t|
    ensures t == u + ":" + t[|u| + 1..] && h == t[|u| + 1..] + ":" + g
  {
    var a, b := t + ":" + g, u + ":" + h;
    var x := t[|u| + 1..];
    forall i | 0 <= i < |t| ensures t[i] == (u + ":" + x)[i] {
      assert t[i] == a[i] == b[i];
    }
    assert t == u + ":" + x;
    assert h == b[|u| + 1..] == a[|u| + 1..];
    assert a == u + ":" + (x + ":" + g);
  }

  /** An entry can be acknowledged or rejected only by the topic and group it was fetched under, as long as
      the topics hold no colon. */
  lemma FoundUnderOwnPair(c: Config, s: State, topic: string, group: string, id: string)
    requires Reachable(c, s) && FirstWithId(Pel(s.store, PelKey(topic, group)), id).Some?
    requires ':' !in topic && ':' !in FirstWithId(Pel(s.store, PelKey(topic, group)), id).value.message.topic
    ensures
      var e := FirstWithId(Pel(s.store, PelKey(topic, group)), id).value;
      e.message.topic == topic && e.group == group && e.message.id == id
  {
    ReachableEntries(c, s);
    var e := FirstWithId(Pel(s.store, PelKey(topic, group)), id).value;
    assert EntryOk(c, s.clock, PelKey(topic, group), e);
    ColonFreePair(topic, group, e.message.topic, e.group);
  }

  /** Keys of colon-free topics are told apart. */
  lemma ColonFreePair(t: string, g: string, u: string, h: string)
    requires PelKey(t, g) == PelKey(u, h) && ':' !in t && ':' !in u
    ensures t == u && g == h
  {
    KeyCollision(t, g, u, h);
    forall x: string ensures t != u + ":" + x && u != t + ":" + x {
      assert ':' in u + ":" + x by { assert (u + ":" + x)[|u|] == ':'; }
      assert ':' in t + ":" + x by { assert (t + ":" + x)[|t|] == ':'; }
    }
  }

  // ---------------------------------------------------------------- visibility window

  /** Deadline and clock are both cut to whole seconds before they are compared. */
  lemma SecondsComparison(visibleAt: nat, now: nat)
    ensures visibleAt <= now ==> Unix(visibleAt) <= Unix(now)
    ensures Unix(visibleAt) <= Unix(now) ==> visibleAt < now + NANOS_PER_SECOND
  {
  }

  // ---------------------------------------------------------------- delivery count and dead letters

  /** What an expiry pass does with an entry is settled by the configuration alone. */
  lemma ExpiryDecides(c: Config, s: State, pid: nat)
    requires Reachable(c, s) && Enabled(c, s, Take(pid))
    ensures Apply(c, s, Take(pid)).procs[pid].Burying? <==> c.maxRetries <= 1
    ensures Apply(c, s, Take(pid)).procs[pid].Reviving? <==> c.maxRetries > 1
  {
    ReachableEntries(c, s);
    assert s.procs[pid].entries[0] in s.procs[pid].entries;
  }
}
