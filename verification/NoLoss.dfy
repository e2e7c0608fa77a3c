/** No message is lost, whatever the interleaving: until its Ack sends the ZREM, a published message is
    in its list, in a pending set, in the dead letter slice, or in the hands of a running operation. */
module NoLoss {
  import opened Messages
  import opened RedisStore
  import opened DeliveryMachine

  /** The message an operation has taken out of every store and not yet put back. */
  function InHand(l: Local): Option<Message> {
    match l
    case Popped(_, _, m) => Some(m)
    case Stamped(_, _, e) => Some(e.message)
    case PuttingBack(_, _, m) => Some(m)
    case NackHolding(m) => Some(m)
    case Reviving(_, _, _, e, _) => Some(e.message)
    case _ => None
  }

  ghost predicate Pends(z: seq<PendingEntry>, m: Message) {
    exists e :: e in z && e.message == m
  }

  ghost predicate Pending(st: Store, m: Message) {
    exists k :: Pends(Pel(st, k), m)
  }

  ghost predicate Held(s: State, m: Message) {
    exists pid :: pid in s.procs && InHand(s.procs[pid]) == Some(m)
  }

  ghost predicate Kept(s: State, m: Message) {
    m in List(s.store, m.topic) || Pending(s.store, m) || Pends(s.store.dead, m) || Held(s, m)
  }

  /** The operation an action advances. */
  function Actor(a: Action): Option<nat> {
    match a
    case Publish(_) => None
    case Tick(_) => None
    case _ => Some(a.pid)
  }

  lemma OthersStay(c: Config, s: State, a: Action, pid: nat)
    requires Enabled(c, s, a) && pid in s.procs && Actor(a) != Some(pid)
    ensures pid in Apply(c, s, a).procs && Apply(c, s, a).procs[pid] == s.procs[pid]
  {
  }

  lemma OthersCameAlong(c: Config, s: State, a: Action, pid: nat)
    requires Enabled(c, s, a) && pid in Apply(c, s, a).procs && Actor(a) != Some(pid)
    ensures pid in s.procs && s.procs[pid] == Apply(c, s, a).procs[pid]
    ensures forall m :: m in s.popped ==> m in Apply(c, s, a).popped
  {
  }

  lemma HeldStep(c: Config, s: State, a: Action, m: Message)
    requires Enabled(c, s, a) && Held(s, m)
    ensures Held(Apply(c, s, a), m)
         || (Actor(a).Some? && Actor(a).value in s.procs && InHand(s.procs[Actor(a).value]) == Some(m))
  {
    var pid :| pid in s.procs && InHand(s.procs[pid]) == Some(m);
    if Actor(a) != Some(pid) {
      OthersStay(c, s, a, pid);
    }
  }

  lemma ZAddKeeps(st: Store, key: string, e: PendingEntry, m: Message)
    ensures Pending(ZAdd(st, key, e), e.message)
    ensures Pending(st, m) ==> Pending(ZAdd(st, key, e), m)
  {
    var st' := ZAdd(st, key, e);
    assert e in Pel(st', key);
    assert Pends(Pel(st', key), e.message);
    if Pending(st, m) {
      var k :| Pends(Pel(st, k), m);
      var x :| x in Pel(st, k) && x.message == m;
      assert x in Pel(st', k);
      assert Pends(Pel(st', k), m);
    }
  }

  /** ZREM of an entry affects no other message. */
  lemma ZRemKeeps(st: Store, key: string, e: PendingEntry, m: Message)
    requires Pending(st, m) && e.message != m
    ensures Pending(ZRem(st, key, e), m)
  {
    var k :| Pends(Pel(st, k), m);
    var x :| x in Pel(st, k) && x.message == m;
    assert x in Pel(ZRem(st, key, e), k);
    assert Pends(Pel(ZRem(st, key, e), k), m);
  }

  lemma PopKeeps(st: Store, t: string, m: Message)
    requires List(st, t) != [] && m in List(st, m.topic) && m != Last(st, t)
    ensures m in List(RPop(st, t), m.topic)
  {
    if t == m.topic {
      var l := List(st, t);
      assert l == l[..|l| - 1] + [l[|l| - 1]];
    }
  }

  /** An action that leaves the sorted sets alone leaves the pending messages alone. */
  lemma SamePels(st: Store, st': Store, m: Message)
    requires st'.pels == st.pels && Pending(st, m)
    ensures Pending(st', m)
  {
    var k :| Pends(Pel(st, k), m);
    assert Pends(Pel(st', k), m);
  }

  /** What an operation has in hand it puts somewhere, or keeps. */
  lemma HandStep(c: Config, s: State, a: Action, m: Message)
    requires Enabled(c, s, a) && Actor(a).Some? && Actor(a).value in s.procs
    requires InHand(s.procs[Actor(a).value]) == Some(m)
    ensures Kept(Apply(c, s, a), m)
  {
    var pid, s' := Actor(a).value, Apply(c, s, a);
    match a
    case Stamp(_) => assert InHand(s'.procs[pid]) == Some(m);
    case Pend(_, ok) =>
      var l := s.procs[pid];
      if ok {
        ZAddKeeps(s.store, PelKey(m.topic, l.job.group), l.entry, m);
      } else {
        assert InHand(s'.procs[pid]) == Some(m);
      }
    case PushBack(_) => assert m in List(s'.store, m.topic);
  }

  /** A dead-lettered entry is in the slice before its ZREM is sent. */
  ghost predicate BuriedFirst(s: State) {
    forall pid :: pid in s.procs && s.procs[pid].Burying? ==> s.procs[pid].entry in s.store.dead
  }

  lemma BuriedFirstStep(c: Config, s: State, a: Action)
    requires Enabled(c, s, a) && BuriedFirst(s)
    ensures BuriedFirst(Apply(c, s, a))
  {
    var s' := Apply(c, s, a);
    forall pid | pid in s'.procs && s'.procs[pid].Burying?
      ensures s'.procs[pid].entry in s'.store.dead
    {
      if Actor(a) != Some(pid) {
        assert pid in s.procs && s.procs[pid] == s'.procs[pid];
      }
    }
  }

  lemma DeadStays(c: Config, s: State, a: Action, m: Message)
    requires Enabled(c, s, a) && Pends(s.store.dead, m)
    ensures Pends(Apply(c, s, a).store.dead, m)
  {
    var x :| x in s.store.dead && x.message == m;
    assert x in Apply(c, s, a).store.dead;
  }

  lemma ListedStep(c: Config, s: State, a: Action, m: Message)
    requires Enabled(c, s, a) && m in List(s.store, m.topic)
    ensures m in List(Apply(c, s, a).store, m.topic) || Held(Apply(c, s, a), m)
  {
    if a.Pop? && List(s.store, s.procs[a.pid].job.topic) != [] {
      if m == Last(s.store, s.procs[a.pid].job.topic) {
        assert InHand(Apply(c, s, a).procs[a.pid]) == Some(m);
      } else {
        PopKeeps(s.store, s.procs[a.pid].job.topic, m);
      }
    }
  }

  lemma StoredStep(c: Config, s: State, a: Action, m: Message)
    requires Enabled(c, s, a) && BuriedFirst(s)
    requires m in List(s.store, m.topic) || Pending(s.store, m) || Pends(s.store.dead, m)
    ensures m in Apply(c, s, a).acked || Kept(Apply(c, s, a), m)
  {
    if Pends(s.store.dead, m) {
      DeadStays(c, s, a, m);
    } else if m in List(s.store, m.topic) {
      ListedStep(c, s, a, m);
    } else {
      PendingStep(c, s, a, m);
    }
  }

  lemma PendingStep(c: Config, s: State, a: Action, m: Message)
    requires Enabled(c, s, a) && BuriedFirst(s) && Pending(s.store, m)
    ensures m in Apply(c, s, a).acked || Kept(Apply(c, s, a), m)
  {
    var s' := Apply(c, s, a);
    match a
    case Pend(pid, ok) =>
      var l := s.procs[pid];
      if ok {
        ZAddKeeps(s.store, PelKey(l.entry.message.topic, l.job.group), l.entry, m);
      }
    case AckRemove(pid) =>
      if s.procs[pid].entry.message != m {
        ZRemKeeps(s.store, s.procs[pid].key, s.procs[pid].entry, m);
      }
    case NackRemove(pid) =>
      if s.procs[pid].entry.message == m {
        assert InHand(s'.procs[pid]) == Some(m);
      } else {
        ZRemKeeps(s.store, s.procs[pid].key, s.procs[pid].entry, m);
      }
    case BuryRemove(pid) =>
      if s.procs[pid].entry.message != m {
        ZRemKeeps(s.store, s.procs[pid].key, s.procs[pid].entry, m);
      }
    case Take(pid) =>
      var e := s.procs[pid].entries[0];
      if e.deliveryCount >= c.maxRetries {
        SamePels(s.store, s'.store, m);
      } else if e.message == m {
        assert InHand(s'.procs[pid]) == Some(m);
      } else {
        ZRemKeeps(s.store, s.procs[pid].key, e, m);
      }
    case _ =>
      assert s'.store.pels == s.store.pels;
      SamePels(s.store, s'.store, m);
  }

  ghost predicate NothingLost(s: State) {
    forall m :: m in s.published ==> m in s.acked || Kept(s, m)
  }

  lemma NothingLostStep(c: Config, s: State, a: Action)
    requires Enabled(c, s, a) && BuriedFirst(s) && NothingLost(s)
    ensures NothingLost(Apply(c, s, a))
  {
    var s' := Apply(c, s, a);
    forall m | m in s'.published ensures m in s'.acked || Kept(s', m) {
      if m in s.acked {
      } else if m !in s.published {
        assert m == a.msg;
      } else if Held(s, m) {
        HeldStep(c, s, a, m);
        if !Held(s', m) {
          HandStep(c, s, a, m);
        }
      } else {
        StoredStep(c, s, a, m);
      }
    }
  }

  lemma {:induction false} NothingLostAlong(c: Config, s: State, acts: seq<Action>)
    requires Runs(c, s, acts) && BuriedFirst(s) && NothingLost(s)
    ensures NothingLost(After(c, s, acts))
    decreases acts
  {
    if acts != [] {
      BuriedFirstStep(c, s, acts[0]);
      NothingLostStep(c, s, acts[0]);
      NothingLostAlong(c, Apply(c, s, acts[0]), acts[1..]);
    }
  }

  /** In every reachable state every published message is kept until some Ack has sent its ZREM. */
  lemma NoMessageIsLost(c: Config, s: State, m: Message)
    requires Reachable(c, s) && m in s.published && m !in s.acked
    ensures m in List(s.store, m.topic) || Pending(s.store, m) || Pends(s.store.dead, m) || Held(s, m)
  {
    var acts :| Runs(c, INIT, acts) && After(c, INIT, acts) == s;
    NothingLostAlong(c, INIT, acts);
  }

  /** With no operation running, a message not yet acked is in one of the three stores. */
  lemma NoLossAtRest(c: Config, s: State, m: Message)
    requires Reachable(c, s) && s.procs == map[] && m in s.published && m !in s.acked
    ensures m in List(s.store, m.topic) || Pending(s.store, m) || Pends(s.store.dead, m)
  {
    NoMessageIsLost(c, s, m);
  }
}
