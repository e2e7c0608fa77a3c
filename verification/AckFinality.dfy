/** When an acknowledged message is gone for good. ZREM's count is ignored, so an operation that read the
    pending set before the Ack may still push the message back; exactly those operations decide. */
module AckFinality {
  import opened Messages
  import opened RedisStore
  import opened DeliveryMachine
  import opened NoLoss
  import opened DeliveryOrder
  import opened PendingEntries
  import opened OneMessage
  import opened Redelivery

  ghost predicate Listed(st: Store, m: Message) {
    exists t :: m in List(st, t)
  }

  /** `m` is in some store. */
  ghost predicate Stored(st: Store, m: Message) {
    Listed(st, m) || Pending(st, m) || Pends(st.dead, m)
  }

  /** The operation will still put `m` into a store if it runs on: it has it in hand, or a Nack has found
      it, or an expiry pass has read it and not yet dealt with it. */
  ghost predicate WillPut(l: Local, m: Message) {
    || InHand(l) == Some(m)
    || (l.Nacking? && l.entry.message == m)
    || ((l.Expiring? || l.Burying? || l.Reviving?) && Pends(l.entries, m))
  }

  ghost predicate Quiet(s: State, m: Message) {
    !Stored(s.store, m) && forall pid :: pid in s.procs ==> !WillPut(s.procs[pid], m)
  }

  /** However the service runs on from `s`, `m` is in no store unless it is published again. */
  ghost predicate GoneForGood(c: Config, s: State, m: Message) {
    forall acts :: Runs(c, s, acts) && Publish(m) !in acts ==> !Stored(After(c, s, acts).store, m)
  }

  lemma PelStaysClear(st: Store, st': Store, key: string, e: PendingEntry, m: Message)
    requires !Pending(st, m) && e.message != m
    requires st'.pels == ZAdd(st, key, e).pels || st'.pels == ZRem(st, key, e).pels || st'.pels == st.pels
    ensures !Pending(st', m)
  {
    forall k ensures !Pends(Pel(st', k), m) {
      assert !Pends(Pel(st, k), m);
    }
  }

  lemma RemovalKeepsClear(st: Store, key: string, e: PendingEntry, m: Message)
    requires !Pending(st, m)
    ensures !Pending(ZRem(st, key, e), m)
  {
    forall k ensures !Pends(Pel(ZRem(st, key, e), k), m) {
      assert !Pends(Pel(st, k), m);
    }
  }

  lemma QuietPels(c: Config, s: State, a: Action, m: Message)
    requires Enabled(c, s, a) && Quiet(s, m)
    ensures !Pending(Apply(c, s, a).store, m)
  {
    var s' := Apply(c, s, a);
    if a.Pend? && a.ok {
      assert !WillPut(s.procs[a.pid], m);
      PelStaysClear(s.store, s'.store, PelKey(s.procs[a.pid].entry.message.topic, s.procs[a.pid].job.group),
                    s.procs[a.pid].entry, m);
    } else if a.AckRemove? || a.NackRemove? || a.BuryRemove? {
      RemovalKeepsClear(s.store, s.procs[a.pid].key, s.procs[a.pid].entry, m);
    } else if a.Take? && s.procs[a.pid].entries[0].deliveryCount < c.maxRetries {
      RemovalKeepsClear(s.store, s.procs[a.pid].key, s.procs[a.pid].entries[0], m);
    } else {
      assert s'.store.pels == s.store.pels;
      forall k ensures !Pends(Pel(s'.store, k), m) {
        assert !Pends(Pel(s.store, k), m);
      }
    }
  }

  lemma QuietLists(c: Config, s: State, a: Action, m: Message)
    requires Enabled(c, s, a) && Quiet(s, m) && a != Publish(m)
    ensures !Listed(Apply(c, s, a).store, m)
  {
    var s' := Apply(c, s, a);
    forall t ensures m !in List(s'.store, t) {
      assert m !in List(s.store, t);
      if a.PushBack? {
        assert !WillPut(s.procs[a.pid], m);
      }
    }
  }

  lemma QuietOthers(c: Config, s: State, a: Action, m: Message, pid: nat)
    requires Enabled(c, s, a) && Quiet(s, m) && pid in Apply(c, s, a).procs && Actor(a) != Some(pid)
    ensures !WillPut(Apply(c, s, a).procs[pid], m)
  {
    assert pid in s.procs && s.procs[pid] == Apply(c, s, a).procs[pid];
  }

  lemma QuietPop(c: Config, s: State, m: Message, pid: nat)
    requires Enabled(c, s, Pop(pid)) && Quiet(s, m) && pid in Apply(c, s, Pop(pid)).procs
    ensures !WillPut(Apply(c, s, Pop(pid)).procs[pid], m)
  {
    assert List(s.store, s.procs[pid].job.topic) != [];
    assert Last(s.store, s.procs[pid].job.topic) in List(s.store, s.procs[pid].job.topic);
  }

  lemma QuietReadKey(c: Config, s: State, m: Message, pid: nat)
    requires Enabled(c, s, ReadKey(pid)) && Quiet(s, m)
    ensures !WillPut(Apply(c, s, ReadKey(pid)).procs[pid], m)
  {
    assert !Pends(Pel(s.store, s.procs[pid].keys[0]), m);
  }

  lemma QuietTake(c: Config, s: State, m: Message, pid: nat)
    requires Enabled(c, s, Take(pid)) && Quiet(s, m)
    ensures !WillPut(Apply(c, s, Take(pid)).procs[pid], m)
  {
    var l := s.procs[pid];
    assert !WillPut(l, m);
    assert l.entries == [l.entries[0]] + l.entries[1..];
  }

  lemma QuietBeginNack(c: Config, s: State, a: Action, m: Message)
    requires a.BeginNack? && Enabled(c, s, a) && Quiet(s, m) && a.pid in Apply(c, s, a).procs
    ensures !WillPut(Apply(c, s, a).procs[a.pid], m)
  {
    assert !Pends(Pel(s.store, PelKey(a.topic, a.group)), m);
  }

  lemma QuietMoves(c: Config, s: State, a: Action, m: Message, pid: nat)
    requires Enabled(c, s, a) && Quiet(s, m) && pid in Apply(c, s, a).procs && Actor(a) == Some(pid)
    requires !a.Pop? && !a.ReadKey? && !a.Take? && !a.BeginNack?
    ensures !WillPut(Apply(c, s, a).procs[pid], m)
  {
    if pid in s.procs {
      assert !WillPut(s.procs[pid], m);
    }
  }

  lemma QuietLocals(c: Config, s: State, a: Action, m: Message, pid: nat)
    requires Enabled(c, s, a) && Quiet(s, m) && pid in Apply(c, s, a).procs
    ensures !WillPut(Apply(c, s, a).procs[pid], m)
  {
    if Actor(a) != Some(pid) {
      QuietOthers(c, s, a, m, pid);
    } else {
      match a
      case Pop(p) => QuietPop(c, s, m, p);
      case ReadKey(p) => QuietReadKey(c, s, m, p);
      case Take(p) => QuietTake(c, s, m, p);
      case BeginNack(_, _, _, _) => QuietBeginNack(c, s, a, m);
      case _ => QuietMoves(c, s, a, m, pid);
    }
  }

  lemma QuietDead(c: Config, s: State, a: Action, m: Message)
    requires Enabled(c, s, a) && Quiet(s, m)
    ensures !Pends(Apply(c, s, a).store.dead, m)
  {
    if a.Take? {
      assert !WillPut(s.procs[a.pid], m);
      assert s.procs[a.pid].entries[0] in s.procs[a.pid].entries;
    }
  }

  lemma QuietStep(c: Config, s: State, a: Action, m: Message)
    requires Enabled(c, s, a) && Quiet(s, m) && a != Publish(m)
    ensures Quiet(Apply(c, s, a), m)
  {
    QuietLists(c, s, a, m);
    QuietPels(c, s, a, m);
    QuietDead(c, s, a, m);
    forall pid | pid in Apply(c, s, a).procs ensures !WillPut(Apply(c, s, a).procs[pid], m) {
      QuietLocals(c, s, a, m, pid);
    }
  }

  lemma {:induction false} QuietAlong(c: Config, s: State, acts: seq<Action>, m: Message)
    requires Runs(c, s, acts) && Quiet(s, m) && Publish(m) !in acts
    ensures Quiet(After(c, s, acts), m)
    decreases acts
  {
    if acts != [] {
      QuietStep(c, s, acts[0], m);
      QuietAlong(c, Apply(c, s, acts[0]), acts[1..], m);
    }
  }

  /** The commands an operation still has to send before it puts `m` into a store. */
  function Resume(c: Config, pid: nat, l: Local, m: Message): seq<Action> {
    match l
    case Popped(_, _, _) => [Stamp(pid), Pend(pid, true)]
    case Stamped(_, _, _) => [Pend(pid, true)]
    case PuttingBack(_, _, _) => [PushBack(pid)]
    case NackHolding(_) => [PushBack(pid)]
    case Nacking(_, _) => [NackRemove(pid), PushBack(pid)]
    case Reviving(_, _, _, e, es) => if e.message == m then [PushBack(pid)] else [PushBack(pid)] + WorkThrough(c, pid, es, m)
    case Burying(_, _, _, _, es) => [BuryRemove(pid)] + WorkThrough(c, pid, es, m)
    case Expiring(_, _, _, es) => WorkThrough(c, pid, es, m)
    case _ => []
  }

  /** An expiry pass working through its snapshot until it has put `m` away. */
  function WorkThrough(c: Config, pid: nat, es: seq<PendingEntry>, m: Message): seq<Action> {
    if es == [] then []
    else if es[0].message == m then [Take(pid)] + (if es[0].deliveryCount >= c.maxRetries then [] else [PushBack(pid)])
    else [Take(pid), if es[0].deliveryCount >= c.maxRetries then BuryRemove(pid) else PushBack(pid)]
         + WorkThrough(c, pid, es[1..], m)
  }

  lemma RunsOne(c: Config, s: State, a: Action, rest: seq<Action>)
    requires Enabled(c, s, a) && Runs(c, Apply(c, s, a), rest)
    ensures Runs(c, s, [a] + rest) && After(c, s, [a] + rest) == After(c, Apply(c, s, a), rest)
  {
    assert ([a] + rest)[0] == a && ([a] + rest)[1..] == rest;
  }

  lemma RunsTwo(c: Config, s: State, a: Action, b: Action, rest: seq<Action>)
    requires Enabled(c, s, a) && Enabled(c, Apply(c, s, a), b) && Runs(c, Apply(c, Apply(c, s, a), b), rest)
    ensures Runs(c, s, [a, b] + rest)
    ensures After(c, s, [a, b] + rest) == After(c, Apply(c, Apply(c, s, a), b), rest)
  {
    RunsOne(c, Apply(c, s, a), b, rest);
    RunsOne(c, s, a, [b] + rest);
    assert [a, b] + rest == [a] + ([b] + rest);
  }

  /** The pass deals with the entry of `m` itself. */
  lemma TakePuts(c: Config, s: State, pid: nat, m: Message)
    requires Enabled(c, s, Take(pid)) && s.procs[pid].entries[0].message == m
    ensures
      var acts := [Take(pid)] + (if s.procs[pid].entries[0].deliveryCount >= c.maxRetries then [] else [PushBack(pid)]);
      Runs(c, s, acts) && Stored(After(c, s, acts).store, m)
  {
    var e, s1 := s.procs[pid].entries[0], Apply(c, s, Take(pid));
    if e.deliveryCount >= c.maxRetries {
      assert e in s1.store.dead;
      assert Runs(c, s1, []) && After(c, s1, []) == s1;
      RunsOne(c, s, Take(pid), []);
    } else {
      PushBackPuts(c, s1, pid, m);
      RunsOne(c, s, Take(pid), [PushBack(pid)]);
    }
  }

  /** The pass gets past an entry. */
  lemma TakeGoesOn(c: Config, s: State, pid: nat, b: Action)
    requires Enabled(c, s, Take(pid))
    requires b == if s.procs[pid].entries[0].deliveryCount >= c.maxRetries then BuryRemove(pid) else PushBack(pid)
    ensures
      var s1 := Apply(c, s, Take(pid));
      && Enabled(c, s1, b) && pid in Apply(c, s1, b).procs
      && Apply(c, s1, b).procs[pid].Expiring? && Apply(c, s1, b).procs[pid].entries == s.procs[pid].entries[1..]
  {
  }

  lemma {:induction false} WorkThroughPuts(c: Config, s: State, pid: nat, m: Message)
    requires pid in s.procs && s.procs[pid].Expiring? && Pends(s.procs[pid].entries, m)
    ensures
      var acts := WorkThrough(c, pid, s.procs[pid].entries, m);
      Runs(c, s, acts) && Stored(After(c, s, acts).store, m) && Publish(m) !in acts
    decreases |s.procs[pid].entries|
  {
    var es := s.procs[pid].entries;
    if es[0].message == m {
      TakePuts(c, s, pid, m);
    } else {
      var b := if es[0].deliveryCount >= c.maxRetries then BuryRemove(pid) else PushBack(pid);
      TakeGoesOn(c, s, pid, b);
      var s2 := Apply(c, Apply(c, s, Take(pid)), b);
      assert es == [es[0]] + es[1..];
      WorkThroughPuts(c, s2, pid, m);
      RunsTwo(c, s, Take(pid), b, WorkThrough(c, pid, es[1..], m));
    }
  }

  lemma PendPuts(c: Config, s: State, pid: nat, m: Message)
    requires pid in s.procs && s.procs[pid].Stamped? && s.procs[pid].entry.message == m
    ensures Runs(c, s, [Pend(pid, true)]) && Stored(After(c, s, [Pend(pid, true)]).store, m)
  {
    RunsOne(c, s, Pend(pid, true), []);
    assert [Pend(pid, true)] + [] == [Pend(pid, true)];
    ZAddKeeps(s.store, PelKey(m.topic, s.procs[pid].job.group), s.procs[pid].entry, m);
  }

  lemma PushBackPuts(c: Config, s: State, pid: nat, m: Message)
    requires Enabled(c, s, PushBack(pid)) && InHand(s.procs[pid]) == Some(m)
    ensures Runs(c, s, [PushBack(pid)]) && Stored(After(c, s, [PushBack(pid)]).store, m)
  {
    RunsOne(c, s, PushBack(pid), []);
    assert [PushBack(pid)] + [] == [PushBack(pid)];
    assert m in List(Apply(c, s, PushBack(pid)).store, m.topic);
  }

  lemma StampThenPend(c: Config, s: State, pid: nat, m: Message)
    requires pid in s.procs && s.procs[pid].Popped? && s.procs[pid].msg == m
    ensures
      var acts := [Stamp(pid), Pend(pid, true)];
      Runs(c, s, acts) && Stored(After(c, s, acts).store, m)
  {
    PendPuts(c, Apply(c, s, Stamp(pid)), pid, m);
    RunsOne(c, s, Stamp(pid), [Pend(pid, true)]);
    assert [Stamp(pid)] + [Pend(pid, true)] == [Stamp(pid), Pend(pid, true)];
  }

  lemma NackThenPush(c: Config, s: State, pid: nat, m: Message)
    requires pid in s.procs && s.procs[pid].Nacking? && s.procs[pid].entry.message == m
    ensures
      var acts := [NackRemove(pid), PushBack(pid)];
      Runs(c, s, acts) && Stored(After(c, s, acts).store, m)
  {
    PushBackPuts(c, Apply(c, s, NackRemove(pid)), pid, m);
    RunsOne(c, s, NackRemove(pid), [PushBack(pid)]);
    assert [NackRemove(pid)] + [PushBack(pid)] == [NackRemove(pid), PushBack(pid)];
  }

  lemma ResumePuts(c: Config, s: State, pid: nat, m: Message)
    requires pid in s.procs && WillPut(s.procs[pid], m)
    ensures
      var acts := Resume(c, pid, s.procs[pid], m);
      Runs(c, s, acts) && Stored(After(c, s, acts).store, m) && Publish(m) !in acts
  {
    match s.procs[pid]
    case Popped(_, _, _) => StampThenPend(c, s, pid, m);
    case Stamped(_, _, _) => PendPuts(c, s, pid, m);
    case PuttingBack(_, _, _) => PushBackPuts(c, s, pid, m);
    case NackHolding(_) => PushBackPuts(c, s, pid, m);
    case Nacking(_, _) => NackThenPush(c, s, pid, m);
    case Reviving(_, _, _, e, es) =>
      if e.message == m {
        PushBackPuts(c, s, pid, m);
      } else {
        WorkThroughPuts(c, Apply(c, s, PushBack(pid)), pid, m);
        RunsOne(c, s, PushBack(pid), WorkThrough(c, pid, es, m));
      }
    case Burying(_, _, _, _, es) =>
      WorkThroughPuts(c, Apply(c, s, BuryRemove(pid)), pid, m);
      RunsOne(c, s, BuryRemove(pid), WorkThrough(c, pid, es, m));
    case Expiring(_, _, _, _) => WorkThroughPuts(c, s, pid, m);
  }

  /** A message is gone for good exactly when it is in no store and no running operation has it in hand,
      has found it for a Nack, or still has it in an expiry snapshot. */
  lemma GoneForGoodIff(c: Config, s: State, m: Message)
    ensures GoneForGood(c, s, m) <==> Quiet(s, m)
  {
    if Quiet(s, m) {
      forall acts | Runs(c, s, acts) && Publish(m) !in acts ensures !Stored(After(c, s, acts).store, m) {
        QuietAlong(c, s, acts, m);
      }
    } else if Stored(s.store, m) {
      assert Runs(c, s, []) && After(c, s, []) == s;
    } else {
      var pid :| pid in s.procs && WillPut(s.procs[pid], m);
      ResumePuts(c, s, pid, m);
    }
  }

  /** The Ack's ZREM is final exactly when, apart from the entry it removes, the message was nowhere. */
  lemma AckFinalIff(c: Config, s: State, pid: nat)
    requires Enabled(c, s, AckRemove(pid))
    ensures
      var m, key, e := s.procs[pid].entry.message, s.procs[pid].key, s.procs[pid].entry;
      GoneForGood(c, Apply(c, s, AckRemove(pid)), m) <==>
        && !Listed(s.store, m) && !Pends(s.store.dead, m)
        && (forall k, x :: x in Pel(s.store, k) && x.message == m ==> k == key && x == e)
        && (forall p :: p in s.procs ==> !WillPut(s.procs[p], m))
  {
    var m, key, e := s.procs[pid].entry.message, s.procs[pid].key, s.procs[pid].entry;
    var s' := Apply(c, s, AckRemove(pid));
    GoneForGoodIff(c, s', m);
    assert forall k, x :: x in Pel(s'.store, k) <==> x in Pel(s.store, k) && !(k == key && x == e);
    assert Listed(s'.store, m) <==> Listed(s.store, m) by {
      assert forall t :: List(s'.store, t) == List(s.store, t);
    }
    assert !WillPut(s.procs[pid], m);
    assert (forall p :: p in s.procs ==> !WillPut(s.procs[p], m))
      <==> (forall p :: p in s'.procs ==> !WillPut(s'.procs[p], m)) by {
      forall p | p in s.procs && p != pid ensures p in s'.procs && s'.procs[p] == s.procs[p] { }
    }
    if Pending(s'.store, m) {
      var k :| Pends(Pel(s'.store, k), m);
      var x :| x in Pel(s'.store, k) && x.message == m;
    } else {
      forall k, x | x in Pel(s'.store, k) ensures x.message != m {
        assert !Pends(Pel(s'.store, k), m);
      }
    }
  }

  // ---------------------------------------------------------------- acknowledgements undone

  ghost predicate AckedWerePopped(s: State) {
    forall m :: m in s.acked ==> m in s.popped
  }

  lemma AckedWerePoppedStep(c: Config, s: State, a: Action)
    requires Enabled(c, s, a) && Traced(s) && AckedWerePopped(s)
    ensures AckedWerePopped(Apply(c, s, a))
  {
    if a.AckRemove? {
      assert Refers(s.procs[a.pid], s.procs[a.pid].entry.message);
    }
  }

  lemma {:induction false} AckedWerePoppedAlong(c: Config, s: State, acts: seq<Action>)
    requires Runs(c, s, acts) && Traced(s) && AckedWerePopped(s)
    ensures AckedWerePopped(After(c, s, acts))
    decreases acts
  {
    if acts != [] {
      TracedStep(c, s, acts[0]);
      AckedWerePoppedStep(c, s, acts[0]);
      AckedWerePoppedAlong(c, Apply(c, s, acts[0]), acts[1..]);
    }
  }

  /** `m`, published once and acknowledged, waits to be delivered again. */
  ghost predicate AckUndone(s: State, m: Message) {
    s.published == [m] && m in s.acked && m in List(s.store, m.topic)
  }

  /** While no consumer Nacks and no ZADD is refused, an Ack can be undone if and only if expiry may requeue: a
      pass that read the pending set before the Ack puts the message back. */
  lemma AckUndoneByExpiryIff(c: Config)
    ensures (exists s, m :: Leads(c, NoNack, INIT, s) && AckUndone(s, m)) <==> c.maxRetries > 1
  {
    if c.maxRetries > 1 {
      var s, e := ExpiringAt(c, 0, c.visibilityTimeout);
      var key := PelKey("t", "g");
      assert FirstWithId([e], "id") == Some(e);
      var s1 := Apply(c, s, BeginAck(1, "t", "g", "id"));
      LeadsStep(c, NoNack, INIT, s, BeginAck(1, "t", "g", "id"));
      var s2 := AckThenRevive(c, s1, key, e);
    } else if s, m :| Leads(c, NoNack, INIT, s) && AckUndone(s, m) {
      var acts :| Runs(c, INIT, acts) && After(c, INIT, acts) == s && AllAllowed(NoNack, acts);
      AckedWerePoppedAlong(c, INIT, acts);
      NoPutBacksAlong(c, INIT, acts);
      DeliveriesBalance(c, acts, m);
      assert false;
    }
  }

  lemma AckSends(c: Config, s: State, e: PendingEntry)
    requires 1 in s.procs && s.procs[1].Acking? && s.procs[1].entry == e
    ensures
      var s' := Apply(c, s, AckRemove(1));
      s'.procs == s.procs - {1} && s'.published == s.published && e.message in s'.acked
  {
  }

  lemma PassTakes(c: Config, s: State, e: PendingEntry)
    requires 0 in s.procs && s.procs[0].Expiring? && s.procs[0].entries == [e] && e.deliveryCount < c.maxRetries
    ensures
      var s' := Apply(c, s, Take(0));
      && Enabled(c, s', PushBack(0)) && InHand(s'.procs[0]) == Some(e.message)
      && s'.published == s.published && s'.acked == s.acked
  {
  }

  lemma NackSends(c: Config, s: State, e: PendingEntry)
    requires 0 in s.procs && s.procs[0].Nacking? && s.procs[0].entry == e
    ensures
      var s' := Apply(c, s, NackRemove(0));
      && Enabled(c, s', PushBack(0)) && InHand(s'.procs[0]) == Some(e.message)
      && s'.published == s.published && s'.acked == s.acked
  {
  }

  lemma PutBackLists(c: Config, s: State, m: Message)
    requires Enabled(c, s, PushBack(0)) && InHand(s.procs[0]) == Some(m)
    ensures
      var s' := Apply(c, s, PushBack(0));
      m in List(s'.store, m.topic) && s'.published == s.published && s'.acked == s.acked
  {
  }

  /** An Ack's ZREM followed by the expiry pass's ZREM and RPUSH of the same entry. */
  lemma AckThenRevive(c: Config, s: State, key: string, e: PendingEntry) returns (s': State)
    requires Leads(c, NoNack, INIT, s) && e.deliveryCount < c.maxRetries && s.published == [e.message]
    requires 0 in s.procs && s.procs[0].Expiring? && s.procs[0].entries == [e]
    requires 1 in s.procs && s.procs[1] == Acking(key, e)
    ensures Leads(c, NoNack, INIT, s') && AckUndone(s', e.message)
  {
    AckSends(c, s, e);
    var s1 := Apply(c, s, AckRemove(1));
    LeadsStep(c, NoNack, INIT, s, AckRemove(1));
    PassTakes(c, s1, e);
    var s2 := Apply(c, s1, Take(0));
    LeadsStep(c, NoNack, INIT, s1, Take(0));
    PutBackLists(c, s2, e.message);
    s' := Apply(c, s2, PushBack(0));
    LeadsStep(c, NoNack, INIT, s2, PushBack(0));
  }

  /** Whatever the configuration, an Ack can be undone with no expiry pass and no refused ZADD, by a Nack that found
      the entry before the Ack's ZREM. */
  lemma AckUndoneByNack(c: Config)
    ensures exists s, m :: Leads(c, NoSweep, INIT, s) && AckUndone(s, m)
  {
    var job, m := Job("t", "g", "c"), Message("id", "t", "");
    var s0 := PublishTheOne(c, NoSweep, m, 0);
    var s1, e := FetchTheOne(c, NoSweep, s0, job, m);
    LeadsOn(c, NoSweep, INIT, s0, s1);
    assert FirstWithId([e], "id") == Some(e);
    var s2 := Apply(c, s1, BeginNack(0, "t", "g", "id"));
    LeadsStep(c, NoSweep, INIT, s1, BeginNack(0, "t", "g", "id"));
    var s3 := Apply(c, s2, BeginAck(1, "t", "g", "id"));
    LeadsStep(c, NoSweep, INIT, s2, BeginAck(1, "t", "g", "id"));
    var s4 := AckThenPutBack(c, s3, PelKey("t", "g"), e);
  }

  /** An Ack's ZREM followed by the ZREM and RPUSH of a Nack of the same entry. */
  lemma AckThenPutBack(c: Config, s: State, key: string, e: PendingEntry) returns (s': State)
    requires Leads(c, NoSweep, INIT, s) && s.published == [e.message]
    requires 0 in s.procs && s.procs[0] == Nacking(key, e) && 1 in s.procs && s.procs[1] == Acking(key, e)
    ensures Leads(c, NoSweep, INIT, s') && AckUndone(s', e.message)
  {
    AckSends(c, s, e);
    var s1 := Apply(c, s, AckRemove(1));
    LeadsStep(c, NoSweep, INIT, s, AckRemove(1));
    NackSends(c, s1, e);
    var s2 := Apply(c, s1, NackRemove(0));
    LeadsStep(c, NoSweep, INIT, s1, NackRemove(0));
    PutBackLists(c, s2, e.message);
    s' := Apply(c, s2, PushBack(0));
    LeadsStep(c, NoSweep, INIT, s2, PushBack(0));
  }
}
