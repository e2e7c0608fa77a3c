/** First deliveries happen in publish order, per topic, however many requeues intervene. The list of a
    topic is always its never-delivered messages, newest first, followed by a stack of returned ones. */
module DeliveryOrder {
  import opened Messages
  import opened RedisStore
  import opened DeliveryMachine
  import opened NoLoss

  /** `l` carries message `m`, in hand or inside a snapshot it has read. */
  ghost predicate Refers(l: Local, m: Message) {
    InHand(l) == Some(m)
    || ((l.Acking? || l.Nacking? || l.Burying?) && l.entry.message == m)
    || ((l.Expiring? || l.Burying? || l.Reviving?) && Pends(l.entries, m))
  }

  /** Everything outside the lists has been popped at some point. */
  ghost predicate Traced(s: State) {
    && (forall k, e :: e in Pel(s.store, k) ==> e.message in s.popped)
    && (forall pid, m :: pid in s.procs && Refers(s.procs[pid], m) ==> m in s.popped)
  }

  ghost predicate ListsRouted(s: State) {
    forall t, m :: m in List(s.store, t) ==> m.topic == t
  }

  lemma LocalsTraced(c: Config, s: State, a: Action, m: Message)
    requires Enabled(c, s, a) && Traced(s)
    requires Actor(a).Some? && Actor(a).value in Apply(c, s, a).procs
    requires Refers(Apply(c, s, a).procs[Actor(a).value], m)
    ensures m in Apply(c, s, a).popped
  {
    var pid, s' := Actor(a).value, Apply(c, s, a);
    if pid in s.procs && Refers(s.procs[pid], m) {
    } else if a.Take? {
      TakeRefers(c, s, pid, m);
    }
  }

  lemma TakeRefers(c: Config, s: State, pid: nat, m: Message)
    requires Enabled(c, s, Take(pid)) && Refers(Apply(c, s, Take(pid)).procs[pid], m)
    ensures Refers(s.procs[pid], m)
  {
    var l := s.procs[pid];
    assert l.entries == [l.entries[0]] + l.entries[1..];
    if l.entries[0].message != m {
      var e :| e in l.entries[1..] && e.message == m;
      assert e in l.entries;
    }
  }

  lemma PelsTraced(c: Config, s: State, a: Action, k: string, e: PendingEntry)
    requires Enabled(c, s, a) && Traced(s) && e in Pel(Apply(c, s, a).store, k)
    ensures e.message in Apply(c, s, a).popped
  {
    if e !in Pel(s.store, k) {
      assert a.Pend? && e == s.procs[a.pid].entry;
      assert Refers(s.procs[a.pid], e.message);
    }
  }

  lemma TracedStep(c: Config, s: State, a: Action)
    requires Enabled(c, s, a) && Traced(s)
    ensures Traced(Apply(c, s, a))
  {
    var s' := Apply(c, s, a);
    forall k, e | e in Pel(s'.store, k) ensures e.message in s'.popped {
      PelsTraced(c, s, a, k, e);
    }
    forall pid, m | pid in s'.procs && Refers(s'.procs[pid], m) ensures m in s'.popped {
      if Actor(a) == Some(pid) {
        LocalsTraced(c, s, a, m);
      } else {
        OthersCameAlong(c, s, a, pid);
      }
    }
  }

  lemma ListsRoutedStep(c: Config, s: State, a: Action)
    requires Enabled(c, s, a) && ListsRouted(s)
    ensures ListsRouted(Apply(c, s, a))
  {
    var s' := Apply(c, s, a);
    forall t, m | m in List(s'.store, t) ensures m.topic == t {
      if m !in List(s.store, t) {
        assert a.Publish? || a.PushBack?;
      }
    }
  }

  lemma {:induction false} RoutedAlong(c: Config, s: State, acts: seq<Action>)
    requires Runs(c, s, acts) && ListsRouted(s)
    ensures ListsRouted(After(c, s, acts))
    decreases acts
  {
    if acts != [] {
      ListsRoutedStep(c, s, acts[0]);
      RoutedAlong(c, Apply(c, s, acts[0]), acts[1..]);
    }
  }

  /** In every reachable state every listed message is in the list of its own topic. */
  lemma ReachableRouted(c: Config, s: State)
    requires Reachable(c, s)
    ensures ListsRouted(s)
  {
    var acts :| Runs(c, INIT, acts) && After(c, INIT, acts) == s;
    RoutedAlong(c, INIT, acts);
  }

  lemma OtherActions(c: Config, s: State, a: Action)
    requires Enabled(c, s, a) && !a.Publish? && !a.PushBack? && !a.Pop?
    ensures
      var s' := Apply(c, s, a);
      s'.store.lists == s.store.lists && s'.published == s.published && s'.popped == s.popped
  {
  }

  // ---------------------------------------------------------------- the list as a queue behind a stack

  /** A topic as it should be served: a first-in-first-out queue of messages waiting for their first delivery,
      behind a stack of returned ones. `first` is the first deliveries so far. */
  datatype Line = Line(first: seq<Message>, waiting: seq<Message>, returned: seq<Message>)

  function Next(line: Line): Option<Message> {
    if line.returned != [] then Some(line.returned[|line.returned| - 1])
    else if line.waiting != [] then Some(line.waiting[0])
    else None
  }

  function Served(line: Line): Line {
    if line.returned != [] then line.(returned := line.returned[..|line.returned| - 1])
    else if line.waiting != [] then Line(line.first + [line.waiting[0]], line.waiting[1..], [])
    else line
  }

  /** What an action, seen from the topic `t`, does to its line. */
  ghost function LineStep(c: Config, s: State, a: Action, t: string, line: Line): Line
    requires Enabled(c, s, a)
  {
    match a
    case Publish(m) => if m.topic == t then line.(waiting := line.waiting + [m]) else line
    case Pop(pid) => if s.procs[pid].job.topic == t then Served(line) else line
    case PushBack(pid) =>
      var m := InHand(s.procs[pid]).value;
      if m.topic == t then line.(returned := line.returned + [m]) else line
    case _ => line
  }

  ghost function LineAfter(c: Config, s: State, acts: seq<Action>, t: string, line: Line): Line
    requires Runs(c, s, acts)
    decreases acts
  {
    if acts == [] then line else LineAfter(c, Apply(c, s, acts[0]), acts[1..], t, LineStep(c, s, acts[0], t, line))
  }

  ghost predicate Lined(list: seq<Message>, published: seq<Message>, line: Line) {
    list == Reverse(line.waiting) + line.returned && line.first + line.waiting == published
  }

  lemma LinedPublish(list: seq<Message>, published: seq<Message>, line: Line, m: Message)
    requires Lined(list, published, line)
    ensures Lined([m] + list, published + [m], line.(waiting := line.waiting + [m]))
  {
    assert Reverse(line.waiting + [m]) == [m] + Reverse(line.waiting);
    Assoc([m], Reverse(line.waiting), line.returned);
    Assoc(line.first, line.waiting, [m]);
  }

  lemma LinedPop(list: seq<Message>, published: seq<Message>, line: Line)
    requires Lined(list, published, line) && list != []
    ensures Next(line) == Some(list[|list| - 1])
    ensures Lined(list[..|list| - 1], published, Served(line))
  {
    var w := line.waiting;
    if line.returned == [] {
      assert list == Reverse(w);
      assert list[..|list| - 1] == Reverse(w[1..]) + [];
      assert w == [w[0]] + w[1..];
      Assoc(line.first, [w[0]], w[1..]);
    }
  }

  lemma LinedPushBack(list: seq<Message>, published: seq<Message>, line: Line, m: Message)
    requires Lined(list, published, line)
    ensures Lined(list + [m], published, line.(returned := line.returned + [m]))
  {
    Assoc(Reverse(line.waiting), line.returned, [m]);
  }

  lemma LinedPublishStep(c: Config, s: State, m: Message, t: string, line: Line)
    requires Lined(List(s.store, t), OnTopic(s.published, t), line)
    ensures
      var s' := Apply(c, s, Publish(m));
      Lined(List(s'.store, t), OnTopic(s'.published, t), LineStep(c, s, Publish(m), t, line))
  {
    OnTopicAppend(s.published, m, t);
    if m.topic == t {
      LinedPublish(List(s.store, t), OnTopic(s.published, t), line, m);
    }
  }

  lemma LinedPopStep(c: Config, s: State, pid: nat, t: string, line: Line)
    requires Enabled(c, s, Pop(pid)) && Lined(List(s.store, t), OnTopic(s.published, t), line)
    ensures
      var s' := Apply(c, s, Pop(pid));
      Lined(List(s'.store, t), OnTopic(s'.published, t), LineStep(c, s, Pop(pid), t, line))
  {
    if List(s.store, t) != [] {
      LinedPop(List(s.store, t), OnTopic(s.published, t), line);
    }
  }

  lemma LinedPushBackStep(c: Config, s: State, pid: nat, t: string, line: Line)
    requires Enabled(c, s, PushBack(pid)) && Lined(List(s.store, t), OnTopic(s.published, t), line)
    ensures
      var s' := Apply(c, s, PushBack(pid));
      Lined(List(s'.store, t), OnTopic(s'.published, t), LineStep(c, s, PushBack(pid), t, line))
  {
    var m := InHand(s.procs[pid]).value;
    assert Apply(c, s, PushBack(pid)).store == RPush(s.store, m);
    LinedPushBack(List(s.store, t), OnTopic(s.published, t), line, m);
  }

  lemma LinedStep(c: Config, s: State, a: Action, t: string, line: Line)
    requires Enabled(c, s, a) && Lined(List(s.store, t), OnTopic(s.published, t), line)
    ensures
      var s' := Apply(c, s, a);
      Lined(List(s'.store, t), OnTopic(s'.published, t), LineStep(c, s, a, t, line))
  {
    match a
    case Publish(m) => LinedPublishStep(c, s, m, t, line);
    case Pop(pid) => LinedPopStep(c, s, pid, t, line);
    case PushBack(pid) => LinedPushBackStep(c, s, pid, t, line);
    case _ => OtherActions(c, s, a);
  }

  lemma {:induction false} LinedAlong(c: Config, s: State, acts: seq<Action>, t: string, line: Line)
    requires Runs(c, s, acts) && Lined(List(s.store, t), OnTopic(s.published, t), line)
    ensures
      var s' := After(c, s, acts);
      Lined(List(s'.store, t), OnTopic(s'.published, t), LineAfter(c, s, acts, t, line))
    decreases acts
  {
    if acts != [] {
      LinedStep(c, s, acts[0], t, line);
      LinedAlong(c, Apply(c, s, acts[0]), acts[1..], t, LineStep(c, s, acts[0], t, line));
    }
  }

  /** In every run, identical messages included, each topic's list refines its line: what BRPOP hands out next is
      the last message returned, or else the oldest one never handed out, and first deliveries happen in publish
      order. */
  lemma TopicIsQueueBehindStack(c: Config, acts: seq<Action>, t: string)
    requires Runs(c, INIT, acts)
    ensures
      var s, line := After(c, INIT, acts), LineAfter(c, INIT, acts, t, Line([], [], []));
      && List(s.store, t) == Reverse(line.waiting) + line.returned
      && Next(line) == (if List(s.store, t) == [] then None else Some(Last(s.store, t)))
      && line.first + line.waiting == OnTopic(s.published, t)
  {
    var line0 := Line([], [], []);
    assert Reverse<Message>([]) + [] == [];
    LinedAlong(c, INIT, acts, t, line0);
    var s, line := After(c, INIT, acts), LineAfter(c, INIT, acts, t, line0);
    if List(s.store, t) != [] {
      LinedPop(List(s.store, t), OnTopic(s.published, t), line);
    }
  }

  /** What a line recalls of the deliveries: what it has handed out and what was returned to it has been popped, and
      its first deliveries are the first occurrences among all deliveries of the topic. */
  ghost predicate Recalls(s: State, t: string, line: Line) {
    && (forall m :: m in line.first ==> m in s.popped)
    && (forall m :: m in line.returned ==> m in s.popped)
    && Firsts(OnTopic(s.popped, t)) == Firsts(line.first)
  }

  lemma RecallsPop(c: Config, s: State, pid: nat, t: string, line: Line)
    requires Enabled(c, s, Pop(pid)) && ListsRouted(s) && s.procs[pid].job.topic == t && List(s.store, t) != []
    requires Lined(List(s.store, t), OnTopic(s.published, t), line) && Recalls(s, t, line)
    ensures Recalls(Apply(c, s, Pop(pid)), t, Served(line))
  {
    var m := Last(s.store, t);
    assert m in List(s.store, t) && m.topic == t;
    LinedPop(List(s.store, t), OnTopic(s.published, t), line);
    OnTopicAppend(s.popped, m, t);
    FirstsAppend(OnTopic(s.popped, t), m);
    if line.returned == [] {
      assert m in OnTopic(s.popped, t) <==> m in Firsts(OnTopic(s.popped, t));
      assert m in line.first <==> m in Firsts(line.first);
      FirstsAppend(line.first, m);
    }
  }

  lemma RecallsElsewhere(c: Config, s: State, pid: nat, t: string, line: Line)
    requires Enabled(c, s, Pop(pid)) && ListsRouted(s) && Recalls(s, t, line)
    requires s.procs[pid].job.topic != t && List(s.store, s.procs[pid].job.topic) != []
    ensures Recalls(Apply(c, s, Pop(pid)), t, line)
  {
    var m := Last(s.store, s.procs[pid].job.topic);
    assert m in List(s.store, s.procs[pid].job.topic);
    OnTopicAppend(s.popped, m, t);
  }

  lemma RecallsPushBack(c: Config, s: State, pid: nat, t: string, line: Line)
    requires Enabled(c, s, PushBack(pid)) && Traced(s) && Recalls(s, t, line)
    ensures Recalls(Apply(c, s, PushBack(pid)), t, LineStep(c, s, PushBack(pid), t, line))
  {
    assert Refers(s.procs[pid], InHand(s.procs[pid]).value);
    assert Apply(c, s, PushBack(pid)).popped == s.popped;
  }

  lemma RecallsStep(c: Config, s: State, a: Action, t: string, line: Line)
    requires Enabled(c, s, a) && Traced(s) && ListsRouted(s)
    requires Lined(List(s.store, t), OnTopic(s.published, t), line) && Recalls(s, t, line)
    ensures Recalls(Apply(c, s, a), t, LineStep(c, s, a, t, line))
  {
    match a
    case Pop(pid) =>
      if List(s.store, s.procs[pid].job.topic) != [] {
        if s.procs[pid].job.topic == t {
          RecallsPop(c, s, pid, t, line);
        } else {
          RecallsElsewhere(c, s, pid, t, line);
        }
      }
    case PushBack(pid) => RecallsPushBack(c, s, pid, t, line);
    case Publish(_) =>
    case _ => OtherActions(c, s, a);
  }

  lemma {:induction false} RecallsAlong(c: Config, s: State, acts: seq<Action>, t: string, line: Line)
    requires Runs(c, s, acts) && Traced(s) && ListsRouted(s)
    requires Lined(List(s.store, t), OnTopic(s.published, t), line) && Recalls(s, t, line)
    ensures Recalls(After(c, s, acts), t, LineAfter(c, s, acts, t, line))
    decreases acts
  {
    if acts != [] {
      TracedStep(c, s, acts[0]);
      ListsRoutedStep(c, s, acts[0]);
      LinedStep(c, s, acts[0], t, line);
      RecallsStep(c, s, acts[0], t, line);
      RecallsAlong(c, Apply(c, s, acts[0]), acts[1..], t, LineStep(c, s, acts[0], t, line));
    }
  }

  /** The first `n` messages published to the topic have been delivered. The list holds the others, newest first, and
      after them, at the end that is popped, only messages delivered before; and the first deliveries are the first
      occurrences among the `n`. */
  ghost predicate FreshThenStack(s: State, t: string, n: nat) {
    var pub, list := OnTopic(s.published, t), List(s.store, t);
    && n <= |pub| && |pub| - n <= |list|
    && list[..|pub| - n] == Reverse(pub[n..])
    && (forall i :: |pub| - n <= i < |list| ==> list[i] in s.popped)
    && (forall i :: 0 <= i < n ==> pub[i] in s.popped)
    && Firsts(OnTopic(s.popped, t)) == Firsts(pub[..n])
  }

  /** In every run each topic's list is its messages not yet delivered, newest first, followed by messages delivered
      before. */
  lemma ReachableShape(c: Config, s: State, t: string)
    requires Reachable(c, s)
    ensures exists n :: FreshThenStack(s, t, n)
  {
    var acts :| Runs(c, INIT, acts) && After(c, INIT, acts) == s;
    var line0 := Line([], [], []);
    assert Reverse<Message>([]) + [] == [];
    LinedAlong(c, INIT, acts, t, line0);
    RecallsAlong(c, INIT, acts, t, line0);
    ShapeOfLine(s, t, LineAfter(c, INIT, acts, t, line0));
  }

  lemma ShapeOfLine(s: State, t: string, line: Line)
    requires Lined(List(s.store, t), OnTopic(s.published, t), line) && Recalls(s, t, line)
    ensures FreshThenStack(s, t, |line.first|)
  {
    var pub, list, n := OnTopic(s.published, t), List(s.store, t), |line.first|;
    assert pub[..n] == line.first && pub[n..] == line.waiting;
    assert list[..|pub| - n] == Reverse(line.waiting);
    forall i | |pub| - n <= i < |list| ensures list[i] in s.popped {
      assert list[i] == line.returned[i - |line.waiting|];
    }
    forall i | 0 <= i < n ensures pub[i] in s.popped {
      assert pub[i] == line.first[i];
    }
  }

  lemma {:induction false} FirstsPrefix(b: seq<Message>, n: nat)
    requires n <= |b|
    ensures Firsts(b[..n]) <= Firsts(b)
    decreases |b|
  {
    if n == |b| {
      assert b[..n] == b;
    } else {
      assert b[..|b| - 1][..n] == b[..n];
      FirstsPrefix(b[..|b| - 1], n);
    }
  }

  /** The first deliveries of a topic, in the order they happened, are a prefix of the first publishes to it: no
      message is handed out for the first time before one first published earlier has been. */
  lemma FirstDeliveriesInPublishOrder(c: Config, s: State, t: string)
    requires Reachable(c, s)
    ensures Firsts(OnTopic(s.popped, t)) <= Firsts(OnTopic(s.published, t))
  {
    ReachableShape(c, s, t);
    var n :| FreshThenStack(s, t, n);
    FirstsPrefix(OnTopic(s.published, t), n);
  }

  /** All that waits are the latest publishes, newest first; all published before has been delivered. */
  ghost predicate OnlyFreshWait(s: State, t: string) {
    var pub, list := OnTopic(s.published, t), List(s.store, t);
    && |list| <= |pub| && list == Reverse(pub[|pub| - |list|..])
    && forall i :: 0 <= i < |pub| - |list| ==> pub[i] in s.popped
  }

  lemma LastIsOldest(s: State, t: string, n: nat)
    requires FreshThenStack(s, t, n) && List(s.store, t) != [] && Last(s.store, t) !in s.popped
    ensures OnlyFreshWait(s, t)
  {
    var pub, list := OnTopic(s.published, t), List(s.store, t);
    assert |pub| - n == |list|;
    assert list[..|list|] == list;
  }

  /** A message is delivered for the first time only when nothing returned waits on its topic: all that waits are the
      latest publishes, it is the oldest of them, and all published before it has been delivered. */
  lemma RequeuedGoFirst(c: Config, s: State, pid: nat)
    requires Reachable(c, s) && Enabled(c, s, Pop(pid)) && List(s.store, s.procs[pid].job.topic) != []
    ensures
      var t := s.procs[pid].job.topic;
      Last(s.store, t) !in s.popped ==>
        OnlyFreshWait(s, t) && Last(s.store, t) == OnTopic(s.published, t)[|OnTopic(s.published, t)| - |List(s.store, t)|]
  {
    FirstDeliveryOf(c, s, s.procs[pid].job.topic);
  }

  lemma FirstDeliveryOf(c: Config, s: State, t: string)
    requires Reachable(c, s) && List(s.store, t) != []
    ensures Last(s.store, t) !in s.popped ==>
      OnlyFreshWait(s, t) && Last(s.store, t) == OnTopic(s.published, t)[|OnTopic(s.published, t)| - |List(s.store, t)|]
  {
    ReachableShape(c, s, t);
    var n :| FreshThenStack(s, t, n);
    if Last(s.store, t) !in s.popped {
      LastIsOldest(s, t, n);
    }
  }
}
