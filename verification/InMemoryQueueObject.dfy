/** The in-memory queue as an object with one caller at a time: its lifecycle, its error returns, and the
    dispatcher's loops. What publishers, handlers and Stop do to each other is in InMemoryQueue. */
module InMemoryQueueObject {
  import opened Messages
  import Q = InMemoryQueue

  datatype Error = QueueIsClosed | AlreadyRunning | NotStarted | PublishCancelled | ShuttingDown

  /** The case Publish's select takes: the send, the caller's context, or the queue's context. */
  datatype Selected = SendReady | CallerDone | QueueDone

  /** A handler goroutine the dispatcher starts. */
  datatype Spawned = Spawned(msg: Message, handler: nat)

  function SpawnedFor(m: Message, hs: seq<nat>): (r: seq<Spawned>)
    ensures |r| == |hs| && forall i :: 0 <= i < |hs| ==> r[i] == Spawned(m, hs[i])
  {
    seq(|hs|, i requires 0 <= i < |hs| => Spawned(m, hs[i]))
  }

  /** One goroutine per message and handler of its topic, in message order. */
  function SpawnedForAll(ms: seq<Message>, subscribers: map<string, seq<nat>>): seq<Spawned> {
    if ms == [] then []
    else SpawnedFor(ms[0], Q.HandlersOf(subscribers, ms[0].topic)) + SpawnedForAll(ms[1..], subscribers)
  }

  lemma SpawnedForHas(x: Message, hs: seq<nat>, m: Message, h: nat)
    ensures Spawned(m, h) in SpawnedFor(x, hs) <==> m == x && h in hs
  {
    var r := SpawnedFor(x, hs);
    if m == x && h in hs {
      var i :| 0 <= i < |hs| && hs[i] == h;
      assert r[i] == Spawned(m, h);
    }
  }

  /** A goroutine is started for a message and a handler exactly when the message is there and the handler is
      subscribed to its topic. */
  lemma {:induction false} SpawnedForAllHas(ms: seq<Message>, subscribers: map<string, seq<nat>>, m: Message, h: nat)
    ensures Spawned(m, h) in SpawnedForAll(ms, subscribers) <==> m in ms && h in Q.HandlersOf(subscribers, m.topic)
  {
    if ms != [] {
      assert ms == [ms[0]] + ms[1..];
      SpawnedForAllHas(ms[1..], subscribers, m, h);
      SpawnedForHas(ms[0], Q.HandlersOf(subscribers, ms[0].topic), m, h);
    }
  }

  lemma SpawnedForOne(m: Message, subscribers: map<string, seq<nat>>)
    ensures SpawnedForAll([m], subscribers) == SpawnedFor(m, Q.HandlersOf(subscribers, m.topic))
  {
    assert [m][1..] == [];
  }

  /** What is started for messages one after the other is started in that order. */
  lemma {:induction false} SpawnedForConcat(a: seq<Message>, b: seq<Message>, subscribers: map<string, seq<nat>>)
    ensures SpawnedForAll(a + b, subscribers) == SpawnedForAll(a, subscribers) + SpawnedForAll(b, subscribers)
  {
    if a == [] {
      assert a + b == b;
    } else {
      assert (a + b)[0] == a[0] && (a + b)[1..] == a[1..] + b;
      SpawnedForConcat(a[1..], b, subscribers);
      Assoc(SpawnedFor(a[0], Q.HandlersOf(subscribers, a[0].topic)), SpawnedForAll(a[1..], subscribers), SpawnedForAll(b, subscribers));
    }
  }

  /** Message by message, in channel order, one goroutine per handler of the topic, in subscription order. */
  lemma SpawnedInOrder(ms: seq<Message>, subscribers: map<string, seq<nat>>, k: nat)
    requires k < |ms|
    ensures
      var hs := Q.HandlersOf(subscribers, ms[k].topic);
      var before, all := |SpawnedForAll(ms[..k], subscribers)|, SpawnedForAll(ms, subscribers);
      && before + |hs| <= |all|
      && forall i :: 0 <= i < |hs| ==> all[before + i] == Spawned(ms[k], hs[i])
  {
    assert ms == ms[..k] + ([ms[k]] + ms[k + 1..]);
    SpawnedForConcat(ms[..k], [ms[k]] + ms[k + 1..], subscribers);
    SpawnedForConcat([ms[k]], ms[k + 1..], subscribers);
    SpawnedForOne(ms[k], subscribers);
  }

  class InMemoryQueue {
    const config: Q.Config
    var subscribers: map<string, seq<nat>>
    var messages: seq<Message>
    var spawned: seq<Spawned>
    var totalPublished: nat
    var running: bool
    var ctxDone: bool          // the context derived from Start's argument is cancelled
    var closed: bool
    var channelClosed: bool

    constructor (bufferSize: int, maxWorkers: int)
      ensures config == Q.NewConfig(bufferSize, maxWorkers)
      ensures subscribers == map[] && messages == [] && spawned == [] && totalPublished == 0
      ensures !running && !ctxDone && !closed && !channelClosed
    {
      config := Q.NewConfig(bufferSize, maxWorkers);
      subscribers, messages, spawned, totalPublished := map[], [], [], 0;
      running, ctxDone, closed, channelClosed := false, false, false, false;
    }

    method Start() returns (err: Option<Error>)
      modifies this`running, this`ctxDone
      ensures err == if closed then Some(QueueIsClosed) else if old(running) then Some(AlreadyRunning) else None
      ensures running == (old(running) || !closed)
      ensures ctxDone == (err != None && old(ctxDone))
    {
      if closed {
        return Some(QueueIsClosed);
      }
      var was := running;
      running := true;
      if was {
        return Some(AlreadyRunning);
      }
      ctxDone := false;
      err := None;
    }

    method Subscribe(topic: string, handler: nat) returns (err: Option<Error>)
      modifies this`subscribers
      ensures closed ==> err == Some(QueueIsClosed) && subscribers == old(subscribers)
      ensures !closed ==> err == None && Q.HandlersOf(subscribers, topic) == Q.HandlersOf(old(subscribers), topic) + [handler]
      ensures forall t :: t != topic ==> Q.HandlersOf(subscribers, t) == Q.HandlersOf(old(subscribers), t)
    {
      if closed {
        return Some(QueueIsClosed);
      }
      subscribers := subscribers[topic := Q.HandlersOf(subscribers, topic) + [handler]];
      err := None;
    }

    method Unsubscribe(topic: string)
      modifies this`subscribers
      ensures Q.HandlersOf(subscribers, topic) == []
      ensures forall t :: t != topic ==> Q.HandlersOf(subscribers, t) == Q.HandlersOf(old(subscribers), t)
    {
      subscribers := subscribers - {topic};
    }

    /** `chosen` is the case the select takes: the send when there is room in the channel, the others when their
        context is done. */
    method Publish(msg: Message, chosen: Selected) returns (err: Option<Error>)
      requires chosen == SendReady ==> |messages| < config.bufferSize
      modifies this`messages, this`totalPublished
      ensures err == if closed then Some(QueueIsClosed) else if !running then Some(NotStarted)
                     else if chosen == CallerDone then Some(PublishCancelled)
                     else if chosen == QueueDone then Some(ShuttingDown) else None
      ensures messages == old(messages) + (if err == None then [msg] else [])
      ensures totalPublished - old(totalPublished) == |messages| - |old(messages)|
    {
      if closed {
        return Some(QueueIsClosed);
      }
      if !running {
        return Some(NotStarted);
      }
      match chosen
      case CallerDone => return Some(PublishCancelled);
      case QueueDone => return Some(ShuttingDown);
      case SendReady =>
        messages := messages + [msg];
        totalPublished := totalPublished + 1;
        err := None;
    }

    method DispatchMessage(msg: Message)
      modifies this`spawned
      ensures spawned == old(spawned) + SpawnedFor(msg, Q.HandlersOf(subscribers, msg.topic))
    {
      var handlers := Q.HandlersOf(subscribers, msg.topic);
      for i := 0 to |handlers|
        invariant spawned == old(spawned) + SpawnedFor(msg, handlers[..i])
      {
        assert SpawnedFor(msg, handlers[..i + 1]) == SpawnedFor(msg, handlers[..i]) + [Spawned(msg, handlers[i])];
        Assoc(old(spawned), SpawnedFor(msg, handlers[..i]), [Spawned(msg, handlers[i])]);
        spawned := spawned + [Spawned(msg, handlers[i])];
      }
      assert handlers[..|handlers|] == handlers;
    }

    method DrainMessages()
      modifies this`messages, this`spawned
      ensures messages == []
      ensures spawned == old(spawned) + SpawnedForAll(old(messages), subscribers)
    {
      while messages != []
        invariant spawned + SpawnedForAll(messages, subscribers) == old(spawned) + SpawnedForAll(old(messages), subscribers)
        decreases |messages|
      {
        var msg := messages[0];
        messages := messages[1..];
        Assoc(spawned, SpawnedFor(msg, Q.HandlersOf(subscribers, msg.topic)), SpawnedForAll(messages, subscribers));
        DispatchMessage(msg);
      }
    }

    /** Cancelling the queue's context makes the dispatcher drain the channel and leave; doing it again changes
        nothing. */
    method CancelContext()
      requires running
      modifies this`messages, this`spawned, this`ctxDone
      ensures ctxDone
      ensures old(ctxDone) ==> messages == old(messages) && spawned == old(spawned)
      ensures !old(ctxDone) ==> messages == [] && spawned == old(spawned) + SpawnedForAll(old(messages), subscribers)
    {
      if !ctxDone {
        ctxDone := true;
        DrainMessages();
      }
    }

    /** With no publisher racing it, Stop leaves nothing in the channel and every message in it reaches every handler
        of its topic, unless the context was cancelled before: then what has been published since stays behind. */
    method Stop()
      modifies this`messages, this`spawned, this`running, this`ctxDone
      ensures !running
      ensures !old(running) || old(ctxDone) ==> messages == old(messages) && spawned == old(spawned)
      ensures old(running) && !old(ctxDone) ==> (
        && messages == [] && spawned == old(spawned) + SpawnedForAll(old(messages), subscribers)
        && forall m, h :: m in old(messages) && h in Q.HandlersOf(subscribers, m.topic) ==> Spawned(m, h) in spawned)
    {
      if !running {
        return;
      }
      forall m, h | m in messages && h in Q.HandlersOf(subscribers, m.topic)
        ensures Spawned(m, h) in SpawnedForAll(messages, subscribers)
      {
        SpawnedForAllHas(messages, subscribers, m, h);
      }
      CancelContext();
      running := false;
    }

    /** Close is idempotent; it stops the queue first and closes the channel last. */
    method Close()
      modifies this`messages, this`spawned, this`running, this`ctxDone, this`closed, this`channelClosed
      ensures closed
      ensures old(closed) ==> messages == old(messages) && spawned == old(spawned) && running == old(running)
                              && ctxDone == old(ctxDone) && channelClosed == old(channelClosed)
      ensures !old(closed) ==> !running && channelClosed
      ensures !old(closed) && (!old(running) || old(ctxDone)) ==> messages == old(messages) && spawned == old(spawned)
      ensures !old(closed) && old(running) && !old(ctxDone) ==>
        messages == [] && spawned == old(spawned) + SpawnedForAll(old(messages), subscribers)
    {
      var was := closed;
      closed := true;
      if was {
        return;
      }
      Stop();
      channelClosed := true;
    }
  }
}
