/** The in-memory queue as a machine over its atomic steps: publishers sending into a bounded channel, one
    dispatcher, a bounded pool of handler goroutines, a wait group, a context that Stop or its parent may cancel,
    and a Stop that waits. */
module InMemoryQueue {
  import opened Messages

  datatype Config = Config(bufferSize: nat, maxWorkers: nat)

  /** Sizes that are not positive are replaced by the defaults. */
  function NewConfig(bufferSize: int, maxWorkers: int): (c: Config)
    ensures c.bufferSize > 0 && c.maxWorkers > 0
    ensures c.bufferSize == bufferSize || (bufferSize <= 0 && c.bufferSize == 1000)
    ensures c.maxWorkers == maxWorkers || (maxWorkers <= 0 && c.maxWorkers == 100)
  {
    Config(if bufferSize <= 0 then 1000 else bufferSize, if maxWorkers <= 0 then 100 else maxWorkers)
  }

  datatype Outcome = Succeeds | Fails | Panics

  /** Where a handler goroutine stands: body running; body ended; result counted; wait group signalled; slot
      given back. A panic is counted only after all of that. */
  datatype Phase = Running | Ended(o: Outcome) | Counted(o: Outcome) | Signalled(o: Outcome) | Released(o: Outcome) | PanicCounted

  /** A handler run, for the `index`-th message dispatched. */
  datatype Run = Run(index: nat, handler: nat, phase: Phase)

  /** A message with the handlers found for its topic when it was dispatched. */
  datatype Dispatch = Dispatch(msg: Message, handlers: seq<nat>)

  datatype Dispatcher =
    | Selecting                                         // at processMessages' select
    | Holding(draining: bool, msg: Message)             // message received, subscribers not yet read
    | Spawning(draining: bool, handlers: seq<nat>)      // in dispatchMessage's loop, with the handlers to go
    | Slotting(draining: bool, handlers: seq<nat>)      // wg.Add(1) done for handlers[0], waiting for a slot
    | Draining                                          // at drainMessages' select
    | Leaving                                           // drainMessages returned, wg.Done outstanding
    | Gone

  datatype StopState = NotStopped | Waiting | Returned

  /** `ctxDone`: the queue's context is cancelled, by Stop or through the context Start was given. `sent`,
      `dispatched`, `cancelMark` and `drainMark` are history: every send, every dispatch, and how much had been
      sent when the context was last cancelled anew and when the drain last found the channel empty. */
  datatype State = State(
    buffer: seq<Message>, subscribers: map<string, seq<nat>>, dispatcher: Dispatcher, runs: seq<Run>,
    wg: int, slots: nat, uncounted: nat, totalPublished: nat, totalDelivered: nat, totalErrors: nat,
    ctxDone: bool, stop: StopState, sent: seq<Message>, dispatched: seq<Dispatch>, cancelMark: nat, drainMark: nat)

  /** The queue just started: the dispatcher holds the one count of the wait group. */
  const STARTED := State([], map[], Selecting, [], 1, 0, 0, 0, 0, 0, false, NotStopped, [], [], 0, 0)

  datatype Action =
    | Subscribe(topic: string, handler: nat)
    | Unsubscribe(topic: string)
    | Send(msg: Message)
    | CountSend
    | Receive
    | Lookup
    | AddWait
    | Spawn
    | DispatchDone
    | SeeCancel
    | DrainTake
    | DrainEnd
    | DispatcherExit
    | BodyEnds(i: nat, o: Outcome)
    | CountRun(i: nat)
    | SignalRun(i: nat)
    | ReleaseSlot(i: nat)
    | CountPanic(i: nat)
    | ParentCancels
    | StopCancels
    | StopReturns
    | Restart

  predicate InPhase(s: State, i: nat, p: Phase) {
    i < |s.runs| && s.runs[i].phase == p
  }

  predicate Enabled(c: Config, s: State, a: Action) {
    match a
    case Subscribe(_, _) => true
    case Unsubscribe(_) => true
    case Send(_) => |s.buffer| < c.bufferSize
    case CountSend => s.uncounted > 0
    case Receive => s.dispatcher.Selecting? && s.buffer != []
    case SeeCancel => s.dispatcher.Selecting? && s.ctxDone
    case DrainTake => s.dispatcher.Draining? && s.buffer != []
    case DrainEnd => s.dispatcher.Draining? && s.buffer == []
    case DispatcherExit => s.dispatcher.Leaving?
    case Lookup => s.dispatcher.Holding?
    case AddWait => s.dispatcher.Spawning? && s.dispatcher.handlers != []
    case DispatchDone => s.dispatcher.Spawning? && s.dispatcher.handlers == []
    case Spawn => s.dispatcher.Slotting? && s.dispatcher.handlers != [] && s.slots < c.maxWorkers
    case BodyEnds(i, _) => InPhase(s, i, Running)
    case CountRun(i) => InPhase(s, i, Ended(Succeeds)) || InPhase(s, i, Ended(Fails))
    case SignalRun(i) => InPhase(s, i, Ended(Panics)) || (i < |s.runs| && s.runs[i].phase.Counted?)
    case ReleaseSlot(i) => i < |s.runs| && s.runs[i].phase.Signalled? && s.slots > 0
    case CountPanic(i) => InPhase(s, i, Released(Panics))
    case ParentCancels => true
    case StopCancels => s.stop == NotStopped
    case StopReturns => s.stop == Waiting && s.wg == 0
    case Restart => s.stop == Returned
  }

  function HandlersOf(subscribers: map<string, seq<nat>>, topic: string): seq<nat> {
    if topic in subscribers then subscribers[topic] else []
  }

  /** The index of the message being dispatched. */
  function LastIndex(ds: seq<Dispatch>): nat {
    if ds == [] then 0 else |ds| - 1
  }

  function Moved(s: State, i: nat, p: Phase): State
    requires i < |s.runs|
  {
    s.(runs := s.runs[i := s.runs[i].(phase := p)])
  }

  function Cancelled(s: State): State {
    if s.ctxDone then s else s.(ctxDone := true, cancelMark := |s.sent|)
  }

  function Apply(c: Config, s: State, a: Action): State
    requires Enabled(c, s, a)
  {
    match a
    case Subscribe(t, h) => s.(subscribers := s.subscribers[t := HandlersOf(s.subscribers, t) + [h]])
    case Unsubscribe(t) => s.(subscribers := s.subscribers - {t})
    case Send(m) => s.(buffer := s.buffer + [m], sent := s.sent + [m], uncounted := s.uncounted + 1)
    case CountSend => s.(uncounted := s.uncounted - 1, totalPublished := s.totalPublished + 1)
    case Receive => s.(buffer := s.buffer[1..], dispatcher := Holding(false, s.buffer[0]))
    case SeeCancel => s.(dispatcher := Draining)
    case DrainTake => s.(buffer := s.buffer[1..], dispatcher := Holding(true, s.buffer[0]))
    case DrainEnd => s.(dispatcher := Leaving, drainMark := |s.sent|)
    case DispatcherExit => s.(dispatcher := Gone, wg := s.wg - 1)
    case Lookup =>
      var m, hs := s.dispatcher.msg, HandlersOf(s.subscribers, s.dispatcher.msg.topic);
      s.(dispatcher := Spawning(s.dispatcher.draining, hs), dispatched := s.dispatched + [Dispatch(m, hs)])
    case AddWait => s.(dispatcher := Slotting(s.dispatcher.draining, s.dispatcher.handlers), wg := s.wg + 1)
    case Spawn =>
      var h := s.dispatcher.handlers[0];
      s.(dispatcher := Spawning(s.dispatcher.draining, s.dispatcher.handlers[1..]), slots := s.slots + 1,
         runs := s.runs + [Run(LastIndex(s.dispatched), h, Running)])
    case DispatchDone => s.(dispatcher := if s.dispatcher.draining then Draining else Selecting)
    case BodyEnds(i, o) => Moved(s, i, Ended(o))
    case CountRun(i) =>
      if s.runs[i].phase.o == Succeeds
      then Moved(s, i, Counted(Succeeds)).(totalDelivered := s.totalDelivered + 1)
      else Moved(s, i, Counted(Fails)).(totalErrors := s.totalErrors + 1)
    case SignalRun(i) => Moved(s, i, Signalled(s.runs[i].phase.o)).(wg := s.wg - 1)
    case ReleaseSlot(i) => Moved(s, i, Released(s.runs[i].phase.o)).(slots := s.slots - 1)
    case CountPanic(i) => Moved(s, i, PanicCounted).(totalErrors := s.totalErrors + 1)
    case ParentCancels => Cancelled(s)
    case StopCancels => Cancelled(s).(stop := Waiting)
    case StopReturns => s.(stop := Returned)
    // Start on a stopped queue: a new context and a new dispatcher on the same channel.
    case Restart => s.(stop := NotStopped, ctxDone := false, dispatcher := Selecting, wg := s.wg + 1)
  }

  predicate Runs(c: Config, s: State, acts: seq<Action>)
    decreases |acts|
  {
    acts == [] || (Enabled(c, s, acts[0]) && Runs(c, Apply(c, s, acts[0]), acts[1..]))
  }

  function After(c: Config, s: State, acts: seq<Action>): State
    requires Runs(c, s, acts)
    decreases |acts|
  {
    if acts == [] then s else After(c, Apply(c, s, acts[0]), acts[1..])
  }

  ghost predicate Reachable(c: Config, s: State) {
    exists acts :: Runs(c, STARTED, acts) && After(c, STARTED, acts) == s
  }

  // ---------------------------------------------------------------- counting runs

  datatype Share = OfWait | OfSlots | OfDelivered | OfErrors | OfSteps

  /** What a run in a phase contributes to the wait group, the slots in use, the two counters and the steps that
      handler goroutines have to make before they have given back their slots. */
  function Weight(w: Share, p: Phase): nat {
    match w
    case OfWait => if p.Running? || p.Ended? || p.Counted? then 1 else 0
    case OfSlots => if p.Released? || p.PanicCounted? then 0 else 1
    case OfDelivered => if (p.Counted? || p.Signalled? || p.Released?) && p.o == Succeeds then 1 else 0
    case OfErrors => if p.PanicCounted? || ((p.Counted? || p.Signalled? || p.Released?) && p.o == Fails) then 1 else 0
    case OfSteps => if p.Running? then 4 else if p.Ended? then 3 else if p.Counted? then 2 else if p.Signalled? then 1 else 0
  }

  function Sum(w: Share, runs: seq<Run>): nat {
    if runs == [] then 0 else Sum(w, runs[..|runs| - 1]) + Weight(w, runs[|runs| - 1].phase)
  }

  lemma SumAppend(w: Share, runs: seq<Run>, r: Run)
    ensures Sum(w, runs + [r]) == Sum(w, runs) + Weight(w, r.phase)
  {
    assert (runs + [r])[..|runs|] == runs;
  }

  lemma {:induction false} SumUpdate(w: Share, runs: seq<Run>, i: nat, r: Run)
    requires i < |runs|
    ensures Sum(w, runs[i := r]) + Weight(w, runs[i].phase) == Sum(w, runs) + Weight(w, r.phase)
  {
    var n := |runs| - 1;
    if i < n {
      SumUpdate(w, runs[..n], i, r);
      assert runs[i := r][..n] == runs[..n][i := r];
    } else {
      assert runs[i := r][..n] == runs[..n];
    }
  }

  lemma {:induction false} SumZero(w: Share, runs: seq<Run>, i: nat)
    requires Sum(w, runs) == 0 && i < |runs|
    ensures Weight(w, runs[i].phase) == 0
  {
    var n := |runs| - 1;
    if i < n {
      SumZero(w, runs[..n], i);
      assert runs[..n][i] == runs[i];
    }
  }

  /** A run that panicked and is not yet counted, or one whose body runs or whose result waits to be counted. */
  predicate NotYetCounted(p: Phase) {
    p.Running? || p.Ended? || ((p.Signalled? || p.Released?) && p.o == Panics)
  }

  function Uncounted(runs: seq<Run>): nat {
    if runs == [] then 0 else Uncounted(runs[..|runs| - 1]) + if NotYetCounted(runs[|runs| - 1].phase) then 1 else 0
  }

  predicate PhaseOk(p: Phase) {
    p.Counted? ==> p.o != Panics
  }

  lemma {:induction false} CountersSplit(runs: seq<Run>)
    requires forall i :: 0 <= i < |runs| ==> PhaseOk(runs[i].phase)
    ensures Sum(OfDelivered, runs) + Sum(OfErrors, runs) + Uncounted(runs) == |runs|
  {
    if runs != [] {
      assert PhaseOk(runs[|runs| - 1].phase);
      CountersSplit(runs[..|runs| - 1]);
    }
  }

  // ---------------------------------------------------------------- invariants

  function HeldMessages(d: Dispatcher): seq<Message> {
    if d.Holding? then [d.msg] else []
  }

  /** The handlers of the message being dispatched that have no run yet. */
  function ToSpawn(d: Dispatcher): seq<nat> {
    if d.Spawning? || d.Slotting? then d.handlers else []
  }

  function DispatchedMessages(ds: seq<Dispatch>): (r: seq<Message>)
    ensures |r| == |ds| && forall i :: 0 <= i < |ds| ==> r[i] == ds[i].msg
  {
    seq(|ds|, i requires 0 <= i < |ds| => ds[i].msg)
  }

  /** The runs the dispatches call for: one per handler, in dispatch order. */
  function Wanted(ds: seq<Dispatch>): seq<(nat, nat)> {
    if ds == [] then []
    else Wanted(ds[..|ds| - 1]) + Tagged(|ds| - 1, ds[|ds| - 1].handlers)
  }

  function Tagged(index: nat, hs: seq<nat>): (r: seq<(nat, nat)>)
    ensures |r| == |hs| && forall i :: 0 <= i < |hs| ==> r[i] == (index, hs[i])
  {
    seq(|hs|, i requires 0 <= i < |hs| => (index, hs[i]))
  }

  function Started(runs: seq<Run>): (r: seq<(nat, nat)>)
    ensures |r| == |runs| && forall i :: 0 <= i < |runs| ==> r[i] == (runs[i].index, runs[i].handler)
  {
    seq(|runs|, i requires 0 <= i < |runs| => (runs[i].index, runs[i].handler))
  }

  /** The wait group counts the dispatcher, the run being set up, and every run that has not signalled. */
  ghost predicate WaitOk(s: State) {
    s.wg == Sum(OfWait, s.runs) + (if s.dispatcher.Gone? then 0 else 1) + (if s.dispatcher.Slotting? then 1 else 0)
  }

  ghost predicate CountsOk(c: Config, s: State) {
    && s.slots == Sum(OfSlots, s.runs) <= c.maxWorkers
    && s.totalDelivered == Sum(OfDelivered, s.runs)
    && s.totalErrors == Sum(OfErrors, s.runs)
    && s.totalPublished + s.uncounted == |s.sent|
    && forall i :: 0 <= i < |s.runs| ==> PhaseOk(s.runs[i].phase)
  }

  /** Nothing the channel carried is out of place, and every dispatch gets exactly its runs. */
  ghost predicate FlowOk(c: Config, s: State) {
    && DispatchedMessages(s.dispatched) + HeldMessages(s.dispatcher) + s.buffer == s.sent
    && |s.buffer| <= c.bufferSize
    && Started(s.runs) + Tagged(LastIndex(s.dispatched), ToSpawn(s.dispatcher)) == Wanted(s.dispatched)
    && (s.dispatcher.Slotting? ==> s.dispatcher.handlers != [])
  }

  ghost predicate MarksOk(s: State) {
    && s.cancelMark <= |s.sent|
    && (s.dispatcher.Draining? || s.dispatcher.Leaving? || s.dispatcher.Gone? ==> s.ctxDone)
    && ((s.dispatcher.Holding? || s.dispatcher.Spawning? || s.dispatcher.Slotting?) && s.dispatcher.draining ==> s.ctxDone)
    && (s.dispatcher.Leaving? || s.dispatcher.Gone? ==>
          s.cancelMark <= s.drainMark == |s.dispatched| <= |s.sent|)
    && (s.stop == Returned ==> s.wg == 0)
    && (s.stop != NotStopped ==> s.ctxDone)
  }

  ghost predicate Inv(c: Config, s: State) {
    WaitOk(s) && CountsOk(c, s) && FlowOk(c, s) && MarksOk(s)
  }

  lemma MovedSum(s: State, i: nat, p: Phase, w: Share)
    requires i < |s.runs|
    ensures Sum(w, Moved(s, i, p).runs) + Weight(w, s.runs[i].phase) == Sum(w, s.runs) + Weight(w, p)
  {
    SumUpdate(w, s.runs, i, s.runs[i].(phase := p));
  }

  lemma MovedStarted(s: State, i: nat, p: Phase)
    requires i < |s.runs|
    ensures Started(Moved(s, i, p).runs) == Started(s.runs)
  {
  }

  lemma RunWaitStep(s: State, s': State, i: nat, p: Phase)
    requires WaitOk(s) && i < |s.runs| && s'.runs == Moved(s, i, p).runs && s'.dispatcher == s.dispatcher
    requires s'.wg + Weight(OfWait, s.runs[i].phase) == s.wg + Weight(OfWait, p)
    ensures WaitOk(s')
  {
    MovedSum(s, i, p, OfWait);
  }

  /** A stopped queue's dispatcher is gone, so Start's wg.Add gives the new one its count. */
  lemma RestartWait(c: Config, s: State)
    requires Enabled(c, s, Restart) && WaitOk(s) && MarksOk(s)
    ensures s.dispatcher.Gone? && WaitOk(Apply(c, s, Restart))
  {
    ZeroWait(s);
  }

  lemma RunWait(c: Config, s: State, a: Action)
    requires a.BodyEnds? || a.CountRun? || a.SignalRun? || a.ReleaseSlot? || a.CountPanic?
    requires Enabled(c, s, a) && WaitOk(s)
    ensures WaitOk(Apply(c, s, a))
  {
    RunWaitStep(s, Apply(c, s, a), a.i, Apply(c, s, a).runs[a.i].phase);
  }

  lemma SpawnWait(c: Config, s: State)
    requires Enabled(c, s, Spawn) && WaitOk(s)
    ensures WaitOk(Apply(c, s, Spawn))
  {
    SumAppend(OfWait, s.runs, Apply(c, s, Spawn).runs[|s.runs|]);
  }

  lemma OtherWait(c: Config, s: State, a: Action)
    requires !a.BodyEnds? && !a.CountRun? && !a.SignalRun? && !a.ReleaseSlot? && !a.CountPanic? && !a.Spawn? && !a.Restart?
    requires Enabled(c, s, a) && WaitOk(s)
    ensures WaitOk(Apply(c, s, a))
  {
    assert Apply(c, s, a).runs == s.runs;
  }

  lemma WaitStep(c: Config, s: State, a: Action)
    requires Enabled(c, s, a) && WaitOk(s) && MarksOk(s)
    ensures WaitOk(Apply(c, s, a))
  {
    match a
    case BodyEnds(_, _) => RunWait(c, s, a);
    case CountRun(_) => RunWait(c, s, a);
    case SignalRun(_) => RunWait(c, s, a);
    case ReleaseSlot(_) => RunWait(c, s, a);
    case CountPanic(_) => RunWait(c, s, a);
    case Spawn => SpawnWait(c, s);
    case Restart => RestartWait(c, s);
    case _ => OtherWait(c, s, a);
  }

  /** A run's step keeps the counters when what they change by is what its weights change by. */
  lemma RunCountsStep(c: Config, s: State, s': State, i: nat, p: Phase)
    requires CountsOk(c, s) && i < |s.runs| && PhaseOk(p)
    requires s'.runs == Moved(s, i, p).runs && s'.totalPublished == s.totalPublished
    requires s'.uncounted == s.uncounted && s'.sent == s.sent
    requires s'.slots + Weight(OfSlots, s.runs[i].phase) == s.slots + Weight(OfSlots, p) && s'.slots <= c.maxWorkers
    requires s'.totalDelivered + Weight(OfDelivered, s.runs[i].phase) == s.totalDelivered + Weight(OfDelivered, p)
    requires s'.totalErrors + Weight(OfErrors, s.runs[i].phase) == s.totalErrors + Weight(OfErrors, p)
    ensures CountsOk(c, s')
  {
    MovedSum(s, i, p, OfSlots);
    MovedSum(s, i, p, OfDelivered);
    MovedSum(s, i, p, OfErrors);
  }

  lemma SpawnCounts(c: Config, s: State)
    requires Enabled(c, s, Spawn) && CountsOk(c, s)
    ensures CountsOk(c, Apply(c, s, Spawn))
  {
    var r := Apply(c, s, Spawn).runs[|s.runs|];
    SumAppend(OfSlots, s.runs, r);
    SumAppend(OfDelivered, s.runs, r);
    SumAppend(OfErrors, s.runs, r);
  }

  lemma EndCounts(c: Config, s: State, i: nat, o: Outcome)
    requires Enabled(c, s, BodyEnds(i, o)) && CountsOk(c, s)
    ensures CountsOk(c, Apply(c, s, BodyEnds(i, o)))
  {
    RunCountsStep(c, s, Apply(c, s, BodyEnds(i, o)), i, Ended(o));
  }

  lemma CountRunCounts(c: Config, s: State, i: nat)
    requires Enabled(c, s, CountRun(i)) && CountsOk(c, s)
    ensures CountsOk(c, Apply(c, s, CountRun(i)))
  {
    RunCountsStep(c, s, Apply(c, s, CountRun(i)), i, Counted(s.runs[i].phase.o));
  }

  lemma SignalCounts(c: Config, s: State, i: nat)
    requires Enabled(c, s, SignalRun(i)) && CountsOk(c, s)
    ensures CountsOk(c, Apply(c, s, SignalRun(i)))
  {
    assert PhaseOk(s.runs[i].phase);
    RunCountsStep(c, s, Apply(c, s, SignalRun(i)), i, Signalled(s.runs[i].phase.o));
  }

  lemma ReleaseCounts(c: Config, s: State, i: nat)
    requires Enabled(c, s, ReleaseSlot(i)) && CountsOk(c, s)
    ensures CountsOk(c, Apply(c, s, ReleaseSlot(i)))
  {
    RunCountsStep(c, s, Apply(c, s, ReleaseSlot(i)), i, Released(s.runs[i].phase.o));
  }

  lemma PanicCounts(c: Config, s: State, i: nat)
    requires Enabled(c, s, CountPanic(i)) && CountsOk(c, s)
    ensures CountsOk(c, Apply(c, s, CountPanic(i)))
  {
    RunCountsStep(c, s, Apply(c, s, CountPanic(i)), i, PanicCounted);
  }

  /** The other actions touch no run and no counter but that of sends. */
  lemma OtherCounts(c: Config, s: State, a: Action)
    requires Enabled(c, s, a) && CountsOk(c, s)
    requires !a.BodyEnds? && !a.CountRun? && !a.SignalRun? && !a.ReleaseSlot? && !a.CountPanic? && !a.Spawn?
    ensures CountsOk(c, Apply(c, s, a))
  {
    var s' := Apply(c, s, a);
    assert s'.runs == s.runs && s'.slots == s.slots && s'.totalDelivered == s.totalDelivered && s'.totalErrors == s.totalErrors;
  }

  lemma CountsStep(c: Config, s: State, a: Action)
    requires Enabled(c, s, a) && CountsOk(c, s)
    ensures CountsOk(c, Apply(c, s, a))
  {
    match a
    case BodyEnds(i, o) => EndCounts(c, s, i, o);
    case CountRun(i) => CountRunCounts(c, s, i);
    case SignalRun(i) => SignalCounts(c, s, i);
    case ReleaseSlot(i) => ReleaseCounts(c, s, i);
    case CountPanic(i) => PanicCounts(c, s, i);
    case Spawn => SpawnCounts(c, s);
    case _ => OtherCounts(c, s, a);
  }

  lemma LookupFlow(c: Config, s: State)
    requires Enabled(c, s, Lookup) && FlowOk(c, s)
    ensures FlowOk(c, Apply(c, s, Lookup))
  {
    var s' := Apply(c, s, Lookup);
    var ds := s'.dispatched;
    assert ds[..|ds| - 1] == s.dispatched;
    assert DispatchedMessages(ds) == DispatchedMessages(s.dispatched) + [s.dispatcher.msg];
    assert Started(s.runs) == Wanted(s.dispatched);
  }

  lemma TakeFlow(c: Config, s: State, a: Action)
    requires (a.Receive? || a.DrainTake?) && Enabled(c, s, a) && FlowOk(c, s)
    ensures FlowOk(c, Apply(c, s, a))
  {
    assert s.buffer == [s.buffer[0]] + s.buffer[1..];
  }

  lemma SpawnFlow(c: Config, s: State)
    requires Enabled(c, s, Spawn) && FlowOk(c, s)
    ensures FlowOk(c, Apply(c, s, Spawn))
  {
    var s' := Apply(c, s, Spawn);
    var index := LastIndex(s.dispatched);
    var hs := s.dispatcher.handlers;
    SpawnOne(s.runs, index, hs, Wanted(s.dispatched));
    assert s'.runs == s.runs + [Run(index, hs[0], Running)];
  }

  lemma SpawnOne(runs: seq<Run>, index: nat, hs: seq<nat>, wanted: seq<(nat, nat)>)
    requires hs != [] && Started(runs) + Tagged(index, hs) == wanted
    ensures Started(runs + [Run(index, hs[0], Running)]) + Tagged(index, hs[1..]) == wanted
  {
    var one := [(index, hs[0])];
    StartedAppend(runs, Run(index, hs[0], Running));
    TaggedHead(index, hs);
    Assoc(Started(runs), one, Tagged(index, hs[1..]));
  }

  lemma StartedAppend(runs: seq<Run>, r: Run)
    ensures Started(runs + [r]) == Started(runs) + [(r.index, r.handler)]
  {
  }

  lemma TaggedHead(index: nat, hs: seq<nat>)
    requires hs != []
    ensures Tagged(index, hs) == [(index, hs[0])] + Tagged(index, hs[1..])
  {
  }

  lemma RestartFlow(c: Config, s: State)
    requires Enabled(c, s, Restart) && FlowOk(c, s) && s.dispatcher.Gone?
    ensures FlowOk(c, Apply(c, s, Restart))
  {
    var s' := Apply(c, s, Restart);
    assert HeldMessages(s'.dispatcher) == HeldMessages(s.dispatcher) && ToSpawn(s'.dispatcher) == ToSpawn(s.dispatcher);
  }

  lemma RunFlow(c: Config, s: State, a: Action)
    requires a.BodyEnds? || a.CountRun? || a.SignalRun? || a.ReleaseSlot? || a.CountPanic?
    requires Enabled(c, s, a) && FlowOk(c, s)
    ensures FlowOk(c, Apply(c, s, a))
  {
    MovedStarted(s, a.i, Apply(c, s, a).runs[a.i].phase);
  }

  lemma SendFlow(c: Config, s: State, m: Message)
    requires Enabled(c, s, Send(m)) && FlowOk(c, s)
    ensures FlowOk(c, Apply(c, s, Send(m)))
  {
    Assoc(DispatchedMessages(s.dispatched) + HeldMessages(s.dispatcher), s.buffer, [m]);
  }

  /** The dispatcher's moves that touch neither the channel nor a run. */
  lemma StageFlow(c: Config, s: State, a: Action)
    requires a.AddWait? || a.DispatchDone? || a.SeeCancel? || a.DrainEnd? || a.DispatcherExit?
    requires Enabled(c, s, a) && FlowOk(c, s)
    ensures FlowOk(c, Apply(c, s, a))
  {
  }

  lemma FlowStays(c: Config, s: State, a: Action)
    requires a.Subscribe? || a.Unsubscribe? || a.CountSend? || a.ParentCancels? || a.StopCancels? || a.StopReturns?
    requires Enabled(c, s, a) && FlowOk(c, s)
    ensures FlowOk(c, Apply(c, s, a))
  {
  }

  lemma FlowStep(c: Config, s: State, a: Action)
    requires Enabled(c, s, a) && FlowOk(c, s) && WaitOk(s) && MarksOk(s)
    ensures FlowOk(c, Apply(c, s, a))
  {
    match a
    case Restart =>
      RestartWait(c, s);
      RestartFlow(c, s);
    case Lookup => LookupFlow(c, s);
    case Receive => TakeFlow(c, s, a);
    case DrainTake => TakeFlow(c, s, a);
    case Spawn => SpawnFlow(c, s);
    case Send(m) => SendFlow(c, s, m);
    case BodyEnds(_, _) => RunFlow(c, s, a);
    case CountRun(_) => RunFlow(c, s, a);
    case SignalRun(_) => RunFlow(c, s, a);
    case ReleaseSlot(_) => RunFlow(c, s, a);
    case CountPanic(_) => RunFlow(c, s, a);
    case AddWait => StageFlow(c, s, a);
    case DispatchDone => StageFlow(c, s, a);
    case SeeCancel => StageFlow(c, s, a);
    case DrainEnd => StageFlow(c, s, a);
    case DispatcherExit => StageFlow(c, s, a);
    case _ => FlowStays(c, s, a);
  }

  /** Once the wait group is at zero nothing can raise it: the dispatcher is gone and every run has signalled. */
  lemma ZeroWait(s: State)
    requires WaitOk(s) && s.wg == 0
    ensures s.dispatcher.Gone? && forall i :: 0 <= i < |s.runs| ==> Weight(OfWait, s.runs[i].phase) == 0
  {
    forall i | 0 <= i < |s.runs| ensures Weight(OfWait, s.runs[i].phase) == 0 {
      SumZero(OfWait, s.runs, i);
    }
  }

  lemma DrainEndMarks(c: Config, s: State)
    requires Enabled(c, s, DrainEnd) && FlowOk(c, s) && MarksOk(s)
    ensures MarksOk(Apply(c, s, DrainEnd))
  {
    var d := DispatchedMessages(s.dispatched);
    assert d + [] + [] == d;
    assert |s.sent| == |s.dispatched|;
  }

  lemma RestartMarks(c: Config, s: State)
    requires Enabled(c, s, Restart) && WaitOk(s) && MarksOk(s)
    ensures MarksOk(Apply(c, s, Restart))
  {
    ZeroWait(s);
  }

  lemma OtherMarks(c: Config, s: State, a: Action)
    requires Enabled(c, s, a) && MarksOk(s) && (s.stop == Returned ==> ZeroKept(s)) && !a.DrainEnd? && !a.Restart?
    ensures MarksOk(Apply(c, s, a))
  {
  }

  /** Nothing is left that could move the wait group. */
  ghost predicate ZeroKept(s: State) {
    s.wg == 0 && s.dispatcher.Gone? && forall i :: 0 <= i < |s.runs| ==> Weight(OfWait, s.runs[i].phase) == 0
  }

  lemma MarksStep(c: Config, s: State, a: Action)
    requires Enabled(c, s, a) && WaitOk(s) && FlowOk(c, s) && MarksOk(s)
    ensures MarksOk(Apply(c, s, a))
  {
    match a
    case DrainEnd =>
      if s.stop == Returned {
        ZeroWait(s);
      }
      DrainEndMarks(c, s);
    case Restart => RestartMarks(c, s);
    case _ =>
      if s.stop == Returned {
        ZeroWait(s);
      }
      OtherMarks(c, s, a);
  }

  lemma {:induction false} InvAlong(c: Config, s: State, acts: seq<Action>)
    requires Runs(c, s, acts) && Inv(c, s)
    ensures Inv(c, After(c, s, acts))
    decreases |acts|
  {
    if acts != [] {
      WaitStep(c, s, acts[0]);
      CountsStep(c, s, acts[0]);
      FlowStep(c, s, acts[0]);
      MarksStep(c, s, acts[0]);
      InvAlong(c, Apply(c, s, acts[0]), acts[1..]);
    }
  }

  lemma ReachableInv(c: Config, s: State)
    requires Reachable(c, s)
    ensures Inv(c, s)
  {
    var acts :| Runs(c, STARTED, acts) && After(c, STARTED, acts) == s;
    InvAlong(c, STARTED, acts);
  }

  // ---------------------------------------------------------------- what it comes to

  /** Messages are dispatched in the order they were sent, none skipped and none twice. */
  lemma DispatchOrder(c: Config, s: State)
    requires Reachable(c, s)
    ensures DispatchedMessages(s.dispatched) <= s.sent
  {
    ReachableInv(c, s);
    var d := DispatchedMessages(s.dispatched);
    assert s.sent == d + (HeldMessages(s.dispatcher) + s.buffer);
  }

  /** The wait group cannot reach zero while the dispatcher still selects, dispatches or drains. */
  lemma WaitOutlastsDispatcher(c: Config, s: State)
    requires Reachable(c, s) && s.wg <= 0
    ensures s.wg == 0 && s.dispatcher.Gone?
  {
    ReachableInv(c, s);
  }

  /** Graceful stop: when Stop returns, everything sent before the context was cancelled, by Stop or earlier, has been
      dispatched, every dispatch has had one run per handler registered for its topic at the time, in order, and every
      handler body has ended. */
  lemma GracefulStop(c: Config, s: State)
    requires Reachable(c, s) && s.stop == Returned
    ensures s.cancelMark <= |s.dispatched|
    ensures forall i :: 0 <= i < s.cancelMark ==> i < |s.sent| && s.dispatched[i].msg == s.sent[i]
    ensures Started(s.runs) == Wanted(s.dispatched)
    ensures forall i :: 0 <= i < |s.runs| ==> !s.runs[i].phase.Running?
  {
    ReachableInv(c, s);
    ZeroWait(s);
    DispatchOrder(c, s);
    forall i | 0 <= i < s.cancelMark ensures s.dispatched[i].msg == s.sent[i] {
      assert DispatchedMessages(s.dispatched)[i] == s.sent[i];
    }
    forall i | 0 <= i < |s.runs| ensures !s.runs[i].phase.Running? {
      assert Weight(OfWait, s.runs[i].phase) == 0;
    }
    assert Tagged(LastIndex(s.dispatched), []) == [];
  }

  lemma {:induction false} NothingAfterDispatcher(c: Config, s: State, acts: seq<Action>)
    requires Runs(c, s, acts) && s.dispatcher.Gone? && Restart !in acts
    ensures
      var s' := After(c, s, acts);
      s'.dispatcher.Gone? && s'.dispatched == s.dispatched && s.sent <= s'.sent
    decreases |acts|
  {
    if acts != [] {
      assert acts[0] != Restart;
      NothingAfterDispatcher(c, Apply(c, s, acts[0]), acts[1..]);
    }
  }

  /** What a drain misses: exactly the messages sent after it found the channel empty. None of them is dispatched
      until the queue is started again. */
  lemma LeftBehindExactly(c: Config, s: State, acts: seq<Action>)
    requires Reachable(c, s) && s.dispatcher.Gone? && Runs(c, s, acts) && Restart !in acts
    ensures s.cancelMark <= s.drainMark <= |s.sent|
    ensures DispatchedMessages(s.dispatched) == s.sent[..s.drainMark] && s.buffer == s.sent[s.drainMark..]
    ensures After(c, s, acts).dispatched == s.dispatched && s.sent <= After(c, s, acts).sent
  {
    ReachableInv(c, s);
    assert s.sent == DispatchedMessages(s.dispatched) + s.buffer;
    NothingAfterDispatcher(c, s, acts);
  }

  /** The first `n` messages sent are ahead of every cancellation the present dispatcher has to see. */
  ghost predicate Covered(s: State, n: nat) {
    n <= |s.sent| && (s.ctxDone ==> n <= s.cancelMark)
  }

  lemma {:induction false} CoveredAlong(c: Config, s: State, acts: seq<Action>, n: nat)
    requires Runs(c, s, acts) && Covered(s, n)
    ensures Covered(After(c, s, acts), n)
    decreases |acts|
  {
    if acts != [] {
      CoveredAlong(c, Apply(c, s, acts[0]), acts[1..], n);
    }
  }

  /** From a Restart on everything sent before it is covered. */
  lemma {:induction false} RestartCovers(c: Config, s: State, acts: seq<Action>, n: nat)
    requires Runs(c, s, acts) && Restart in acts && n <= |s.sent|
    ensures Covered(After(c, s, acts), n)
    decreases |acts|
  {
    var s1 := Apply(c, s, acts[0]);
    if acts[0] == Restart {
      CoveredAlong(c, s1, acts[1..], n);
    } else {
      RestartCovers(c, s1, acts[1..], n);
    }
  }

  /** A message left behind is lost if and only if the queue is not started again: by the time the dispatcher is gone
      again, it has been dispatched exactly if there was a restart. */
  lemma LostIffNotRestarted(c: Config, s: State, acts: seq<Action>, i: nat)
    requires Reachable(c, s) && s.dispatcher.Gone? && s.drainMark <= i < |s.sent|
    requires Runs(c, s, acts) && After(c, s, acts).dispatcher.Gone?
    ensures i < |After(c, s, acts).dispatched| <==> Restart in acts
    ensures DispatchedMessages(After(c, s, acts).dispatched) <= After(c, s, acts).sent && s.sent <= After(c, s, acts).sent
  {
    var s' := After(c, s, acts);
    ReachableInv(c, s);
    ReachableAlong(c, s, acts);
    ReachableInv(c, s');
    DispatchOrder(c, s');
    SentGrows(c, s, acts);
    if Restart in acts {
      RestartCovers(c, s, acts, |s.sent|);
    } else {
      NothingAfterDispatcher(c, s, acts);
    }
  }

  lemma {:induction false} SentGrows(c: Config, s: State, acts: seq<Action>)
    requires Runs(c, s, acts)
    ensures s.sent <= After(c, s, acts).sent
    decreases |acts|
  {
    if acts != [] {
      SentGrows(c, Apply(c, s, acts[0]), acts[1..]);
    }
  }

  lemma {:induction false} ReachableAlong(c: Config, s: State, acts: seq<Action>)
    requires Reachable(c, s) && Runs(c, s, acts)
    ensures Reachable(c, After(c, s, acts))
    decreases |acts|
  {
    if acts != [] {
      ReachableStep(c, s, acts[0]);
      ReachableAlong(c, Apply(c, s, acts[0]), acts[1..]);
    }
  }

  /** Runs started are delivered, failed, or not yet counted, and never hold more slots than there are. */
  lemma HandlerAccounting(c: Config, s: State)
    requires Reachable(c, s)
    ensures |s.runs| == s.totalDelivered + s.totalErrors + Uncounted(s.runs)
    ensures s.slots <= c.maxWorkers && s.totalPublished + s.uncounted == |s.sent|
  {
    ReachableInv(c, s);
    CountersSplit(s.runs);
  }

  lemma {:induction false} UncountedZeroIff(runs: seq<Run>)
    ensures Uncounted(runs) == 0 <==> forall i :: 0 <= i < |runs| ==> !NotYetCounted(runs[i].phase)
  {
    if runs != [] {
      UncountedZeroIff(runs[..|runs| - 1]);
      assert forall i :: 0 <= i < |runs| - 1 ==> runs[..|runs| - 1][i] == runs[i];
    }
  }

  /** The totals Stop reports cover every run if and only if no panicked run is still short of its count: a
      panic is counted only after the wait group is signalled. */
  lemma TotalsAtStopIff(c: Config, s: State)
    requires Reachable(c, s) && s.stop == Returned
    ensures s.totalDelivered + s.totalErrors == |s.runs|
      <==> forall i :: 0 <= i < |s.runs| ==> s.runs[i].phase != Signalled(Panics) && s.runs[i].phase != Released(Panics)
  {
    ReachableInv(c, s);
    ZeroWait(s);
    HandlerAccounting(c, s);
    UncountedZeroIff(s.runs);
    forall i | 0 <= i < |s.runs|
      ensures NotYetCounted(s.runs[i].phase) <==> s.runs[i].phase == Signalled(Panics) || s.runs[i].phase == Released(Panics)
    {
      assert Weight(OfWait, s.runs[i].phase) == 0;
    }
  }

  lemma {:induction false} RunsSnoc(c: Config, s: State, acts: seq<Action>, a: Action)
    requires Runs(c, s, acts) && Enabled(c, After(c, s, acts), a)
    ensures Runs(c, s, acts + [a]) && After(c, s, acts + [a]) == Apply(c, After(c, s, acts), a)
    decreases |acts|
  {
    if acts == [] {
      assert acts + [a] == [a] && [a][1..] == [];
    } else {
      assert (acts + [a])[0] == acts[0] && (acts + [a])[1..] == acts[1..] + [a];
      RunsSnoc(c, Apply(c, s, acts[0]), acts[1..], a);
    }
  }

  lemma ReachableStep(c: Config, s: State, a: Action)
    requires Reachable(c, s) && Enabled(c, s, a)
    ensures Reachable(c, Apply(c, s, a))
  {
    var acts :| Runs(c, STARTED, acts) && After(c, STARTED, acts) == s;
    RunsSnoc(c, STARTED, acts, a);
  }

  /** A run up to its last action. */
  lemma {:induction false} RunsFront(c: Config, s: State, acts: seq<Action>)
    requires Runs(c, s, acts) && acts != []
    ensures
      var n := |acts| - 1;
      && Runs(c, s, acts[..n]) && Enabled(c, After(c, s, acts[..n]), acts[n])
      && After(c, s, acts) == Apply(c, After(c, s, acts[..n]), acts[n])
    decreases |acts|
  {
    var n := |acts| - 1;
    if n > 0 {
      RunsFront(c, Apply(c, s, acts[0]), acts[1..]);
      assert acts[..n][0] == acts[0] && acts[..n][1..] == acts[1..][..n - 1];
    } else {
      assert acts[1..] == [] && acts[..0] == [];
    }
  }

  /** A cancellation with nothing sent, by the parent context or by Stop, up to the end of the drain. */
  lemma DrainNothing(c: Config, cancel: Action) returns (s: State)
    requires cancel == ParentCancels || cancel == StopCancels
    ensures Reachable(c, s)
    ensures s == STARTED.(ctxDone := true, stop := if cancel == StopCancels then Waiting else NotStopped, dispatcher := Leaving)
  {
    assert Runs(c, STARTED, []) && After(c, STARTED, []) == STARTED;
    var s1 := Apply(c, STARTED, cancel);
    ReachableStep(c, STARTED, cancel);
    var s2 := Apply(c, s1, SeeCancel);
    ReachableStep(c, s1, SeeCancel);
    s := Apply(c, s2, DrainEnd);
    ReachableStep(c, s2, DrainEnd);
  }

  /** A send, its count, and the dispatcher's exit. */
  lemma SendTooLate(c: Config, s: State, m: Message) returns (s': State)
    requires Reachable(c, s) && s.dispatcher == Leaving && |s.buffer| < c.bufferSize
    ensures Reachable(c, s')
    ensures s' == s.(buffer := s.buffer + [m], sent := s.sent + [m], totalPublished := s.totalPublished + 1,
                     dispatcher := Gone, wg := s.wg - 1)
  {
    var s1 := Apply(c, s, Send(m));
    ReachableStep(c, s, Send(m));
    var s2 := Apply(c, s1, CountSend);
    ReachableStep(c, s1, CountSend);
    s' := Apply(c, s2, DispatcherExit);
    ReachableStep(c, s2, DispatcherExit);
  }

  /** A Publish that reports success can be left behind: the send wins the race against the cancelled context after
      the drain has ended, and Stop returns with the message in the channel. */
  lemma SendAfterDrainIsLeft(c: Config, m: Message)
    requires c.bufferSize > 0
    ensures exists s :: Reachable(c, s) && s.stop == Returned && s.totalPublished == 1 && s.sent == [m] && s.dispatched == []
  {
    var s1 := DrainNothing(c, StopCancels);
    var s2 := SendTooLate(c, s1, m);
    var s3 := Apply(c, s2, StopReturns);
    ReachableStep(c, s2, StopReturns);
    assert s3.sent == [m];
  }

  /** This needs no Stop: with the context given to Start cancelled the dispatcher leaves while the queue still
      counts as running, and what is published then is not dispatched unless the queue is stopped and started
      again. */
  lemma LeftBeforeStop(c: Config, m: Message)
    requires c.bufferSize > 0
    ensures exists s :: (
      && Reachable(c, s) && s.stop == NotStopped && s.totalPublished == 1 && s.sent == [m]
      && forall acts :: Runs(c, s, acts) && Restart !in acts ==> After(c, s, acts).dispatched == [])
  {
    var s1 := DrainNothing(c, ParentCancels);
    var s2 := SendTooLate(c, s1, m);
    forall acts | Runs(c, s2, acts) && Restart !in acts ensures After(c, s2, acts).dispatched == [] {
      NothingAfterDispatcher(c, s2, acts);
    }
    assert s2.sent == [m];
  }

  /** What a Stop of a queue whose context is live loses: nothing. Everything sent before Stop cancels has been
      dispatched, in order, when it returns, whatever is sent and subscribed meanwhile. */
  lemma StopLosesNothing(c: Config, s: State, acts: seq<Action>)
    requires Reachable(c, s) && s.stop == NotStopped && !s.ctxDone
    requires Runs(c, Apply(c, s, StopCancels), acts) && After(c, Apply(c, s, StopCancels), acts).stop == Returned
    ensures
      var s' := After(c, Apply(c, s, StopCancels), acts);
      |s.sent| <= |s'.dispatched| && forall i :: 0 <= i < |s.sent| ==> s'.dispatched[i].msg == s.sent[i]
  {
    var s1 := Apply(c, s, StopCancels);
    var s' := After(c, s1, acts);
    ReachableStep(c, s, StopCancels);
    ReachableAlong(c, s1, acts);
    CoveredAlong(c, s1, acts, |s.sent|);
    GracefulStop(c, s');
    SentGrows(c, s1, acts);
    assert forall i :: 0 <= i < |s.sent| ==> s.sent[i] == s'.sent[i];
    ReachableInv(c, s');
  }

  /** The drain ends only when every message sent has been dispatched. */
  lemma DrainedAll(c: Config, s: State)
    requires Reachable(c, s) && Enabled(c, s, DrainEnd)
    ensures DispatchedMessages(s.dispatched) == s.sent
  {
    ReachableInv(c, s);
    assert DispatchedMessages(s.dispatched) + [] + [] == DispatchedMessages(s.dispatched);
  }

  // ---------------------------------------------------------------- Stop can return

  lemma {:induction false} SumFind(w: Share, runs: seq<Run>) returns (i: nat)
    requires Sum(w, runs) > 0
    ensures i < |runs| && Weight(w, runs[i].phase) > 0
  {
    var n := |runs| - 1;
    if Weight(w, runs[n].phase) > 0 {
      i := n;
    } else {
      i := SumFind(w, runs[..n]);
    }
  }

  /** The next step of a run that has not given back its slot; a body that still runs succeeds. */
  function RunStep(i: nat, p: Phase): Action
    requires Weight(OfSteps, p) > 0
  {
    match p
    case Running => BodyEnds(i, Succeeds)
    case Ended(o) => if o == Panics then SignalRun(i) else CountRun(i)
    case Counted(_) => SignalRun(i)
    case Signalled(_) => ReleaseSlot(i)
  }

  lemma RunStepEnabled(c: Config, s: State, i: nat)
    requires CountsOk(c, s) && i < |s.runs| && Weight(OfSteps, s.runs[i].phase) > 0
    ensures Enabled(c, s, RunStep(i, s.runs[i].phase))
  {
    if s.runs[i].phase.Signalled? && s.slots == 0 {
      SumZero(OfSlots, s.runs, i);
    }
  }

  lemma RunStepMoves(c: Config, s: State, i: nat) returns (p: Phase)
    requires i < |s.runs| && Weight(OfSteps, s.runs[i].phase) > 0 && Enabled(c, s, RunStep(i, s.runs[i].phase))
    ensures Apply(c, s, RunStep(i, s.runs[i].phase)).runs == Moved(s, i, p).runs
    ensures Weight(OfSteps, p) < Weight(OfSteps, s.runs[i].phase)
    ensures SameDispatching(s, Apply(c, s, RunStep(i, s.runs[i].phase)))
  {
    p := match s.runs[i].phase
      case Running => Ended(Succeeds)
      case Ended(o) => if o == Panics then Signalled(o) else Counted(o)
      case Counted(o) => Signalled(o)
      case Signalled(o) => Released(o);
  }

  lemma RunStepGetsOn(c: Config, s: State, i: nat)
    requires CountsOk(c, s) && i < |s.runs| && Weight(OfSteps, s.runs[i].phase) > 0
    ensures
      var a := RunStep(i, s.runs[i].phase);
      && Enabled(c, s, a) && SameDispatching(s, Apply(c, s, a))
      && Sum(OfSteps, Apply(c, s, a).runs) < Sum(OfSteps, s.runs)
  {
    RunStepEnabled(c, s, i);
    var p := RunStepMoves(c, s, i);
    MovedSum(s, i, p, OfSteps);
  }

  predicate SameDispatching(s: State, s': State) {
    s'.dispatcher == s.dispatcher && s'.buffer == s.buffer && s'.stop == s.stop && s'.ctxDone == s.ctxDone && s'.sent == s.sent
  }

  /** How far the dispatcher is from leaving, apart from the channel's content and the handlers to go. */
  function Stage(d: Dispatcher): nat {
    match d
    case Holding(_, _) => 5
    case Spawning(_, _) => 4
    case Slotting(_, _) => 4
    case Selecting => 3
    case Draining => 2
    case Leaving => 1
    case Gone => 0
  }

  function ToGo(d: Dispatcher): nat {
    match d
    case Spawning(_, hs) => 2 * |hs| + 1
    case Slotting(_, hs) => 2 * |hs|
    case _ => 0
  }

  /** The dispatcher's next step towards leaving. */
  function DispatcherStep(s: State): Action
    requires !s.dispatcher.Gone?
  {
    match s.dispatcher
    case Selecting => SeeCancel
    case Holding(_, _) => Lookup
    case Spawning(_, hs) => if hs == [] then DispatchDone else AddWait
    case Slotting(_, _) => Spawn
    case Draining => if s.buffer == [] then DrainEnd else DrainTake
    case Leaving => DispatcherExit
  }

  lemma DispatcherStepGetsOn(c: Config, s: State)
    requires Inv(c, s) && s.ctxDone && !s.dispatcher.Gone? && (s.dispatcher.Slotting? ==> s.slots < c.maxWorkers)
    ensures
      var a := DispatcherStep(s);
      && Enabled(c, s, a)
      && (var s' := Apply(c, s, a);
          && s'.stop == s.stop && s'.ctxDone && s'.sent == s.sent
          && (|s'.buffer| < |s.buffer| || (s'.buffer == s.buffer &&
               (Stage(s'.dispatcher) < Stage(s.dispatcher)
                || (Stage(s'.dispatcher) == Stage(s.dispatcher) && ToGo(s'.dispatcher) < ToGo(s.dispatcher))))))
  {
  }

  lemma InvStep(c: Config, s: State, a: Action)
    requires Enabled(c, s, a) && Inv(c, s)
    ensures Inv(c, Apply(c, s, a))
  {
    WaitStep(c, s, a);
    CountsStep(c, s, a);
    FlowStep(c, s, a);
    MarksStep(c, s, a);
  }

  /** The queue, its context cancelled, brought to the point where the wait group is at zero, with no Send and no
      Restart. */
  lemma {:induction false} WindDown(c: Config, s: State) returns (acts: seq<Action>)
    requires Inv(c, s) && s.ctxDone && c.maxWorkers > 0
    ensures Runs(c, s, acts)
    ensures
      var s' := After(c, s, acts);
      s'.wg == 0 && s'.stop == s.stop && s'.sent == s.sent
    decreases |s.buffer|, Stage(s.dispatcher), ToGo(s.dispatcher), Sum(OfSteps, s.runs)
  {
    var a: Action;
    if s.dispatcher.Gone? && s.wg == 0 {
      return [];
    } else if s.dispatcher.Gone? || (s.dispatcher.Slotting? && s.slots >= c.maxWorkers) {
      var i := SumFind(if s.dispatcher.Gone? then OfWait else OfSlots, s.runs);
      a := RunStep(i, s.runs[i].phase);
      RunStepGetsOn(c, s, i);
    } else {
      a := DispatcherStep(s);
      DispatcherStepGetsOn(c, s);
    }
    InvStep(c, s, a);
    var rest := WindDown(c, Apply(c, s, a));
    acts := [a] + rest;
    assert acts[0] == a && acts[1..] == rest;
  }

  /** Stop never waits in vain as long as handler bodies end: from every reachable state in which it waits, the queue
      can run on so that it returns. */
  lemma StopCanReturn(c: Config, s: State)
    requires Reachable(c, s) && s.stop == Waiting && c.maxWorkers > 0
    ensures exists acts :: Runs(c, s, acts) && After(c, s, acts).stop == Returned
  {
    ReachableInv(c, s);
    var acts := WindDown(c, s);
    RunsSnoc(c, s, acts, StopReturns);
  }

  // ---------------------------------------------------------------- what a subscriber can count on

  lemma {:induction false} WantedHas(ds: seq<Dispatch>, i: nat, h: nat)
    ensures (i, h) in Wanted(ds) <==> i < |ds| && h in ds[i].handlers
  {
    if ds != [] {
      var n := |ds| - 1;
      WantedHas(ds[..n], i, h);
      if i == n && h in ds[n].handlers {
        var k :| 0 <= k < |ds[n].handlers| && ds[n].handlers[k] == h;
        assert Tagged(n, ds[n].handlers)[k] == (i, h);
      }
    }
  }

  /** The runs of a later dispatch come after those of the earlier ones, in the order of its handlers. */
  lemma WantedAppend(ds: seq<Dispatch>, d: Dispatch)
    ensures Wanted(ds + [d]) == Wanted(ds) + seq(|d.handlers|, i requires 0 <= i < |d.handlers| => (|ds|, d.handlers[i]))
  {
    assert (ds + [d])[..|ds|] == ds;
    assert Tagged(|ds|, d.handlers) == seq(|d.handlers|, i requires 0 <= i < |d.handlers| => (|ds|, d.handlers[i]));
  }

  /** The handler is subscribed to the message with index `n` as long as that waits, and gets it when dispatched. */
  ghost predicate Awaits(s: State, n: nat, m: Message, h: nat) {
    && n < |s.sent| && s.sent[n] == m
    && (|s.dispatched| <= n ==> h in HandlersOf(s.subscribers, m.topic))
    && (n < |s.dispatched| ==> h in s.dispatched[n].handlers)
  }

  lemma LookupAwaits(c: Config, s: State, n: nat, m: Message, h: nat)
    requires Enabled(c, s, Lookup) && FlowOk(c, s) && Awaits(s, n, m, h)
    ensures Awaits(Apply(c, s, Lookup), n, m, h)
  {
    var d := DispatchedMessages(s.dispatched);
    assert s.sent == d + ([s.dispatcher.msg] + s.buffer);
    assert s.sent[|d|] == s.dispatcher.msg;
  }

  lemma OtherAwaits(c: Config, s: State, a: Action, n: nat, m: Message, h: nat)
    requires Enabled(c, s, a) && Awaits(s, n, m, h) && a != Unsubscribe(m.topic) && !a.Lookup?
    ensures Awaits(Apply(c, s, a), n, m, h)
  {
    var s' := Apply(c, s, a);
    assert s'.dispatched == s.dispatched && s.sent <= s'.sent;
    if !a.Subscribe? && !a.Unsubscribe? {
      assert s'.subscribers == s.subscribers;
    }
  }

  lemma {:induction false} AwaitsAlong(c: Config, s: State, acts: seq<Action>, n: nat, m: Message, h: nat)
    requires Runs(c, s, acts) && Inv(c, s) && Awaits(s, n, m, h) && Unsubscribe(m.topic) !in acts
    ensures Awaits(After(c, s, acts), n, m, h)
    decreases |acts|
  {
    if acts != [] {
      assert acts[0] != Unsubscribe(m.topic);
      if acts[0].Lookup? {
        LookupAwaits(c, s, n, m, h);
      } else {
        OtherAwaits(c, s, acts[0], n, m, h);
      }
      InvStep(c, s, acts[0]);
      AwaitsAlong(c, Apply(c, s, acts[0]), acts[1..], n, m, h);
    }
  }

  /** A handler subscribed when a message is sent, its topic not unsubscribed since, gets a run for that message, over
      by the time Stop has returned, if and only if the message was dispatched; and it was if it was sent before the
      context was cancelled. */
  lemma SubscriberGetsItsRun(c: Config, s: State, m: Message, h: nat, acts: seq<Action>)
    requires Reachable(c, s) && Enabled(c, s, Send(m)) && h in HandlersOf(s.subscribers, m.topic)
    requires Runs(c, Apply(c, s, Send(m)), acts) && Unsubscribe(m.topic) !in acts
    requires After(c, Apply(c, s, Send(m)), acts).stop == Returned
    ensures
      var n, s' := |s.sent|, After(c, Apply(c, s, Send(m)), acts);
      && ((exists r :: r in s'.runs && r.index == n && r.handler == h && !r.phase.Running?) <==> n < |s'.dispatched|)
      && (n < s'.cancelMark ==> n < |s'.dispatched|)
  {
    var n, s1 := |s.sent|, Apply(c, s, Send(m));
    var s' := After(c, s1, acts);
    ReachableInv(c, s);
    InvStep(c, s, Send(m));
    DispatchOrder(c, s);
    AwaitsAlong(c, s1, acts, n, m, h);
    ReachableStep(c, s, Send(m));
    ReachableAlong(c, s1, acts);
    GracefulStop(c, s');
    WantedHas(s'.dispatched, n, h);
    RunOfPair(s'.runs, n, h);
    if r :| r in s'.runs && r.index == n && r.handler == h {
      assert (n, h) in Started(s'.runs);
    }
  }

  lemma RunOfPair(runs: seq<Run>, n: nat, h: nat)
    requires forall i :: 0 <= i < |runs| ==> !runs[i].phase.Running?
    ensures (n, h) in Started(runs) <==> exists r :: r in runs && r.index == n && r.handler == h && !r.phase.Running?
  {
    if (n, h) in Started(runs) {
      var i :| 0 <= i < |runs| && Started(runs)[i] == (n, h);
      assert runs[i] in runs;
    }
    if r :| r in runs && r.index == n && r.handler == h {
      var i :| 0 <= i < |runs| && runs[i] == r;
      assert Started(runs)[i] == (n, h);
    }
  }

  // ---------------------------------------------------------------- which results the totals count

  /** The number of runs in a phase. */
  function AtPhase(runs: seq<Run>, p: Phase): nat {
    if runs == [] then 0 else AtPhase(runs[..|runs| - 1], p) + if runs[|runs| - 1].phase == p then 1 else 0
  }

  lemma {:induction false} AtPhaseUpdate(runs: seq<Run>, p: Phase, i: nat, r: Run)
    requires i < |runs|
    ensures AtPhase(runs[i := r], p) + (if runs[i].phase == p then 1 else 0) == AtPhase(runs, p) + if r.phase == p then 1 else 0
  {
    var n := |runs| - 1;
    if i < n {
      AtPhaseUpdate(runs[..n], p, i, r);
      assert runs[i := r][..n] == runs[..n][i := r];
    } else {
      assert runs[i := r][..n] == runs[..n];
    }
  }

  lemma {:induction false} AtPhaseNone(runs: seq<Run>, p: Phase)
    requires forall i :: 0 <= i < |runs| ==> runs[i].phase != p
    ensures AtPhase(runs, p) == 0
  {
    if runs != [] {
      AtPhaseNone(runs[..|runs| - 1], p);
    }
  }

  predicate Ends(a: Action, o: Outcome) {
    a.BodyEnds? && a.o == o
  }

  /** How many bodies ended with an outcome in a run of the queue. */
  function Endings(acts: seq<Action>, o: Outcome): nat {
    if acts == [] then 0 else Endings(acts[..|acts| - 1], o) + if Ends(acts[|acts| - 1], o) then 1 else 0
  }

  /** Panics that have ended their body and are not counted. */
  function PanicsUncounted(runs: seq<Run>): nat {
    AtPhase(runs, Ended(Panics)) + AtPhase(runs, Signalled(Panics)) + AtPhase(runs, Released(Panics))
  }

  lemma DeliveredMove(c: Config, s: State, a: Action)
    requires Enabled(c, s, a) && (a.BodyEnds? || a.CountRun? || a.SignalRun? || a.ReleaseSlot? || a.CountPanic?)
    ensures
      var s' := Apply(c, s, a);
      s'.totalDelivered + AtPhase(s'.runs, Ended(Succeeds))
        == s.totalDelivered + AtPhase(s.runs, Ended(Succeeds)) + if Ends(a, Succeeds) then 1 else 0
  {
    AtPhaseUpdate(s.runs, Ended(Succeeds), a.i, Apply(c, s, a).runs[a.i]);
  }

  lemma DeliveredStep(c: Config, s: State, a: Action)
    requires Enabled(c, s, a)
    ensures
      var s' := Apply(c, s, a);
      s'.totalDelivered + AtPhase(s'.runs, Ended(Succeeds))
        == s.totalDelivered + AtPhase(s.runs, Ended(Succeeds)) + if Ends(a, Succeeds) then 1 else 0
  {
    var s' := Apply(c, s, a);
    if a.BodyEnds? || a.CountRun? || a.SignalRun? || a.ReleaseSlot? || a.CountPanic? {
      DeliveredMove(c, s, a);
    } else if a.Spawn? {
      assert s'.runs[..|s.runs|] == s.runs;
    } else {
      assert s'.runs == s.runs && s'.totalDelivered == s.totalDelivered;
    }
  }

  /** Results that count as errors, counted or not. */
  function ErrorResults(s: State): nat {
    s.totalErrors + AtPhase(s.runs, Ended(Fails)) + PanicsUncounted(s.runs)
  }

  /** A result that is to count as an error and does not yet. */
  predicate Owed(p: Phase) {
    p == Ended(Fails) || p == Ended(Panics) || p == Signalled(Panics) || p == Released(Panics)
  }

  lemma ErrorsMoveTo(s: State, s': State, i: nat, p: Phase)
    requires i < |s.runs| && s'.runs == Moved(s, i, p).runs
    ensures
      AtPhase(s'.runs, Ended(Fails)) + PanicsUncounted(s'.runs) + (if Owed(s.runs[i].phase) then 1 else 0)
      == AtPhase(s.runs, Ended(Fails)) + PanicsUncounted(s.runs) + if Owed(p) then 1 else 0
  {
    var r := s.runs[i].(phase := p);
    AtPhaseUpdate(s.runs, Ended(Fails), i, r);
    AtPhaseUpdate(s.runs, Ended(Panics), i, r);
    AtPhaseUpdate(s.runs, Signalled(Panics), i, r);
    AtPhaseUpdate(s.runs, Released(Panics), i, r);
  }

  lemma ErrorsMove(c: Config, s: State, a: Action)
    requires Enabled(c, s, a) && (a.BodyEnds? || a.CountRun? || a.SignalRun? || a.ReleaseSlot? || a.CountPanic?)
    requires PhaseOk(s.runs[a.i].phase)
    ensures ErrorResults(Apply(c, s, a)) == ErrorResults(s) + if Ends(a, Fails) || Ends(a, Panics) then 1 else 0
  {
    var s' := Apply(c, s, a);
    ErrorsMoveTo(s, s', a.i, s'.runs[a.i].phase);
  }

  lemma ErrorsStay(c: Config, s: State, a: Action)
    requires !a.BodyEnds? && !a.CountRun? && !a.SignalRun? && !a.ReleaseSlot? && !a.CountPanic?
    requires Enabled(c, s, a)
    ensures ErrorResults(Apply(c, s, a)) == ErrorResults(s)
  {
    var s' := Apply(c, s, a);
    if a.Spawn? {
      assert s'.runs[..|s.runs|] == s.runs;
    } else {
      assert s'.runs == s.runs && s'.totalErrors == s.totalErrors;
    }
  }

  lemma ErrorsStep(c: Config, s: State, a: Action)
    requires Enabled(c, s, a) && CountsOk(c, s)
    ensures ErrorResults(Apply(c, s, a)) == ErrorResults(s) + if Ends(a, Fails) || Ends(a, Panics) then 1 else 0
  {
    if a.BodyEnds? || a.CountRun? || a.SignalRun? || a.ReleaseSlot? || a.CountPanic? {
      assert PhaseOk(s.runs[a.i].phase);
      ErrorsMove(c, s, a);
    } else {
      ErrorsStay(c, s, a);
    }
  }

  lemma {:induction false} DeliveredAlong(c: Config, acts: seq<Action>)
    requires Runs(c, STARTED, acts)
    ensures
      var s := After(c, STARTED, acts);
      s.totalDelivered + AtPhase(s.runs, Ended(Succeeds)) == Endings(acts, Succeeds)
    decreases |acts|
  {
    if acts != [] {
      var n := |acts| - 1;
      RunsFront(c, STARTED, acts);
      DeliveredAlong(c, acts[..n]);
      DeliveredStep(c, After(c, STARTED, acts[..n]), acts[n]);
    }
  }

  lemma ReachableCounts(c: Config, acts: seq<Action>)
    requires Runs(c, STARTED, acts)
    ensures CountsOk(c, After(c, STARTED, acts))
  {
    ReachableInv(c, After(c, STARTED, acts));
  }

  lemma ErrorsLast(c: Config, acts: seq<Action>)
    requires Runs(c, STARTED, acts) && acts != []
    ensures
      var n := |acts| - 1;
      && Runs(c, STARTED, acts[..n])
      && ErrorResults(After(c, STARTED, acts))
         == ErrorResults(After(c, STARTED, acts[..n])) + if Ends(acts[n], Fails) || Ends(acts[n], Panics) then 1 else 0
  {
    var n := |acts| - 1;
    RunsFront(c, STARTED, acts);
    ReachableCounts(c, acts[..n]);
    ErrorsStep(c, After(c, STARTED, acts[..n]), acts[n]);
  }

  lemma {:induction false} ErrorsAlong(c: Config, acts: seq<Action>)
    requires Runs(c, STARTED, acts)
    ensures ErrorResults(After(c, STARTED, acts)) == Endings(acts, Fails) + Endings(acts, Panics)
    decreases |acts|
  {
    if acts != [] {
      ErrorsLast(c, acts);
      ErrorsAlong(c, acts[..|acts| - 1]);
    }
  }

  /** In every run the deliveries counted are exactly the bodies that succeeded, and the errors counted exactly those
      that failed or panicked, less those not yet counted. */
  lemma TotalsCountResults(c: Config, acts: seq<Action>)
    requires Runs(c, STARTED, acts)
    ensures
      var s := After(c, STARTED, acts);
      && s.totalDelivered + AtPhase(s.runs, Ended(Succeeds)) == Endings(acts, Succeeds)
      && s.totalErrors + AtPhase(s.runs, Ended(Fails)) + PanicsUncounted(s.runs) == Endings(acts, Fails) + Endings(acts, Panics)
  {
    DeliveredAlong(c, acts);
    ErrorsAlong(c, acts);
  }

  /** When Stop has returned totalDelivered is the number of bodies that succeeded, and totalErrors the number that
      failed or panicked, less the panics not yet counted. */
  lemma TotalsAtStop(c: Config, acts: seq<Action>)
    requires Runs(c, STARTED, acts) && After(c, STARTED, acts).stop == Returned
    ensures
      var s := After(c, STARTED, acts);
      && s.totalDelivered == Endings(acts, Succeeds)
      && s.totalErrors + AtPhase(s.runs, Signalled(Panics)) + AtPhase(s.runs, Released(Panics))
         == Endings(acts, Fails) + Endings(acts, Panics)
  {
    var s := After(c, STARTED, acts);
    TotalsCountResults(c, acts);
    ReachableInv(c, s);
    ZeroWait(s);
    forall i | 0 <= i < |s.runs| ensures !s.runs[i].phase.Ended? {
      assert Weight(OfWait, s.runs[i].phase) == 0;
    }
    AtPhaseNone(s.runs, Ended(Succeeds));
    AtPhaseNone(s.runs, Ended(Fails));
    AtPhaseNone(s.runs, Ended(Panics));
  }

  lemma {:induction false} RunningHoldSlots(runs: seq<Run>)
    ensures AtPhase(runs, Running) <= Sum(OfSlots, runs)
  {
    if runs != [] {
      RunningHoldSlots(runs[..|runs| - 1]);
    }
  }

  /** No more handler bodies run at once than there are workers. */
  lemma BoundedPool(c: Config, s: State)
    requires Reachable(c, s)
    ensures AtPhase(s.runs, Running) <= c.maxWorkers
  {
    ReachableInv(c, s);
    RunningHoldSlots(s.runs);
  }

  // ---------------------------------------------------------------- who gets a message

  /** The handlers subscribed to a topic since it was last unsubscribed, in order. */
  function Registered(acts: seq<Action>, topic: string): seq<nat> {
    if acts == [] then []
    else
      var front, a := acts[..|acts| - 1], acts[|acts| - 1];
      if a == Unsubscribe(topic) then []
      else if a.Subscribe? && a.topic == topic then Registered(front, topic) + [a.handler]
      else Registered(front, topic)
  }

  lemma {:induction false} RegisteredIs(c: Config, acts: seq<Action>, topic: string)
    requires Runs(c, STARTED, acts)
    ensures HandlersOf(After(c, STARTED, acts).subscribers, topic) == Registered(acts, topic)
    decreases |acts|
  {
    if acts != [] {
      RunsFront(c, STARTED, acts);
      RegisteredIs(c, acts[..|acts| - 1], topic);
    }
  }

  /** The messages a run sends, in order. */
  function Sends(acts: seq<Action>): seq<Message> {
    if acts == [] then []
    else
      var front, a := acts[..|acts| - 1], acts[|acts| - 1];
      if a.Send? then Sends(front) + [a.msg] else Sends(front)
  }

  lemma {:induction false} SentIs(c: Config, acts: seq<Action>)
    requires Runs(c, STARTED, acts)
    ensures After(c, STARTED, acts).sent == Sends(acts)
    decreases |acts|
  {
    if acts != [] {
      RunsFront(c, STARTED, acts);
      SentIs(c, acts[..|acts| - 1]);
    }
  }

  predicate IsLookup(a: Action) {
    a.Lookup?
  }

  lemma LookupStep(c: Config, s: State, a: Action)
    requires Enabled(c, s, a)
    ensures !a.Lookup? ==> Apply(c, s, a).dispatched == s.dispatched
    ensures a.Lookup? ==>
      var m := s.dispatcher.msg;
      Apply(c, s, a).dispatched == s.dispatched + [Dispatch(m, HandlersOf(s.subscribers, m.topic))]
  {
  }

  /** `ds` are the dispatches of the run: the i-th Lookup finds the handlers registered before it. */
  ghost predicate FoundAt(acts: seq<Action>, ds: seq<Dispatch>) {
    var at := Indices(acts, IsLookup);
    |ds| == |at| && forall i :: 0 <= i < |ds| ==> ds[i].handlers == Registered(acts[..at[i]], ds[i].msg.topic)
  }

  lemma FoundAtOther(front: seq<Action>, a: Action, ds: seq<Dispatch>)
    requires FoundAt(front, ds) && !a.Lookup?
    ensures FoundAt(front + [a], ds)
  {
    var at := Indices(front, IsLookup);
    IndicesAppend(front, a, IsLookup);
    forall i | 0 <= i < |at| ensures (front + [a])[..at[i]] == front[..at[i]] { }
  }

  lemma FoundAtLookup(front: seq<Action>, ds: seq<Dispatch>, d: Dispatch)
    requires FoundAt(front, ds) && d.handlers == Registered(front, d.msg.topic)
    ensures FoundAt(front + [Lookup], ds + [d])
  {
    var at, acts := Indices(front, IsLookup), front + [Lookup];
    IndicesAppend(front, Lookup, IsLookup);
    assert Indices(acts, IsLookup) == at + [|front|];
    forall i | 0 <= i < |ds| ensures (ds + [d])[i].handlers == Registered(acts[..(at + [|front|])[i]], (ds + [d])[i].msg.topic) {
      assert acts[..at[i]] == front[..at[i]];
    }
    assert acts[..|front|] == front;
  }

  /** Each dispatch goes to exactly the handlers subscribed to its topic when dispatchMessage looked them up, in the
      order of their subscriptions. */
  lemma {:induction false} DispatchedToRegistered(c: Config, acts: seq<Action>)
    requires Runs(c, STARTED, acts)
    ensures FoundAt(acts, After(c, STARTED, acts).dispatched)
    decreases |acts|
  {
    if acts != [] {
      var n := |acts| - 1;
      var front, a := acts[..n], acts[n];
      RunsFront(c, STARTED, acts);
      var s := After(c, STARTED, front);
      DispatchedToRegistered(c, front);
      assert acts == front + [a];
      LookupStep(c, s, a);
      if a.Lookup? {
        var m := s.dispatcher.msg;
        RegisteredIs(c, front, m.topic);
        FoundAtLookup(front, s.dispatched, Dispatch(m, HandlersOf(s.subscribers, m.topic)));
      } else {
        FoundAtOther(front, a, s.dispatched);
      }
    }
  }

  // ---------------------------------------------------------------- panics and the totals

  predicate NoPanic(a: Action) {
    !(a.BodyEnds? && a.o == Panics)
  }

  predicate PhaseCalm(p: Phase) {
    match p
    case Running => true
    case PanicCounted => false
    case _ => p.o != Panics
  }

  ghost predicate NonePanicked(s: State) {
    forall i :: 0 <= i < |s.runs| ==> PhaseCalm(s.runs[i].phase)
  }

  lemma NonePanickedStep(c: Config, s: State, a: Action)
    requires Enabled(c, s, a) && NoPanic(a) && NonePanicked(s)
    ensures NonePanicked(Apply(c, s, a))
  {
    if a.BodyEnds? || a.CountRun? || a.SignalRun? || a.ReleaseSlot? || a.CountPanic? {
      assert PhaseCalm(s.runs[a.i].phase);
    }
  }

  lemma {:induction false} NonePanickedAlong(c: Config, s: State, acts: seq<Action>)
    requires Runs(c, s, acts) && NonePanicked(s) && forall i :: 0 <= i < |acts| ==> NoPanic(acts[i])
    ensures NonePanicked(After(c, s, acts))
    decreases |acts|
  {
    if acts != [] {
      NonePanickedStep(c, s, acts[0]);
      NonePanickedAlong(c, Apply(c, s, acts[0]), acts[1..]);
    }
  }

  /** As long as no handler panics, the totals Stop reports cover every run. */
  lemma TotalsWithoutPanics(c: Config, acts: seq<Action>)
    requires Runs(c, STARTED, acts) && forall i :: 0 <= i < |acts| ==> NoPanic(acts[i])
    requires After(c, STARTED, acts).stop == Returned
    ensures var s := After(c, STARTED, acts); s.totalDelivered + s.totalErrors == |s.runs|
  {
    var s := After(c, STARTED, acts);
    NonePanickedAlong(c, STARTED, acts);
    TotalsAtStopIff(c, s);
    forall i | 0 <= i < |s.runs| ensures s.runs[i].phase != Signalled(Panics) && s.runs[i].phase != Released(Panics) {
      assert PhaseCalm(s.runs[i].phase);
    }
  }

  lemma {:induction false} NoPanicEndings(acts: seq<Action>)
    requires forall i :: 0 <= i < |acts| ==> NoPanic(acts[i])
    ensures Endings(acts, Panics) == 0
  {
    if acts != [] {
      var n := |acts| - 1;
      NoPanicEndings(acts[..n]);
    }
  }

  /** As long as no handler panics, at Stop totalDelivered is the number of bodies that succeeded and totalErrors the
      number that failed. */
  lemma ResultsWithoutPanics(c: Config, acts: seq<Action>)
    requires Runs(c, STARTED, acts) && forall i :: 0 <= i < |acts| ==> NoPanic(acts[i])
    requires After(c, STARTED, acts).stop == Returned
    ensures
      var s := After(c, STARTED, acts);
      s.totalDelivered == Endings(acts, Succeeds) && s.totalErrors == Endings(acts, Fails)
  {
    var s := After(c, STARTED, acts);
    TotalsAtStop(c, acts);
    NoPanicEndings(acts);
    NonePanickedAlong(c, STARTED, acts);
    forall i | 0 <= i < |s.runs| ensures s.runs[i].phase != Signalled(Panics) && s.runs[i].phase != Released(Panics) {
      assert PhaseCalm(s.runs[i].phase);
    }
    AtPhaseNone(s.runs, Signalled(Panics));
    AtPhaseNone(s.runs, Released(Panics));
  }

  /** One handler subscribed, one message sent and its run started. */
  lemma StartOneRun(c: Config, m: Message) returns (s: State)
    requires c.bufferSize > 0 && c.maxWorkers > 0
    ensures Reachable(c, s) && s.dispatcher == Spawning(false, []) && s.runs == [Run(0, 0, Running)]
    ensures s.buffer == [] && s.wg == 2 && s.stop == NotStopped && s.totalDelivered == s.totalErrors == 0
  {
    assert Runs(c, STARTED, []) && After(c, STARTED, []) == STARTED;
    var s1 := Apply(c, STARTED, Subscribe(m.topic, 0));
    ReachableStep(c, STARTED, Subscribe(m.topic, 0));
    var s2 := Apply(c, s1, Send(m));
    ReachableStep(c, s1, Send(m));
    var s3 := Apply(c, s2, Receive);
    ReachableStep(c, s2, Receive);
    s := SpawnTheOne(c, s3, m);
  }

  lemma SpawnTheOne(c: Config, s: State, m: Message) returns (s': State)
    requires Reachable(c, s) && s.dispatcher == Holding(false, m) && HandlersOf(s.subscribers, m.topic) == [0] && s.dispatched == []
    requires s.slots < c.maxWorkers && s.runs == []
    ensures Reachable(c, s') && s'.dispatcher == Spawning(false, []) && s'.runs == [Run(0, 0, Running)]
    ensures s'.buffer == s.buffer && s'.wg == s.wg + 1 && s'.stop == s.stop
    ensures s'.totalDelivered == s.totalDelivered && s'.totalErrors == s.totalErrors
  {
    var s1 := Apply(c, s, Lookup);
    ReachableStep(c, s, Lookup);
    var s2 := Apply(c, s1, AddWait);
    ReachableStep(c, s1, AddWait);
    assert [0][1..] == [];
    s' := Apply(c, s2, Spawn);
    ReachableStep(c, s2, Spawn);
  }

  /** The one body panics and its wait-group count is given back; the panic is not counted yet. */
  lemma PanicTheOne(c: Config, s: State) returns (s': State)
    requires Reachable(c, s) && s.runs == [Run(0, 0, Running)]
    ensures Reachable(c, s') && s' == s.(runs := [Run(0, 0, Signalled(Panics))], wg := s.wg - 1)
  {
    var s1 := Apply(c, s, BodyEnds(0, Panics));
    ReachableStep(c, s, BodyEnds(0, Panics));
    assert s1.runs == [Run(0, 0, Ended(Panics))];
    s' := Apply(c, s1, SignalRun(0));
    ReachableStep(c, s1, SignalRun(0));
    assert s'.runs == [Run(0, 0, Signalled(Panics))];
  }

  /** The dispatcher, draining an empty channel, leaves. */
  lemma LeaveDrained(c: Config, s: State) returns (s': State)
    requires Reachable(c, s) && s.dispatcher == Draining && s.buffer == []
    ensures Reachable(c, s') && s' == s.(dispatcher := Gone, wg := s.wg - 1, drainMark := |s.sent|)
  {
    var s1 := Apply(c, s, DrainEnd);
    ReachableStep(c, s, DrainEnd);
    s' := Apply(c, s1, DispatcherExit);
    ReachableStep(c, s1, DispatcherExit);
  }

  /** The dispatcher, done with its message, sees Stop's cancellation and leaves an empty channel. */
  lemma LeaveEmpty(c: Config, s: State) returns (s': State)
    requires Reachable(c, s) && s.dispatcher == Spawning(false, []) && s.buffer == [] && s.stop == NotStopped
    ensures Reachable(c, s') && s'.dispatcher == Gone && s'.stop == Waiting && s'.wg == s.wg - 1
    ensures s'.runs == s.runs && s'.totalDelivered == s.totalDelivered && s'.totalErrors == s.totalErrors
  {
    var s1 := Apply(c, s, DispatchDone);
    ReachableStep(c, s, DispatchDone);
    var s2 := Apply(c, s1, StopCancels);
    ReachableStep(c, s1, StopCancels);
    var s3 := Apply(c, s2, SeeCancel);
    ReachableStep(c, s2, SeeCancel);
    s' := LeaveDrained(c, s3);
  }

  /** The totals do miss a panicked run in some stops. */
  lemma TotalsMissAPanic(c: Config, m: Message)
    requires c.bufferSize > 0 && c.maxWorkers > 0
    ensures exists s :: Reachable(c, s) && s.stop == Returned && |s.runs| == 1 && s.totalDelivered + s.totalErrors == 0
  {
    var s1 := StartOneRun(c, m);
    var s2 := PanicTheOne(c, s1);
    var s3 := LeaveEmpty(c, s2);
    var s4 := Apply(c, s3, StopReturns);
    ReachableStep(c, s3, StopReturns);
    assert |s4.runs| == 1;
  }
}
