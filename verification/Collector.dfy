/** The collector: messages accepted into a bounded work queue, many workers, counters that must balance in
    every interleaving, and a shutdown that may return early or never. */
module Collector {
  import opened Messages
  import opened Telemetry

  /** Any numbers of workers and queue places; the collector runs with 50 and 1000. `decode` is json.Unmarshal
      of the payload into a telemetry point. */
  datatype Config = Config(workers: nat, queueSize: nat, decode: Message -> Option<TelemetryPoint>)

  // ---------------------------------------------------------------- one message, run by itself

  /** The point a message leads to, if it decodes and validates. */
  function Acceptable(decode: Message -> Option<TelemetryPoint>, m: Message): Option<TelemetryPoint> {
    match decode(m)
    case None => None
    case Some(t) => if ValidateTelemetry(t) == None then Some(t) else None
  }

  /** The message decodes to a point with a uuid, a metric name and a timestamp. */
  predicate Valid(decode: Message -> Option<TelemetryPoint>, m: Message) {
    && decode(m).Some?
    && decode(m).value.gpuUuid != "" && decode(m).value.metricName != "" && decode(m).value.timestamp != 0
  }

  class Collector {
    const decode: Message -> Option<TelemetryPoint>
    var messagesProcessed: nat
    var messagesErrors: nat
    var gpusStored: nat
    var telemetryStored: nat
    var points: seq<TelemetryPoint>       // the telemetry repository

    constructor (decode: Message -> Option<TelemetryPoint>)
      ensures this.decode == decode && points == []
      ensures messagesProcessed == messagesErrors == gpusStored == telemetryStored == 0
    {
      this.decode := decode;
      messagesProcessed, messagesErrors, gpusStored, telemetryStored, points := 0, 0, 0, 0, [];
    }

    /** `gpuOk` and `pointOk` are whether the two repositories accept what they are given. A GPU that cannot be
        stored does not stop the point. */
    method ProcessMessage(msg: Message, gpuOk: bool, pointOk: bool)
      modifies this
      ensures messagesProcessed == old(messagesProcessed) + 1
      ensures points == old(points) + (if Valid(decode, msg) && pointOk then [decode(msg).value] else [])
      ensures telemetryStored - old(telemetryStored) == |points| - |old(points)|
      ensures gpusStored == old(gpusStored) + if Valid(decode, msg) && gpuOk then 1 else 0
      ensures telemetryStored + messagesErrors == old(telemetryStored + messagesErrors) + 1
    {
      messagesProcessed := messagesProcessed + 1;
      var telemetry := decode(msg);
      if telemetry.None? {
        messagesErrors := messagesErrors + 1;
        return;
      }
      if ValidateTelemetry(telemetry.value) != None {
        messagesErrors := messagesErrors + 1;
        return;
      }
      if gpuOk {
        gpusStored := gpusStored + 1;
      }
      if !pointOk {
        messagesErrors := messagesErrors + 1;
        return;
      }
      points := points + [telemetry.value];
      telemetryStored := telemetryStored + 1;
    }
  }

  // ---------------------------------------------------------------- many workers

  /** Where a worker stands in processMessage; counters are updated one atomic step at a time. */
  datatype Worker =
    | Idle                                   // at worker's select
    | Dequeued(msg: Message)                 // messagesProcessed not yet incremented
    | Begun(msg: Message)                    // counted, not yet decoded
    | Checked(msg: Message, t: TelemetryPoint)      // decoded and validated, GPU store next
    | GpuToCount(msg: Message, t: TelemetryPoint)   // GPU stored, gpusStored not yet incremented
    | Storing(msg: Message, t: TelemetryPoint)      // point store next
    | PointToCount(msg: Message)             // point stored, telemetryStored not yet incremented
    | ErrorToCount(msg: Message)             // failed, messagesErrors not yet incremented
    | Exited

  datatype StartState = Serving | QueueClosed | StartReturned

  /** `accepted`, `settled`, `filed`, `dropped`, `points`, `origins` and `monitorMark` are history: messages let into the
      queue, messages stored or counted as errors by a worker, those of them counted as stored, messages dropped after
      the five-second wait, points stored, the messages they came from, and how much had been accepted when the monitor
      found the queue empty. `workersDone` is the monitor's channel. */
  datatype State = State(
    queue: seq<Message>, workers: seq<Worker>,
    processed: nat, errors: nat, gpus: nat, stored: nat,
    cancelled: bool, workersDone: bool, start: StartState,
    accepted: seq<Message>, settled: seq<Message>, filed: seq<Message>, dropped: nat,
    points: seq<TelemetryPoint>, origins: seq<Message>, monitorMark: nat)

  function Initial(c: Config): State {
    State([], seq(c.workers, i => Idle), 0, 0, 0, 0, false, false, Serving, [], [], [], 0, [], [], 0)
  }

  datatype Action =
    | Accept(msg: Message)
    | Drop
    | Dequeue(w: nat)
    | CountProcessed(w: nat)
    | Check(w: nat)
    | StoreGpu(w: nat, ok: bool)
    | CountGpu(w: nat)
    | StorePoint(w: nat, ok: bool)
    | CountPoint(w: nat)
    | CountError(w: nat)
    | WorkerExit(w: nat)
    | Cancel
    | MonitorDone
    | CloseQueue
    | ReturnStart

  predicate Enabled(c: Config, s: State, a: Action) {
    match a
    case Accept(_) => |s.queue| < c.queueSize && s.start == Serving
    case Drop => true
    case Dequeue(w) => w < |s.workers| && s.workers[w].Idle? && s.queue != []
    case CountProcessed(w) => w < |s.workers| && s.workers[w].Dequeued?
    case Check(w) => w < |s.workers| && s.workers[w].Begun?
    case StoreGpu(w, _) => w < |s.workers| && s.workers[w].Checked?
    case CountGpu(w) => w < |s.workers| && s.workers[w].GpuToCount?
    case StorePoint(w, _) => w < |s.workers| && s.workers[w].Storing?
    case CountPoint(w) => w < |s.workers| && s.workers[w].PointToCount?
    case CountError(w) => w < |s.workers| && s.workers[w].ErrorToCount?
    // The select picks at random among its ready cases, so a cancelled worker may leave messages behind.
    case WorkerExit(w) => w < |s.workers| && s.workers[w].Idle? && (s.cancelled || (s.start != Serving && s.queue == []))
    case Cancel => !s.cancelled
    case MonitorDone => s.cancelled && s.queue == [] && !s.workersDone
    case CloseQueue => s.cancelled && s.start == Serving
    case ReturnStart => s.start == QueueClosed && s.workersDone
  }

  function Set(s: State, w: nat, x: Worker): State
    requires w < |s.workers|
  {
    s.(workers := s.workers[w := x])
  }

  function Apply(c: Config, s: State, a: Action): State
    requires Enabled(c, s, a)
  {
    match a
    case Accept(m) => s.(queue := s.queue + [m], accepted := s.accepted + [m])
    case Drop => s.(errors := s.errors + 1, dropped := s.dropped + 1)
    case Dequeue(w) => Set(s, w, Dequeued(s.queue[0])).(queue := s.queue[1..])
    case CountProcessed(w) => Set(s, w, Begun(s.workers[w].msg)).(processed := s.processed + 1)
    case Check(w) =>
      var m, t := s.workers[w].msg, Acceptable(c.decode, s.workers[w].msg);
      Set(s, w, if t.None? then ErrorToCount(m) else Checked(m, t.value))
    case StoreGpu(w, ok) =>
      var m, t := s.workers[w].msg, s.workers[w].t;
      Set(s, w, if ok then GpuToCount(m, t) else Storing(m, t))
    case CountGpu(w) => Set(s, w, Storing(s.workers[w].msg, s.workers[w].t)).(gpus := s.gpus + 1)
    case StorePoint(w, ok) =>
      var m := s.workers[w].msg;
      if ok then Set(s, w, PointToCount(m)).(points := s.points + [s.workers[w].t], origins := s.origins + [m])
      else Set(s, w, ErrorToCount(m))
    case CountPoint(w) =>
      var m := s.workers[w].msg;
      Set(s, w, Idle).(stored := s.stored + 1, settled := s.settled + [m], filed := s.filed + [m])
    case CountError(w) => Set(s, w, Idle).(errors := s.errors + 1, settled := s.settled + [s.workers[w].msg])
    case WorkerExit(w) => Set(s, w, Exited)
    case Cancel => s.(cancelled := true)
    case MonitorDone => s.(workersDone := true, monitorMark := |s.accepted|)
    case CloseQueue => s.(start := QueueClosed)
    case ReturnStart => s.(start := StartReturned)
  }

  predicate Runs(c: Config, s: State, acts: seq<Action>)
    decreases |acts|
  {
    acts == [] || (Enabled(c, s, acts[0]) && Runs(c, Apply(c, s, acts[0]), acts[1..]))
  }

  function After(c: Config, s: State, acts: seq<Action>): State
    requires Runs(c, s, acts)
    decreases |acts|
  {
    if acts == [] then s else After(c, Apply(c, s, acts[0]), acts[1..])
  }

  ghost predicate Reachable(c: Config, s: State) {
    exists acts :: Runs(c, Initial(c), acts) && After(c, Initial(c), acts) == s
  }

  // ---------------------------------------------------------------- balance

  datatype Share = JustDequeued | InProgress | MayCountGpu | GpuUncounted | PointUncounted

  function Weight(k: Share, x: Worker): nat {
    match k
    case JustDequeued => if x.Dequeued? then 1 else 0
    case InProgress => if x.Idle? || x.Dequeued? || x.Exited? then 0 else 1
    case MayCountGpu => if x.Begun? || x.Checked? || x.GpuToCount? then 1 else 0
    case GpuUncounted => if x.GpuToCount? then 1 else 0
    case PointUncounted => if x.PointToCount? then 1 else 0
  }

  /** The number of workers that count towards a share. */
  function Sum(k: Share, ws: seq<Worker>): nat {
    if ws == [] then 0 else Sum(k, ws[..|ws| - 1]) + Weight(k, ws[|ws| - 1])
  }

  lemma {:induction false} SumUpdate(k: Share, ws: seq<Worker>, w: nat, x: Worker)
    requires w < |ws|
    ensures Sum(k, ws[w := x]) + Weight(k, ws[w]) == Sum(k, ws) + Weight(k, x)
  {
    var n := |ws| - 1;
    if w < n {
      SumUpdate(k, ws[..n], w, x);
      assert ws[w := x][..n] == ws[..n][w := x];
    } else {
      assert ws[w := x][..n] == ws[..n];
    }
  }

  lemma {:induction false} SumIdle(k: Share, n: nat)
    ensures Sum(k, seq(n, i => Idle)) == 0
  {
    if n > 0 {
      assert seq(n, i => Idle)[..n - 1] == seq(n - 1, i => Idle);
      SumIdle(k, n - 1);
    }
  }

  ghost predicate Balanced(s: State) {
    && |s.accepted| == s.processed + |s.queue| + Sum(JustDequeued, s.workers)
    && s.processed + s.dropped == s.stored + s.errors + Sum(InProgress, s.workers)
    && s.gpus + Sum(MayCountGpu, s.workers) <= s.processed
    && |s.points| == s.stored + Sum(PointUncounted, s.workers)
  }

  predicate CarriesValid(x: Worker) {
    x.Checked? || x.GpuToCount? || x.Storing? ==> ValidateTelemetry(x.t) == None
  }

  ghost predicate OnlyValid(s: State) {
    && (forall i :: 0 <= i < |s.workers| ==> CarriesValid(s.workers[i]))
    && (forall i :: 0 <= i < |s.points| ==> ValidateTelemetry(s.points[i]) == None)
  }

  /** The worker an action moves. */
  function Mover(a: Action): Option<nat> {
    match a
    case Accept(_) => None
    case Drop => None
    case Cancel => None
    case MonitorDone => None
    case CloseQueue => None
    case ReturnStart => None
    case _ => Some(a.w)
  }

  /** A worker's step keeps the balance when the counters change by what its weights change by. */
  lemma MoveBalance(s: State, s': State, w: nat)
    requires Balanced(s) && w < |s.workers| == |s'.workers| && s'.workers == s.workers[w := s'.workers[w]]
    requires
      var x, x' := s.workers[w], s'.workers[w];
      && s'.processed + |s'.queue| + Weight(JustDequeued, x') == s.processed + |s.queue| + Weight(JustDequeued, x)
      && s'.stored + s'.errors + Weight(InProgress, x') - s'.processed == s.stored + s.errors + Weight(InProgress, x) - s.processed
      && s'.gpus + Weight(MayCountGpu, x') - s'.processed <= s.gpus + Weight(MayCountGpu, x) - s.processed
      && s'.stored + Weight(PointUncounted, x') - |s'.points| == s.stored + Weight(PointUncounted, x) - |s.points|
    requires s'.accepted == s.accepted && s'.dropped == s.dropped
    ensures Balanced(s')
  {
    SumUpdate(JustDequeued, s.workers, w, s'.workers[w]);
    SumUpdate(InProgress, s.workers, w, s'.workers[w]);
    SumUpdate(MayCountGpu, s.workers, w, s'.workers[w]);
    SumUpdate(PointUncounted, s.workers, w, s'.workers[w]);
  }

  lemma BeginBalance(c: Config, s: State, a: Action)
    requires (a.Dequeue? || a.CountProcessed? || a.Check?) && Enabled(c, s, a) && Balanced(s)
    ensures Balanced(Apply(c, s, a))
  {
    MoveBalance(s, Apply(c, s, a), a.w);
  }

  lemma StoreBalance(c: Config, s: State, a: Action)
    requires (a.StoreGpu? || a.CountGpu? || a.StorePoint?) && Enabled(c, s, a) && Balanced(s)
    ensures Balanced(Apply(c, s, a))
  {
    MoveBalance(s, Apply(c, s, a), a.w);
  }

  lemma FinishBalance(c: Config, s: State, a: Action)
    requires (a.CountPoint? || a.CountError? || a.WorkerExit?) && Enabled(c, s, a) && Balanced(s)
    ensures Balanced(Apply(c, s, a))
  {
    MoveBalance(s, Apply(c, s, a), a.w);
  }

  lemma BalanceStep(c: Config, s: State, a: Action)
    requires Enabled(c, s, a) && Balanced(s)
    ensures Balanced(Apply(c, s, a))
  {
    if a.Dequeue? || a.CountProcessed? || a.Check? {
      BeginBalance(c, s, a);
    } else if a.StoreGpu? || a.CountGpu? || a.StorePoint? {
      StoreBalance(c, s, a);
    } else if a.CountPoint? || a.CountError? || a.WorkerExit? {
      FinishBalance(c, s, a);
    }
  }

  lemma ValidStep(c: Config, s: State, a: Action)
    requires Enabled(c, s, a) && OnlyValid(s)
    ensures OnlyValid(Apply(c, s, a))
  {
    if Mover(a).Some? {
      assert CarriesValid(s.workers[Mover(a).value]);
    }
  }

  lemma {:induction false} BalanceAlong(c: Config, s: State, acts: seq<Action>)
    requires Runs(c, s, acts) && Balanced(s) && OnlyValid(s)
    ensures Balanced(After(c, s, acts)) && OnlyValid(After(c, s, acts))
    decreases |acts|
  {
    if acts != [] {
      BalanceStep(c, s, acts[0]);
      ValidStep(c, s, acts[0]);
      BalanceAlong(c, Apply(c, s, acts[0]), acts[1..]);
    }
  }

  /** In every interleaving of any number of workers: what was accepted is processed, queued or just dequeued;
      what was processed or dropped is stored, failed or in progress; no more GPUs are stored than messages
      processed; and every stored point passes validation. */
  lemma CountersBalance(c: Config, s: State)
    requires Reachable(c, s)
    ensures |s.accepted| == s.processed + |s.queue| + Sum(JustDequeued, s.workers)
    ensures s.processed + s.dropped == s.stored + s.errors + Sum(InProgress, s.workers)
    ensures s.gpus <= s.processed && |s.points| == s.stored + Sum(PointUncounted, s.workers)
    ensures forall i :: 0 <= i < |s.points| ==> ValidateTelemetry(s.points[i]) == None
  {
    var acts :| Runs(c, Initial(c), acts) && After(c, Initial(c), acts) == s;
    SumIdle(JustDequeued, c.workers);
    SumIdle(InProgress, c.workers);
    SumIdle(MayCountGpu, c.workers);
    SumIdle(PointUncounted, c.workers);
    BalanceAlong(c, Initial(c), acts);
  }

  // ---------------------------------------------------------------- where each message is

  /** The message a worker has in hand. */
  function InHand(x: Worker): Option<Message> {
    if x.Idle? || x.Exited? then None else Some(x.msg)
  }

  function Holders(ws: seq<Worker>, m: Message): nat {
    if ws == [] then 0
    else Holders(ws[..|ws| - 1], m) + if InHand(ws[|ws| - 1]) == Some(m) then 1 else 0
  }

  lemma {:induction false} HoldersUpdate(ws: seq<Worker>, m: Message, w: nat, x: Worker)
    requires w < |ws|
    ensures Holders(ws[w := x], m) + (if InHand(ws[w]) == Some(m) then 1 else 0)
         == Holders(ws, m) + if InHand(x) == Some(m) then 1 else 0
  {
    var n := |ws| - 1;
    if w < n {
      HoldersUpdate(ws[..n], m, w, x);
      assert ws[w := x][..n] == ws[..n][w := x];
    } else {
      assert ws[w := x][..n] == ws[..n];
    }
  }

  lemma {:induction false} HoldersZeroIff(ws: seq<Worker>, m: Message)
    ensures Holders(ws, m) == 0 <==> forall i :: 0 <= i < |ws| ==> InHand(ws[i]) != Some(m)
  {
    if ws != [] {
      var n := |ws| - 1;
      HoldersZeroIff(ws[..n], m);
      assert forall i :: 0 <= i < n ==> ws[..n][i] == ws[i];
    }
  }

  /** Each copy of a message accepted is settled, queued or in a worker's hand. */
  ghost predicate Tracked(s: State, m: Message) {
    multiset(s.accepted)[m] == multiset(s.settled)[m] + multiset(s.queue)[m] + Holders(s.workers, m)
  }

  lemma AcceptTracked(c: Config, s: State, x: Message, m: Message)
    requires Enabled(c, s, Accept(x)) && Tracked(s, m)
    ensures Tracked(Apply(c, s, Accept(x)), m)
  {
  }

  lemma DequeueTracked(c: Config, s: State, w: nat, m: Message)
    requires Enabled(c, s, Dequeue(w)) && Tracked(s, m)
    ensures Tracked(Apply(c, s, Dequeue(w)), m)
  {
    assert s.queue == [s.queue[0]] + s.queue[1..];
    HoldersUpdate(s.workers, m, w, Dequeued(s.queue[0]));
  }

  lemma CountTracked(c: Config, s: State, a: Action, m: Message)
    requires (a.CountPoint? || a.CountError?) && Enabled(c, s, a) && Tracked(s, m)
    ensures Tracked(Apply(c, s, a), m)
  {
    HoldersUpdate(s.workers, m, a.w, Idle);
  }

  predicate Plain(a: Action) {
    !a.Accept? && !a.Dequeue? && !a.CountPoint? && !a.CountError?
  }

  /** The other actions leave queue and history alone, and the message in the hand of the worker that moves. */
  lemma PlainKeeps(c: Config, s: State, a: Action)
    requires Plain(a) && Enabled(c, s, a)
    ensures
      var s' := Apply(c, s, a);
      && s'.accepted == s.accepted && s'.settled == s.settled && s'.queue == s.queue
      && (Mover(a).None? ==> s'.workers == s.workers)
      && (Mover(a).Some? ==>
            var w := Mover(a).value;
            w < |s.workers| == |s'.workers| && s'.workers == s.workers[w := s'.workers[w]] && InHand(s'.workers[w]) == InHand(s.workers[w]))
  {
  }

  lemma PlainTracked(c: Config, s: State, a: Action, m: Message)
    requires Plain(a) && Enabled(c, s, a) && Tracked(s, m)
    ensures Tracked(Apply(c, s, a), m)
  {
    PlainKeeps(c, s, a);
    if Mover(a).Some? {
      HoldersUpdate(s.workers, m, Mover(a).value, Apply(c, s, a).workers[Mover(a).value]);
    }
  }

  lemma {:induction false} TrackedAlong(c: Config, s: State, acts: seq<Action>, m: Message)
    requires Runs(c, s, acts) && Tracked(s, m)
    ensures Tracked(After(c, s, acts), m)
    decreases |acts|
  {
    if acts != [] {
      match acts[0] {
        case Accept(x) => AcceptTracked(c, s, x, m);
        case Dequeue(w) => DequeueTracked(c, s, w, m);
        case CountPoint(_) => CountTracked(c, s, acts[0], m);
        case CountError(_) => CountTracked(c, s, acts[0], m);
        case _ => PlainTracked(c, s, acts[0], m);
      }
      TrackedAlong(c, Apply(c, s, acts[0]), acts[1..], m);
    }
  }

  lemma {:induction false} NoHolders(n: nat, m: Message)
    ensures Holders(seq(n, i => Idle), m) == 0
  {
    HoldersZeroIff(seq(n, i => Idle), m);
  }

  /** In every interleaving each copy of a message accepted has been stored or counted as an error by a worker, or
      waits in the queue, or is in a worker's hand; of a message accepted once, exactly one of these holds. */
  lemma WhereMessagesAre(c: Config, s: State, m: Message)
    requires Reachable(c, s)
    ensures multiset(s.accepted)[m] == multiset(s.settled)[m] + multiset(s.queue)[m] + Holders(s.workers, m)
    ensures multiset(s.accepted)[m] == 1 ==>
      (m !in s.settled <==> m in s.queue || exists i :: 0 <= i < |s.workers| && InHand(s.workers[i]) == Some(m))
  {
    var acts :| Runs(c, Initial(c), acts) && After(c, Initial(c), acts) == s;
    NoHolders(c.workers, m);
    TrackedAlong(c, Initial(c), acts, m);
    HoldersZeroIff(s.workers, m);
    assert m in s.settled <==> multiset(s.settled)[m] > 0;
    assert m in s.queue <==> multiset(s.queue)[m] > 0;
  }

  // ---------------------------------------------------------------- what is stored, and what counts as an error

  /** A worker past validation carries the point its message decodes to. */
  predicate CarriesOwn(decode: Message -> Option<TelemetryPoint>, x: Worker) {
    && (x.Checked? || x.GpuToCount? || x.Storing? ==> Valid(decode, x.msg) && x.t == decode(x.msg).value)
    && (x.PointToCount? ==> Valid(decode, x.msg))
  }

  /** What is stored and counted comes from messages that decode to valid points. */
  ghost predicate HistoryRight(c: Config, s: State) {
    && |s.origins| == |s.points|
    && (forall i :: 0 <= i < |s.points| ==> Valid(c.decode, s.origins[i]) && s.points[i] == c.decode(s.origins[i]).value)
    && |s.filed| == s.stored && |s.settled| + s.dropped == s.stored + s.errors && (forall m :: m in s.filed ==> Valid(c.decode, m))
  }

  ghost predicate StoredRight(c: Config, s: State) {
    (forall i :: 0 <= i < |s.workers| ==> CarriesOwn(c.decode, s.workers[i])) && HistoryRight(c, s)
  }

  lemma AcceptableIff(decode: Message -> Option<TelemetryPoint>, m: Message)
    ensures Acceptable(decode, m) == if Valid(decode, m) then decode(m) else None
  {
  }

  lemma MoverStoresRight(c: Config, s: State, a: Action)
    requires Enabled(c, s, a) && StoredRight(c, s) && Mover(a).Some?
    ensures CarriesOwn(c.decode, Apply(c, s, a).workers[Mover(a).value])
  {
    assert CarriesOwn(c.decode, s.workers[Mover(a).value]);
    if a.Check? {
      AcceptableIff(c.decode, s.workers[a.w].msg);
    }
  }

  lemma WorkersStoreRight(c: Config, s: State, a: Action, i: nat)
    requires Enabled(c, s, a) && StoredRight(c, s) && i < |Apply(c, s, a).workers|
    ensures i < |s.workers| && CarriesOwn(c.decode, Apply(c, s, a).workers[i])
  {
    if Mover(a) == Some(i) {
      MoverStoresRight(c, s, a);
    } else {
      assert i < |s.workers| && Apply(c, s, a).workers[i] == s.workers[i];
    }
  }

  lemma HistoryStep(c: Config, s: State, a: Action)
    requires Enabled(c, s, a) && HistoryRight(c, s)
    requires Mover(a).Some? ==> CarriesOwn(c.decode, s.workers[Mover(a).value])
    ensures HistoryRight(c, Apply(c, s, a))
  {
  }

  lemma StoredRightStep(c: Config, s: State, a: Action)
    requires Enabled(c, s, a) && StoredRight(c, s)
    ensures StoredRight(c, Apply(c, s, a))
  {
    var s' := Apply(c, s, a);
    forall i | 0 <= i < |s'.workers| ensures CarriesOwn(c.decode, s'.workers[i]) {
      WorkersStoreRight(c, s, a, i);
    }
    HistoryStep(c, s, a);
  }

  lemma {:induction false} StoredRightAlong(c: Config, s: State, acts: seq<Action>)
    requires Runs(c, s, acts) && StoredRight(c, s)
    ensures StoredRight(c, After(c, s, acts))
    decreases |acts|
  {
    if acts != [] {
      StoredRightStep(c, s, acts[0]);
      StoredRightAlong(c, Apply(c, s, acts[0]), acts[1..]);
    }
  }

  /** Copies of `m` whose point is stored and not yet counted. */
  function Uncounted(ws: seq<Worker>, m: Message): nat {
    if ws == [] then 0
    else Uncounted(ws[..|ws| - 1], m) + if ws[|ws| - 1] == PointToCount(m) then 1 else 0
  }

  lemma {:induction false} UncountedUpdate(ws: seq<Worker>, m: Message, w: nat, x: Worker)
    requires w < |ws|
    ensures Uncounted(ws[w := x], m) + (if ws[w] == PointToCount(m) then 1 else 0)
         == Uncounted(ws, m) + if x == PointToCount(m) then 1 else 0
  {
    var n := |ws| - 1;
    if w < n {
      UncountedUpdate(ws[..n], m, w, x);
      assert ws[w := x][..n] == ws[..n][w := x];
    } else {
      assert ws[w := x][..n] == ws[..n];
    }
  }

  lemma {:induction false} UncountedWithin(ws: seq<Worker>, m: Message)
    ensures Uncounted(ws, m) <= Holders(ws, m)
  {
    if ws != [] {
      UncountedWithin(ws[..|ws| - 1], m);
    }
  }

  /** Each point stored from `m` is counted or about to be, and each count belongs to a settled copy. */
  ghost predicate Filed(s: State, m: Message) {
    && multiset(s.origins)[m] == multiset(s.filed)[m] + Uncounted(s.workers, m)
    && multiset(s.filed)[m] <= multiset(s.settled)[m]
  }

  lemma StorePointFiled(c: Config, s: State, w: nat, ok: bool, m: Message)
    requires Enabled(c, s, StorePoint(w, ok)) && Filed(s, m)
    ensures Filed(Apply(c, s, StorePoint(w, ok)), m)
  {
    UncountedUpdate(s.workers, m, w, Apply(c, s, StorePoint(w, ok)).workers[w]);
  }

  lemma CountFiled(c: Config, s: State, a: Action, m: Message)
    requires (a.CountPoint? || a.CountError?) && Enabled(c, s, a) && Filed(s, m)
    ensures Filed(Apply(c, s, a), m)
  {
    UncountedUpdate(s.workers, m, a.w, Idle);
  }

  predicate Aside(a: Action) {
    !a.StorePoint? && !a.CountPoint? && !a.CountError?
  }

  lemma AsideKeeps(c: Config, s: State, a: Action)
    requires Aside(a) && Enabled(c, s, a)
    ensures
      var s' := Apply(c, s, a);
      && s'.origins == s.origins && s'.filed == s.filed && s'.settled == s.settled
      && (Mover(a).None? ==> s'.workers == s.workers)
      && (Mover(a).Some? ==>
            var w := Mover(a).value;
            && w < |s.workers| == |s'.workers| && s'.workers == s.workers[w := s'.workers[w]]
            && !s.workers[w].PointToCount? && !s'.workers[w].PointToCount?)
  {
  }

  lemma AsideFiled(c: Config, s: State, a: Action, m: Message)
    requires Aside(a) && Enabled(c, s, a) && Filed(s, m)
    ensures Filed(Apply(c, s, a), m)
  {
    AsideKeeps(c, s, a);
    if Mover(a).Some? {
      UncountedUpdate(s.workers, m, Mover(a).value, Apply(c, s, a).workers[Mover(a).value]);
    }
  }

  lemma {:induction false} FiledAlong(c: Config, s: State, acts: seq<Action>, m: Message)
    requires Runs(c, s, acts) && Filed(s, m)
    ensures Filed(After(c, s, acts), m)
    decreases |acts|
  {
    if acts != [] {
      match acts[0] {
        case StorePoint(w, ok) => StorePointFiled(c, s, w, ok, m);
        case CountPoint(_) => CountFiled(c, s, acts[0], m);
        case CountError(_) => CountFiled(c, s, acts[0], m);
        case _ => AsideFiled(c, s, acts[0], m);
      }
      FiledAlong(c, Apply(c, s, acts[0]), acts[1..], m);
    }
  }

  lemma {:induction false} NoneUncounted(n: nat, m: Message)
    ensures Uncounted(seq(n, i => Idle), m) == 0
  {
    NoHolders(n, m);
    UncountedWithin(seq(n, i => Idle), m);
  }

  predicate GpuAccepted(a: Action) {
    a.StoreGpu? && a.ok
  }

  lemma GpuStep(c: Config, s: State, a: Action)
    requires Enabled(c, s, a)
    ensures
      var s' := Apply(c, s, a);
      s'.gpus + Sum(GpuUncounted, s'.workers) == s.gpus + Sum(GpuUncounted, s.workers) + if GpuAccepted(a) then 1 else 0
  {
    if Mover(a).Some? {
      var w, s' := Mover(a).value, Apply(c, s, a);
      assert s'.workers == s.workers[w := s'.workers[w]];
      SumUpdate(GpuUncounted, s.workers, w, s'.workers[w]);
    }
  }

  /** The GPUs counted are exactly those the repository accepted, less those a worker is about to count. */
  lemma {:induction false} GpusExactly(c: Config, acts: seq<Action>)
    requires Runs(c, Initial(c), acts)
    ensures
      var s := After(c, Initial(c), acts);
      s.gpus + Sum(GpuUncounted, s.workers) == |Indices(acts, GpuAccepted)|
    decreases |acts|
  {
    if acts == [] {
      SumIdle(GpuUncounted, c.workers);
    } else {
      var n := |acts| - 1;
      RunsFront(c, Initial(c), acts);
      GpusExactly(c, acts[..n]);
      GpuStep(c, After(c, Initial(c), acts[..n]), acts[n]);
      assert acts == acts[..n] + [acts[n]];
    }
  }

  /** A run up to its last action. */
  lemma {:induction false} RunsFront(c: Config, s: State, acts: seq<Action>)
    requires Runs(c, s, acts) && acts != []
    ensures
      var n := |acts| - 1;
      && Runs(c, s, acts[..n]) && Enabled(c, After(c, s, acts[..n]), acts[n])
      && After(c, s, acts) == Apply(c, After(c, s, acts[..n]), acts[n])
    decreases |acts|
  {
    var n := |acts| - 1;
    if n > 0 {
      RunsFront(c, Apply(c, s, acts[0]), acts[1..]);
      assert acts[..n][0] == acts[0] && acts[..n][1..] == acts[1..][..n - 1];
    } else {
      assert acts[1..] == [] && acts[..0] == [];
    }
  }

  /** In every interleaving each point stored is what an accepted message decodes to, with a uuid, a metric name and a
      timestamp; a message is stored at most as often as it was accepted; and a settled message counted as stored is
      one that decodes and validates, whose point was stored. */
  lemma StoredExactly(c: Config, s: State, m: Message)
    requires Reachable(c, s)
    ensures |s.origins| == |s.points| && |s.filed| == s.stored && |s.settled| - |s.filed| == s.errors - s.dropped
    ensures forall i :: 0 <= i < |s.points| ==>
      && c.decode(s.origins[i]) == Some(s.points[i])
      && s.points[i].gpuUuid != "" && s.points[i].metricName != "" && s.points[i].timestamp != 0
    ensures multiset(s.filed)[m] <= multiset(s.settled)[m] && multiset(s.filed)[m] <= multiset(s.origins)[m]
    ensures multiset(s.origins)[m] <= multiset(s.accepted)[m]
    ensures m in s.filed ==> Valid(c.decode, m)
  {
    var acts :| Runs(c, Initial(c), acts) && After(c, Initial(c), acts) == s;
    StoredRightAlong(c, Initial(c), acts);
    NoneUncounted(c.workers, m);
    FiledAlong(c, Initial(c), acts, m);
    WhereMessagesAre(c, s, m);
    UncountedWithin(s.workers, m);
    forall i | 0 <= i < |s.points| ensures c.decode(s.origins[i]) == Some(s.points[i]) && s.points[i].gpuUuid != ""
      && s.points[i].metricName != "" && s.points[i].timestamp != 0
    {
      assert Valid(c.decode, s.origins[i]) && s.points[i] == c.decode(s.origins[i]).value;
    }
  }

  // ---------------------------------------------------------------- shutdown

  /** The collector can run on so that Start returns. */
  ghost predicate CanReturn(c: Config, s: State) {
    exists acts :: Runs(c, s, acts) && After(c, s, acts).start == StartReturned
  }

  predicate AllExited(s: State) {
    forall i :: 0 <= i < |s.workers| ==> s.workers[i].Exited?
  }

  /** The monitor waits for a queue nobody will empty. */
  predicate Stuck(s: State) {
    !s.workersDone && s.start != StartReturned && s.queue != [] && AllExited(s)
  }

  lemma {:induction false} StuckForever(c: Config, s: State, acts: seq<Action>)
    requires Runs(c, s, acts) && Stuck(s)
    ensures Stuck(After(c, s, acts))
    decreases |acts|
  {
    if acts != [] {
      StuckForever(c, Apply(c, s, acts[0]), acts[1..]);
    }
  }

  /** A step with which worker `w`, which has not exited, gets on. */
  function NextAction(s: State, w: nat): Action
    requires w < |s.workers| && !s.workers[w].Exited?
  {
    match s.workers[w]
    case Idle => Dequeue(w)
    case Dequeued(_) => CountProcessed(w)
    case Begun(_) => Check(w)
    case Checked(_, _) => StoreGpu(w, false)
    case GpuToCount(_, _) => CountGpu(w)
    case Storing(_, _) => StorePoint(w, true)
    case PointToCount(_) => CountPoint(w)
    case ErrorToCount(_) => CountError(w)
  }

  function StepsLeft(x: Worker): nat {
    match x
    case Idle => 0
    case Dequeued(_) => 6
    case Begun(_) => 5
    case Checked(_, _) => 4
    case GpuToCount(_, _) => 3
    case Storing(_, _) => 2
    case PointToCount(_) => 1
    case ErrorToCount(_) => 1
    case Exited => 0
  }

  /** One live worker can empty the queue by itself. */
  lemma {:induction false} OneWorkerDrains(c: Config, s: State, w: nat) returns (acts: seq<Action>)
    requires w < |s.workers| && !s.workers[w].Exited?
    ensures Runs(c, s, acts)
    ensures var s' := After(c, s, acts); s'.queue == [] && s'.cancelled == s.cancelled && s'.workersDone == s.workersDone && s'.start == s.start
    decreases |s.queue|, StepsLeft(s.workers[w])
  {
    if s.queue == [] {
      acts := [];
    } else {
      var a := NextAction(s, w);
      var rest := OneWorkerDrains(c, Apply(c, s, a), w);
      acts := [a] + rest;
      assert acts[0] == a && acts[1..] == rest;
    }
  }

  lemma {:induction false} RunsConcat(c: Config, s: State, a: seq<Action>, b: seq<Action>)
    requires Runs(c, s, a) && Runs(c, After(c, s, a), b)
    ensures Runs(c, s, a + b) && After(c, s, a + b) == After(c, After(c, s, a), b)
    decreases |a|
  {
    if a == [] {
      assert a + b == b;
    } else {
      RunsConcat(c, Apply(c, s, a[0]), a[1..], b);
      assert (a + b)[0] == a[0] && (a + b)[1..] == a[1..] + b;
    }
  }

  lemma StepThen(c: Config, s: State, a: Action)
    requires Enabled(c, s, a) && CanReturn(c, Apply(c, s, a))
    ensures CanReturn(c, s)
  {
    var rest :| Runs(c, Apply(c, s, a), rest) && After(c, Apply(c, s, a), rest).start == StartReturned;
    assert ([a] + rest)[0] == a && ([a] + rest)[1..] == rest;
    assert Runs(c, s, [a] + rest);
  }

  /** With the monitor done, Start closes the queue and returns. */
  lemma MonitorDoneReturns(c: Config, s: State)
    requires s.cancelled && s.workersDone
    ensures CanReturn(c, s)
  {
    if s.start == StartReturned {
      assert Runs(c, s, []) && After(c, s, []) == s;
    } else if s.start == QueueClosed {
      assert Runs(c, Apply(c, s, ReturnStart), []);
      StepThen(c, s, ReturnStart);
    } else {
      var s1 := Apply(c, s, CloseQueue);
      assert Runs(c, Apply(c, s1, ReturnStart), []);
      StepThen(c, s1, ReturnStart);
      StepThen(c, s, CloseQueue);
    }
  }

  /** After cancellation Start can still return if and only if it is not stuck: all workers gone, messages in
      the queue, and the monitor still waiting for the queue to empty. */
  lemma ShutdownReturnsIff(c: Config, s: State)
    requires s.cancelled
    ensures CanReturn(c, s) <==> !Stuck(s)
  {
    if Stuck(s) {
      forall acts | Runs(c, s, acts) ensures After(c, s, acts).start != StartReturned {
        StuckForever(c, s, acts);
      }
    } else if s.start == StartReturned {
      assert Runs(c, s, []) && After(c, s, []) == s;
    } else if s.workersDone {
      MonitorDoneReturns(c, s);
    } else {
      var acts: seq<Action> := [];
      if s.queue != [] {
        var w :| 0 <= w < |s.workers| && !s.workers[w].Exited?;
        acts := OneWorkerDrains(c, s, w);
      }
      var s1 := After(c, s, acts);
      MonitorDoneReturns(c, Apply(c, s1, MonitorDone));
      StepThen(c, s1, MonitorDone);
      var rest :| Runs(c, s1, rest) && After(c, s1, rest).start == StartReturned;
      RunsConcat(c, s, acts, rest);
    }
  }

  lemma ReachableStep(c: Config, s: State, a: Action)
    requires Reachable(c, s) && Enabled(c, s, a)
    ensures Reachable(c, Apply(c, s, a))
  {
    var acts :| Runs(c, Initial(c), acts) && After(c, Initial(c), acts) == s;
    var s' := Apply(c, s, a);
    assert [a][0] == a && [a][1..] == [];
    assert Runs(c, s', []) && After(c, s', []) == s';
    assert Runs(c, s, [a]) && After(c, s, [a]) == After(c, s', []);
    RunsConcat(c, Initial(c), acts, [a]);
  }

  lemma {:induction false} ExitAll(c: Config, s: State, n: nat) returns (s': State)
    requires Reachable(c, s) && s.cancelled && n <= |s.workers|
    requires forall i :: 0 <= i < n ==> s.workers[i].Idle?
    ensures Reachable(c, s') && s'.(workers := s.workers) == s && |s'.workers| == |s.workers|
    ensures forall i :: 0 <= i < n ==> s'.workers[i].Exited?
    ensures forall i :: n <= i < |s.workers| ==> s'.workers[i] == s.workers[i]
  {
    s' := s;
    if n > 0 {
      s' := ExitAll(c, s, n - 1);
      var s1 := s';
      s' := Apply(c, s1, WorkerExit(n - 1));
      ReachableStep(c, s1, WorkerExit(n - 1));
    }
  }

  /** The stuck shutdown happens: a message accepted just before cancellation can outlive all the workers. */
  lemma ShutdownCanHang(c: Config, m: Message)
    requires c.queueSize > 0
    ensures exists s :: Reachable(c, s) && s.cancelled && s.queue == [m] && !CanReturn(c, s)
  {
    var s0 := Initial(c);
    assert Runs(c, s0, []) && After(c, s0, []) == s0;
    var s1 := Apply(c, s0, Accept(m));
    ReachableStep(c, s0, Accept(m));
    var s2 := Apply(c, s1, Cancel);
    ReachableStep(c, s1, Cancel);
    var s3 := ExitAll(c, s2, c.workers);
    assert s3.queue == [m];
    ShutdownReturnsIff(c, s3);
  }

  // ---------------------------------------------------------------- what is finished when Start returns

  predicate AtRest(x: Worker) {
    x.Idle? || x.Exited?
  }

  /** The number of workers with a message in hand. */
  function Busy(ws: seq<Worker>): nat {
    Sum(JustDequeued, ws) + Sum(InProgress, ws)
  }

  lemma {:induction false} BusyZeroIff(ws: seq<Worker>)
    ensures Busy(ws) == 0 <==> forall i :: 0 <= i < |ws| ==> AtRest(ws[i])
  {
    if ws != [] {
      var n := |ws| - 1;
      BusyZeroIff(ws[..n]);
      assert forall i :: 0 <= i < n ==> ws[..n][i] == ws[i];
    }
  }

  /** What the counters fall short of what came in is what waits in the queue and what workers hold, in every
      reachable state; so they cover everything exactly when the queue is empty and every worker at rest. */
  lemma AllSettledIff(c: Config, s: State)
    requires Reachable(c, s)
    ensures |s.accepted| + s.dropped == s.stored + s.errors + |s.queue| + Busy(s.workers)
    ensures |s.accepted| + s.dropped == s.stored + s.errors
      <==> s.queue == [] && forall i :: 0 <= i < |s.workers| ==> AtRest(s.workers[i])
  {
    CountersBalance(c, s);
    BusyZeroIff(s.workers);
  }

  /** The queue holds the latest of what was accepted; all else has been handed to a worker, among it everything
      accepted before the monitor looked. */
  ghost predicate QueueIsLatest(s: State) {
    && |s.queue| <= |s.accepted|
    && s.queue == s.accepted[|s.accepted| - |s.queue|..]
    && (s.workersDone ==> s.monitorMark <= |s.accepted| - |s.queue|)
    && (s.start == StartReturned ==> s.workersDone)
  }

  lemma AcceptLatest(c: Config, s: State, m: Message)
    requires Enabled(c, s, Accept(m)) && QueueIsLatest(s)
    ensures QueueIsLatest(Apply(c, s, Accept(m)))
  {
    var n := |s.accepted| - |s.queue|;
    assert (s.accepted + [m])[n..] == s.accepted[n..] + [m];
  }

  lemma DequeueLatest(c: Config, s: State, w: nat)
    requires Enabled(c, s, Dequeue(w)) && QueueIsLatest(s)
    ensures QueueIsLatest(Apply(c, s, Dequeue(w)))
  {
    assert s.queue[1..] == s.accepted[|s.accepted| - |s.queue| + 1..];
  }

  lemma MoveLatest(c: Config, s: State, a: Action)
    requires Enabled(c, s, a) && !a.Accept? && !a.Dequeue?
    ensures
      var s' := Apply(c, s, a);
      && s'.queue == s.queue && s'.accepted == s.accepted
      && (s'.workersDone ==> (s.workersDone && s'.monitorMark == s.monitorMark) || (s.queue == [] && s'.monitorMark == |s.accepted|))
      && (s'.start == StartReturned ==> s.start == StartReturned || s.workersDone)
      && (s.workersDone ==> s'.workersDone)
  {
  }

  lemma QueueIsLatestStep(c: Config, s: State, a: Action)
    requires Enabled(c, s, a) && QueueIsLatest(s)
    ensures QueueIsLatest(Apply(c, s, a))
  {
    match a
    case Accept(m) => AcceptLatest(c, s, m);
    case Dequeue(w) => DequeueLatest(c, s, w);
    case _ => MoveLatest(c, s, a);
  }

  lemma {:induction false} QueueIsLatestAlong(c: Config, s: State, acts: seq<Action>)
    requires Runs(c, s, acts) && QueueIsLatest(s)
    ensures QueueIsLatest(After(c, s, acts))
    decreases |acts|
  {
    if acts != [] {
      QueueIsLatestStep(c, s, acts[0]);
      QueueIsLatestAlong(c, Apply(c, s, acts[0]), acts[1..]);
    }
  }

  /** When Start returns, what was accepted before the monitor found the queue empty has been handed to a worker
      and nothing more is sure: what is not yet stored or counted as an error is what workers still hold and
      what was accepted after the monitor looked and is still queued. */
  lemma UnsettledAtReturn(c: Config, s: State)
    requires Reachable(c, s) && s.start == StartReturned
    ensures s.monitorMark + |s.queue| <= |s.accepted| && s.queue == s.accepted[|s.accepted| - |s.queue|..]
    ensures |s.accepted| + s.dropped - s.stored - s.errors == |s.queue| + Busy(s.workers)
  {
    var acts :| Runs(c, Initial(c), acts) && After(c, Initial(c), acts) == s;
    QueueIsLatestAlong(c, Initial(c), acts);
    AllSettledIff(c, s);
  }

  /** With every worker gone what is queued stays where it is. */
  lemma {:induction false} NothingAfterExit(c: Config, s: State, acts: seq<Action>)
    requires Runs(c, s, acts) && s.start == StartReturned && AllExited(s)
    ensures After(c, s, acts).queue == s.queue && After(c, s, acts).processed == s.processed
    ensures After(c, s, acts).settled == s.settled
    decreases |acts|
  {
    if acts != [] {
      NothingAfterExit(c, Apply(c, s, acts[0]), acts[1..]);
    }
  }

  /** After Start has returned what is queued can still be worked off if and only if some worker is left. */
  lemma DrainsAfterReturnIff(c: Config, s: State)
    requires s.start == StartReturned && s.queue != []
    ensures (exists acts :: Runs(c, s, acts) && After(c, s, acts).queue == []) <==> !AllExited(s)
  {
    if AllExited(s) {
      forall acts | Runs(c, s, acts) ensures After(c, s, acts).queue != [] {
        NothingAfterExit(c, s, acts);
      }
    } else {
      var w :| 0 <= w < |s.workers| && !s.workers[w].Exited?;
      var acts := OneWorkerDrains(c, s, w);
    }
  }

  /** Closing the work queue and waiting for the monitor, once it is done. */
  lemma CloseAndReturn(c: Config, s: State) returns (s': State)
    requires Reachable(c, s) && s.cancelled && s.workersDone && s.start == Serving
    ensures Reachable(c, s') && s' == s.(start := StartReturned)
  {
    var s1 := Apply(c, s, CloseQueue);
    ReachableStep(c, s, CloseQueue);
    s' := Apply(c, s1, ReturnStart);
    ReachableStep(c, s1, ReturnStart);
  }

  lemma CancelAndSeeEmpty(c: Config, s: State) returns (s': State)
    requires Reachable(c, s) && !s.cancelled && !s.workersDone && s.queue == []
    ensures Reachable(c, s') && s' == s.(cancelled := true, workersDone := true, monitorMark := |s.accepted|)
  {
    var s1 := Apply(c, s, Cancel);
    ReachableStep(c, s, Cancel);
    s' := Apply(c, s1, MonitorDone);
    ReachableStep(c, s1, MonitorDone);
  }

  /** Start can return with a message in the queue that no worker will ever take: it was accepted after the
      monitor looked, and the workers left. */
  lemma ReturnsWithMessageQueued(c: Config, m: Message)
    requires c.queueSize > 0
    ensures exists s :: Reachable(c, s) && s.start == StartReturned && s.queue == [m] && AllExited(s)
  {
    var s0 := Initial(c);
    assert Runs(c, s0, []) && After(c, s0, []) == s0;
    var s1 := CancelAndSeeEmpty(c, s0);
    var s2 := Apply(c, s1, Accept(m));
    ReachableStep(c, s1, Accept(m));
    var s3 := ExitAll(c, s2, c.workers);
    var s4 := CloseAndReturn(c, s3);
    assert s4.queue == [m] && AllExited(s4);
  }

  /** Start can also return with a message begun and neither stored nor counted as an error. */
  lemma ReturnsBeforeWorkersFinish(c: Config, m: Message)
    requires c.queueSize > 0 && c.workers > 0
    ensures exists s :: Reachable(c, s) && s.start == StartReturned && s.processed == 1 && s.stored + s.errors == 0
  {
    var s1 := BeginOne(c, m);
    var s2 := CancelAndSeeEmpty(c, s1);
    var s3 := CloseAndReturn(c, s2);
    assert s3.processed == 1;
  }

  lemma BeginOne(c: Config, m: Message) returns (s: State)
    requires c.queueSize > 0 && c.workers > 0
    ensures Reachable(c, s) && s.queue == [] && s.processed == 1 && s.stored == s.errors == 0
    ensures !s.cancelled && !s.workersDone && s.start == Serving
  {
    var s0 := Initial(c);
    assert Runs(c, s0, []) && After(c, s0, []) == s0;
    var s1 := Apply(c, s0, Accept(m));
    ReachableStep(c, s0, Accept(m));
    var s2 := Apply(c, s1, Dequeue(0));
    ReachableStep(c, s1, Dequeue(0));
    s := Apply(c, s2, CountProcessed(0));
    ReachableStep(c, s2, CountProcessed(0));
  }
}
