/** The streamer: one pass over the CSV file, and the loop that runs passes under the batch lock. */
module Streamer {
  import opened Messages
  import opened Telemetry
  import opened LockProtocol
  import opened BatchLocking

  // ---------------------------------------------------------------- one pass

  /** What happens to a record: the context is found cancelled before it, or the queue accepts or refuses it. */
  datatype PublishReply = CancelSeen | Accepted | Refused

  /** The points the queue accepts in a pass, in order. */
  function Sent(records: seq<CSVRecord>, replies: seq<PublishReply>, now: nat, batchId: string): (r: seq<TelemetryPoint>)
    requires |records| <= |replies|
    ensures |r| <= |records|
  {
    if records == [] || replies[0].CancelSeen? then []
    else (if replies[0].Accepted? then [ToTelemetryPoint(records[0], now, batchId)] else [])
         + Sent(records[1..], replies[1..], now, batchId)
  }

  predicate Uncancelled(records: seq<CSVRecord>, replies: seq<PublishReply>)
    requires |records| <= |replies|
  {
    forall i :: 0 <= i < |records| ==> !replies[i].CancelSeen?
  }

  /** The indices of the records the queue accepts. */
  function AcceptedAt(n: nat, replies: seq<PublishReply>): (r: seq<nat>)
    requires n <= |replies|
    ensures |r| <= n && (forall i :: i in r <==> 0 <= i < n && replies[i].Accepted?)
    ensures forall k :: 0 <= k < |r| ==> r[k] < n && replies[r[k]].Accepted?
    ensures forall i, j :: 0 <= i < j < |r| ==> r[i] < r[j]
  {
    if n == 0 then []
    else
      var front := AcceptedAt(n - 1, replies);
      if replies[n - 1].Accepted? then front + [n - 1] else front
  }

  lemma {:induction false} SentPrefix(records: seq<CSVRecord>, replies: seq<PublishReply>, now: nat, batchId: string, n: nat)
    requires n <= |records| <= |replies| && Uncancelled(records[..n], replies)
    ensures Sent(records[..n], replies, now, batchId) + Sent(records[n..], replies[n..], now, batchId)
         == Sent(records, replies, now, batchId)
  {
    if n == 0 {
      assert records[0..] == records && replies[0..] == replies;
    } else {
      assert records[..n][1..] == records[1..][..n - 1];
      assert records[1..][n - 1..] == records[n..] && replies[1..][n - 1..] == replies[n..];
      assert !replies[0].CancelSeen?;
      forall i | 0 <= i < n - 1 ensures !replies[1..][i].CancelSeen? {
        assert !replies[i + 1].CancelSeen?;
      }
      SentPrefix(records[1..], replies[1..], now, batchId, n - 1);
      var head := if replies[0].Accepted? then [ToTelemetryPoint(records[0], now, batchId)] else [];
      var a, b := Sent(records[1..][..n - 1], replies[1..], now, batchId), Sent(records[n..], replies[n..], now, batchId);
      assert (head + a) + b == head + (a + b);
    }
  }

  lemma SentLast(records: seq<CSVRecord>, replies: seq<PublishReply>, now: nat, batchId: string)
    requires 0 < |records| <= |replies| && Uncancelled(records, replies)
    ensures
      var n := |records| - 1;
      Sent(records, replies, now, batchId) == Sent(records[..n], replies, now, batchId)
        + (if replies[n].Accepted? then [ToTelemetryPoint(records[n], now, batchId)] else [])
  {
    var n := |records| - 1;
    SentPrefix(records, replies, now, batchId, n);
    assert records[n..] == [records[n]] && replies[n..][0] == replies[n];
    assert [records[n]][1..] == [];
  }

  lemma {:induction false} SentUncancelled(records: seq<CSVRecord>, replies: seq<PublishReply>, now: nat, batchId: string)
    requires |records| <= |replies| && Uncancelled(records, replies)
    ensures
      var sent, at := Sent(records, replies, now, batchId), AcceptedAt(|records|, replies);
      |sent| == |at| && forall k :: 0 <= k < |at| ==> sent[k] == ToTelemetryPoint(records[at[k]], now, batchId)
  {
    if records != [] {
      var n := |records| - 1;
      SentUncancelled(records[..n], replies, now, batchId);
      SentLast(records, replies, now, batchId);
      var at := AcceptedAt(n, replies);
      assert forall k :: 0 <= k < |at| ==> records[..n][at[k]] == records[at[k]];
    }
  }

  /** How many of `n` records are reached before a cancellation is seen. */
  function Reached(n: nat, replies: seq<PublishReply>): (k: nat)
    requires n <= |replies|
    ensures k <= n && (forall i :: 0 <= i < k ==> !replies[i].CancelSeen?)
    ensures k < n ==> replies[k].CancelSeen?
  {
    if n == 0 || replies[0].CancelSeen? then 0 else 1 + Reached(n - 1, replies[1..])
  }

  /** A pass publishes exactly the records accepted before a cancellation is seen, in order, all under one timestamp
      and one batch ID. */
  lemma SentExactly(records: seq<CSVRecord>, replies: seq<PublishReply>, now: nat, batchId: string)
    requires |records| <= |replies|
    ensures
      var sent, at := Sent(records, replies, now, batchId), AcceptedAt(Reached(|records|, replies), replies);
      |sent| == |at| && forall k :: 0 <= k < |at| ==> sent[k] == ToTelemetryPoint(records[at[k]], now, batchId)
  {
    var n := Reached(|records|, replies);
    SentPrefix(records, replies, now, batchId, n);
    assert Sent(records[n..], replies[n..], now, batchId) == [];
    SentUncancelled(records[..n], replies, now, batchId);
    var at := AcceptedAt(n, replies);
    assert forall k :: 0 <= k < |at| ==> records[..n][at[k]] == records[at[k]];
  }

  /** Which line of the file each point published comes from: the k-th comes from the k-th line among those that parse,
      are reached and are accepted, and says what its columns say. */
  lemma SentFromLines(headerMap: map<string, nat>, lines: seq<Line>, replies: seq<PublishReply>, now: nat, batchId: string)
    requires |lines| <= |replies|
    ensures
      var rows, sent := ParsingAt(headerMap, lines), Sent(Parsed(headerMap, lines), replies, now, batchId);
      && |rows| <= |lines|
      && var at := AcceptedAt(Reached(|rows|, replies), replies);
         |sent| == |at| && forall k :: 0 <= k < |at| ==> PointSays(headerMap, lines[rows[at[k]]].fields, now, batchId, sent[k])
  {
    var rows, records, sent := ParsingAt(headerMap, lines), Parsed(headerMap, lines), Sent(Parsed(headerMap, lines), replies, now, batchId);
    ParsedExactly(headerMap, lines);
    SentExactly(records, replies, now, batchId);
    var at := AcceptedAt(Reached(|rows|, replies), replies);
    forall k | 0 <= k < |at| ensures PointSays(headerMap, lines[rows[at[k]]].fields, now, batchId, sent[k]) {
      PointOfRow(headerMap, lines[rows[at[k]]].fields, records[at[k]], now, batchId);
    }
  }

  lemma {:induction false} SentIsComplete(records: seq<CSVRecord>, replies: seq<PublishReply>, now: nat, batchId: string)
    requires |records| <= |replies|
    requires forall i :: 0 <= i < |records| ==> records[i].uuid != "" && records[i].metricName != ""
    ensures forall i :: 0 <= i < |Sent(records, replies, now, batchId)| ==>
      var t := Sent(records, replies, now, batchId)[i];
      t.gpuUuid != "" && t.metricName != "" && t.timestamp == now && t.batchId == batchId
  {
    if records != [] {
      SentIsComplete(records[1..], replies[1..], now, batchId);
    }
  }

  /** The collector's validation rejects nothing a pass publishes, whatever the file, unless the clock reads the
      zero time. */
  lemma SentIsValid(headerMap: map<string, nat>, lines: seq<Line>, replies: seq<PublishReply>, now: nat, batchId: string)
    requires |lines| <= |replies|
    ensures
      var sent := Sent(Parsed(headerMap, lines), replies, now, batchId);
      (forall i :: 0 <= i < |sent| ==> ValidateTelemetry(sent[i]) == None) <==> (now != 0 || sent == [])
  {
    ParsedAreComplete(headerMap, lines);
    SentIsComplete(Parsed(headerMap, lines), replies, now, batchId);
    var sent := Sent(Parsed(headerMap, lines), replies, now, batchId);
    if now == 0 && sent != [] {
      assert sent[0].timestamp == 0;
      assert ValidateTelemetry(sent[0]) != None;
    }
  }

  // ---------------------------------------------------------------- the loop

  datatype PassResult = PassDone | PassFailed | PassCancelled

  /** What one turn of Start's loop meets. `opens`: the file opens and its header parses, to `headerMap`. */
  datatype TurnData = Turn(
    cancelled: bool, attempts: seq<Attempt>,
    opens: bool, headerMap: map<string, nat>, lines: seq<Line>, now: nat, batchId: string, replies: seq<PublishReply>,
    release: Release)

  /** There is a reply for every record there can be. */
  type Turn = t: TurnData | |t.lines| <= |t.replies|
    witness Turn(false, [], false, map[], [], 0, "", [], Release(Still, 0, false))

  function Records(turn: Turn): (r: seq<CSVRecord>)
    ensures |r| <= |turn.lines|
  {
    if turn.opens then Parsed(turn.headerMap, turn.lines) else []
  }

  /** The points accepted over a series of passes. */
  function SentInTurns(turns: seq<Turn>): seq<TelemetryPoint> {
    if turns == [] then []
    else
      var front, turn := turns[..|turns| - 1], turns[|turns| - 1];
      SentInTurns(front) + SentInTurn(turn)
  }

  function SentInTurn(turn: Turn): seq<TelemetryPoint> {
    Sent(Records(turn), turn.replies, turn.now, turn.batchId)
  }

  /** The lines of a pass that do not parse. */
  function Unparsed(turn: Turn): nat {
    if turn.opens then |turn.lines| - |Records(turn)| else 0
  }

  /** What a series of passes adds to errorCount: lines that do not parse, and passes that do not open. */
  function ErrorsInTurns(turns: seq<Turn>): nat {
    if turns == [] then 0
    else
      var turn := turns[|turns| - 1];
      ErrorsInTurns(turns[..|turns| - 1]) + Unparsed(turn) + if turn.opens then 0 else 1
  }

  lemma OneMoreTurn(turns: seq<Turn>, k: nat)
    requires k < |turns|
    ensures SentInTurns(turns[..k + 1]) == SentInTurns(turns[..k]) + SentInTurn(turns[k])
    ensures ErrorsInTurns(turns[..k + 1]) == ErrorsInTurns(turns[..k]) + Unparsed(turns[k]) + if turns[k].opens then 0 else 1
  {
    assert turns[..k + 1][..k] == turns[..k];
  }

  /** What follows `base` grows by what the next turn publishes. */
  lemma OutboxAfterTurn(base: seq<TelemetryPoint>, turns: seq<Turn>, k: nat)
    requires k < |turns|
    ensures base + SentInTurns(turns[..k + 1]) == (base + SentInTurns(turns[..k])) + SentInTurn(turns[k])
    ensures ErrorsInTurns(turns[..k + 1]) == ErrorsInTurns(turns[..k]) + Unparsed(turns[k]) + if turns[k].opens then 0 else 1
  {
    OneMoreTurn(turns, k);
    Assoc(base, SentInTurns(turns[..k]), SentInTurn(turns[k]));
  }

  /** A pass that opens its file, parses it and is not cancelled before its last record. */
  predicate Completes(turn: Turn) {
    turn.opens && Uncancelled(Records(turn), turn.replies)
  }

  function PassOf(turn: Turn): PassResult {
    if !turn.opens then PassFailed else if Completes(turn) then PassDone else PassCancelled
  }

  datatype StartResult = Cancelled | StreamError | Completed

  /** How often Start's loop passed over the file, the lock key when it ended, and with what result. */
  datatype LoopEnd = LoopEnd(passes: nat, key: Option<Lease>, result: StartResult)

  /** The key after a turn's acquisition, and whether the turn may go on; without a lock it always may. */
  function Admitted(me: Option<string>, key: Option<Lease>, turn: Turn): (Option<Lease>, bool) {
    if me == None then (key, true) else Acquire(key, turn.attempts, me.value)
  }

  /** The key after the release that ends a turn's pass. */
  function Left(me: Option<string>, key: Option<Lease>, turn: Turn): Option<Lease> {
    if me == None then key else Released(key, turn.release, me.value)
  }

  /** The loop of Start; `me` is the lock value, if there is a lock. */
  function Loop(me: Option<string>, loopMode: bool, key: Option<Lease>, turns: seq<Turn>): (r: LoopEnd)
    ensures r.passes <= |turns|
    decreases |turns|
  {
    if turns == [] || turns[0].cancelled then LoopEnd(0, key, Cancelled)
    else
      var (held, ran) := Admitted(me, key, turns[0]);
      var left := Left(me, held, turns[0]);
      if !ran then LoopEnd(0, held, Cancelled)
      else if PassOf(turns[0]) == PassCancelled then LoopEnd(1, left, Cancelled)
      else if !loopMode then LoopEnd(1, left, if turns[0].opens then Completed else StreamError)
      else
        var rest := Loop(me, loopMode, left, turns[1..]);
        rest.(passes := rest.passes + 1)
  }

  /** `whole` is what is left of the loop at `key` after `k` passes, with those passes ahead of it. */
  predicate LoopFrom(whole: LoopEnd, me: Option<string>, loopMode: bool, key: Option<Lease>, turns: seq<Turn>, k: nat)
    requires k <= |turns|
  {
    var rest := Loop(me, loopMode, key, turns[k..]);
    whole == rest.(passes := k + rest.passes)
  }

  lemma LoopOver(whole: LoopEnd, me: Option<string>, loopMode: bool, key: Option<Lease>, turns: seq<Turn>, k: nat)
    requires k <= |turns| && LoopFrom(whole, me, loopMode, key, turns, k) && (k == |turns| || turns[k].cancelled)
    ensures whole == LoopEnd(k, key, Cancelled)
  {
  }

  lemma LoopTurn(whole: LoopEnd, me: Option<string>, loopMode: bool, key: Option<Lease>, turns: seq<Turn>, k: nat)
    requires k < |turns| && LoopFrom(whole, me, loopMode, key, turns, k) && !turns[k].cancelled
    ensures
      var (held, ran) := Admitted(me, key, turns[k]);
      var left := Left(me, held, turns[k]);
      && (!ran ==> whole == LoopEnd(k, held, Cancelled))
      && (ran && PassOf(turns[k]) == PassCancelled ==> whole == LoopEnd(k + 1, left, Cancelled))
      && (ran && PassOf(turns[k]) != PassCancelled && !loopMode ==>
            whole == LoopEnd(k + 1, left, if turns[k].opens then Completed else StreamError))
      && (ran && GoesOn(loopMode, turns[k]) ==> LoopFrom(whole, me, loopMode, left, turns, k + 1))
  {
    assert turns[k..][0] == turns[k] && turns[k..][1..] == turns[k + 1..];
  }

  /** The key after turns that each acquired, passed and released. */
  function KeyAfterTurns(me: Option<string>, key: Option<Lease>, turns: seq<Turn>): Option<Lease> {
    if turns == [] then key
    else
      var front, turn := turns[..|turns| - 1], turns[|turns| - 1];
      Left(me, Admitted(me, KeyAfterTurns(me, key, front), turn).0, turn)
  }

  /** The i-th turn is not cancelled at its head and, where there is a lock, acquires it. */
  predicate Enters(me: Option<string>, key: Option<Lease>, turns: seq<Turn>, i: nat)
    requires i < |turns|
  {
    !turns[i].cancelled && (me == None || Acquires(KeyAfterTurns(me, key, turns[..i]), turns[i].attempts))
  }

  /** After the pass of this turn the loop goes round again. */
  predicate GoesOn(loopMode: bool, turn: Turn) {
    loopMode && PassOf(turn) != PassCancelled
  }

  /** The k-th turn makes a pass. */
  predicate Passes(me: Option<string>, loopMode: bool, key: Option<Lease>, turns: seq<Turn>, k: nat)
    requires k < |turns|
  {
    (forall i :: 0 <= i <= k ==> Enters(me, key, turns, i)) && forall i :: 0 <= i < k ==> GoesOn(loopMode, turns[i])
  }

  lemma {:induction false} KeyAfterTurnsTail(me: Option<string>, key: Option<Lease>, turns: seq<Turn>)
    requires turns != []
    ensures KeyAfterTurns(me, key, turns) == KeyAfterTurns(me, KeyAfterTurns(me, key, turns[..1]), turns[1..])
  {
    var n := |turns| - 1;
    if n == 0 {
      assert turns[..1] == turns;
    } else {
      KeyAfterTurnsTail(me, key, turns[..n]);
      assert turns[..n][..1] == turns[..1] && turns[..n][1..] == turns[1..][..n - 1];
    }
  }

  lemma EntersTail(me: Option<string>, key: Option<Lease>, turns: seq<Turn>, i: nat)
    requires 0 < i < |turns|
    ensures Enters(me, key, turns, i) == Enters(me, KeyAfterTurns(me, key, turns[..1]), turns[1..], i - 1)
  {
    KeyAfterTurnsTail(me, key, turns[..i]);
    assert turns[..i][..1] == turns[..1] && turns[..i][1..] == turns[1..][..i - 1];
  }

  lemma PassesTail(me: Option<string>, loopMode: bool, key: Option<Lease>, turns: seq<Turn>, k: nat)
    requires 0 < k < |turns| && Enters(me, key, turns, 0) && GoesOn(loopMode, turns[0])
    ensures Passes(me, loopMode, key, turns, k) == Passes(me, loopMode, KeyAfterTurns(me, key, turns[..1]), turns[1..], k - 1)
  {
    var key1, rest := KeyAfterTurns(me, key, turns[..1]), turns[1..];
    forall i | 0 < i <= k ensures Enters(me, key, turns, i) == Enters(me, key1, rest, i - 1) {
      EntersTail(me, key, turns, i);
    }
    if Passes(me, loopMode, key1, rest, k - 1) {
      forall i | 0 <= i <= k ensures Enters(me, key, turns, i) {
        assert i > 0 ==> Enters(me, key1, rest, i - 1);
      }
      forall i | 0 <= i < k ensures GoesOn(loopMode, turns[i]) {
        assert i > 0 ==> GoesOn(loopMode, rest[i - 1]);
      }
    }
    if Passes(me, loopMode, key, turns, k) {
      forall i | 0 <= i <= k - 1 ensures Enters(me, key1, rest, i) {
        assert Enters(me, key, turns, i + 1);
      }
      forall i | 0 <= i < k - 1 ensures GoesOn(loopMode, rest[i]) {
        assert GoesOn(loopMode, turns[i + 1]);
      }
    }
  }

  lemma FirstTurn(me: Option<string>, key: Option<Lease>, turns: seq<Turn>)
    requires turns != []
    ensures Enters(me, key, turns, 0) <==> !turns[0].cancelled && Admitted(me, key, turns[0]).1
    ensures KeyAfterTurns(me, key, turns[..1]) == Left(me, Admitted(me, key, turns[0]).0, turns[0])
  {
    assert turns[..0] == [] && turns[..1][..0] == [];
    if me.Some? {
      AcquireIff(key, turns[0].attempts, me.value);
    }
  }

  /** Which turns make a pass: those up to which every turn was uncancelled and got the lock and every pass let the
      loop go round again. */
  lemma {:induction false} LoopPassesIff(me: Option<string>, loopMode: bool, key: Option<Lease>, turns: seq<Turn>, k: nat)
    requires k < |turns|
    ensures k < Loop(me, loopMode, key, turns).passes <==> Passes(me, loopMode, key, turns, k)
    decreases |turns|
  {
    FirstTurn(me, key, turns);
    if k == 0 {
      assert Passes(me, loopMode, key, turns, 0) == Enters(me, key, turns, 0);
    } else if Enters(me, key, turns, 0) && GoesOn(loopMode, turns[0]) {
      PassesTail(me, loopMode, key, turns, k);
      LoopPassesIff(me, loopMode, KeyAfterTurns(me, key, turns[..1]), turns[1..], k - 1);
    }
  }

  /** The key the loop leaves: that of its passes, and of the last acquisition if that one failed. */
  lemma {:induction false} LoopKey(me: Option<string>, loopMode: bool, key: Option<Lease>, turns: seq<Turn>)
    ensures
      var n := Loop(me, loopMode, key, turns).passes;
      var after := KeyAfterTurns(me, key, turns[..n]);
      Loop(me, loopMode, key, turns).key ==
        if n < |turns| && !turns[n].cancelled && (n == 0 || GoesOn(loopMode, turns[n - 1])) then Admitted(me, after, turns[n]).0
        else after
    decreases |turns|
  {
    if turns != [] {
      FirstTurn(me, key, turns);
      var n := Loop(me, loopMode, key, turns).passes;
      if Enters(me, key, turns, 0) && GoesOn(loopMode, turns[0]) {
        var key1, rest := KeyAfterTurns(me, key, turns[..1]), turns[1..];
        LoopKey(me, loopMode, key1, rest);
        KeyAfterTurnsTail(me, key, turns[..n]);
        assert turns[..n][..1] == turns[..1] && turns[..n][1..] == rest[..n - 1];
      } else {
        assert turns[..0] == [];
      }
    } else {
      assert turns[..0] == [];
    }
  }

  /** What the loop returns. */
  lemma {:induction false} LoopResult(me: Option<string>, loopMode: bool, key: Option<Lease>, turns: seq<Turn>)
    ensures
      var r := Loop(me, loopMode, key, turns);
      && (!loopMode ==> r.passes <= 1)
      && (r.result == Completed <==> !loopMode && r.passes == 1 && Completes(turns[0]))
      && (r.result == StreamError <==> !loopMode && r.passes == 1 && !turns[0].opens)
    decreases |turns|
  {
    if loopMode && turns != [] {
      LoopResult(me, loopMode, Left(me, Admitted(me, key, turns[0]).0, turns[0]), turns[1..]);
    }
  }

  /** What a pass comes to, in terms of the lines and what the queue answers: it fails exactly if the file does not
      open, is cancelled exactly if a cancellation is seen before one of the lines that parse, and counts as errors the
      lines that do not parse. */
  lemma PassMeans(turn: Turn)
    ensures
      var rows := ParsingAt(turn.headerMap, turn.lines);
      && |rows| <= |turn.lines|
      && (PassOf(turn) == PassFailed <==> !turn.opens)
      && (PassOf(turn) == PassCancelled <==> turn.opens && exists i :: 0 <= i < |rows| && turn.replies[i].CancelSeen?)
      && Unparsed(turn) == (if turn.opens then |turn.lines| - |rows| else 0)
      && (!turn.opens ==> SentInTurn(turn) == [])
  {
    ParsedExactly(turn.headerMap, turn.lines);
  }

  /** The loop makes another pass only in loop mode, and only if the last one met no cancellation. */
  lemma LoopGoesOn(me: Option<string>, loopMode: bool, key: Option<Lease>, turns: seq<Turn>, k: nat)
    requires k + 1 < Loop(me, loopMode, key, turns).passes
    ensures
      var rows := ParsingAt(turns[k].headerMap, turns[k].lines);
      && loopMode && |rows| <= |turns[k].lines|
      && (turns[k].opens ==> forall i :: 0 <= i < |rows| ==> !turns[k].replies[i].CancelSeen?)
  {
    LoopPassesIff(me, loopMode, key, turns, k + 1);
    assert GoesOn(loopMode, turns[k]);
    PassMeans(turns[k]);
  }

  /** Others write only their own values while a turn runs. */
  predicate TurnForeign(turn: Turn, me: string) {
    Foreign(turn.release.world, me) && forall j :: 0 <= j < |turn.attempts| ==> Foreign(turn.attempts[j].world, me)
  }

  lemma {:induction false} LoopGivesUp(me: string, loopMode: bool, key: Option<Lease>, turns: seq<Turn>)
    requires forall i :: 0 <= i < |turns| ==> TurnForeign(turns[i], me)
    requires
      var n := Loop(Some(me), loopMode, key, turns).passes;
      (n == 0 ==> !Owns(key, me)) && (n > 0 ==> turns[n - 1].release.reaches)
    ensures !Owns(Loop(Some(me), loopMode, key, turns).key, me)
    decreases |turns|
  {
    if turns != [] && !turns[0].cancelled {
      assert TurnForeign(turns[0], me);
      var (held, ran) := Admitted(Some(me), key, turns[0]);
      if !ran {
        NotAcquiredNotOwned(key, turns[0].attempts, me);
      } else if GoesOn(loopMode, turns[0]) {
        LoopGivesUp(me, loopMode, Left(Some(me), held, turns[0]), turns[1..]);
      }
    }
  }

  /** When Start returns the key is not this instance's, if it made no pass, or the release after its last pass or
      any deferred one reached Redis. */
  lemma StartGivesUp(me: string, loopMode: bool, key: Option<Lease>, turns: seq<Turn>, exits: seq<Release>)
    requires !Owns(key, me) && |turns| <= |exits|
    requires forall i :: 0 <= i < |turns| ==> TurnForeign(turns[i], me) && Foreign(exits[i].world, me)
    requires
      var n := Loop(Some(me), loopMode, key, turns).passes;
      n == 0 || turns[n - 1].release.reaches || AnyReaches(exits, n)
    ensures
      var loop := Loop(Some(me), loopMode, key, turns);
      !Owns(ReleasedAll(loop.key, exits, loop.passes, me), me)
  {
    var n := Loop(Some(me), loopMode, key, turns).passes;
    if !AnyReaches(exits, n) {
      LoopGivesUp(me, loopMode, key, turns);
    }
    ReleasesGiveUp(Loop(Some(me), loopMode, key, turns).key, exits, n, me);
  }

  class Streamer {
    const loopMode: bool
    const batchLock: BatchLock?
    var rowsSent: nat
    var errorCount: nat
    var outbox: seq<TelemetryPoint>       // what the queue has accepted

    constructor (loopMode: bool, batchLock: BatchLock?)
      ensures this.loopMode == loopMode && this.batchLock == batchLock
      ensures rowsSent == 0 && errorCount == 0 && outbox == []
    {
      this.loopMode, this.batchLock := loopMode, batchLock;
      rowsSent, errorCount, outbox := 0, 0, [];
    }

    /** The lock value, if there is a lock. */
    function Me(): Option<string> {
      if batchLock == null then None else Some(batchLock.lockValue)
    }

    ghost function LockObjects(): set<object> {
      if batchLock == null then {} else {batchLock, batchLock.store}
    }

    /** The lock key, None where there is no lock. */
    ghost function Key(): Option<Lease>
      reads LockObjects()
    {
      if batchLock == null then None else batchLock.store.key
    }

    /** Successful acquisitions, counted by the store. */
    ghost function Wins(): nat
      reads LockObjects()
    {
      if batchLock == null then 0 else batchLock.store.wins
    }

    /** Between an acquisition and its release; without a lock, always and never. */
    ghost predicate Inside()
      reads LockObjects()
    {
      batchLock == null || batchLock.entered
    }

    ghost predicate Outside()
      reads LockObjects()
    {
      batchLock == null || !batchLock.entered
    }

    /** One pass over the file, made only with the lock acquired and not yet released. */
    method StreamFile(turn: Turn) returns (result: PassResult)
      requires Inside()
      modifies this
      ensures
        var records := Records(turn);
        var sent := Sent(records, turn.replies, turn.now, turn.batchId);
        && outbox == old(outbox) + sent
        && rowsSent == old(rowsSent) + |sent|
        && errorCount == old(errorCount) + Unparsed(turn)
        && result == PassOf(turn)
    {
      if !turn.opens {
        return PassFailed;
      }
      var records := ReadRecords(Readings(turn.headerMap, turn.lines));
      result := PublishBatch(turn, records);
    }

    /** The first loop of streamFile: collect the rows that parse, count those that do not. */
    method ReadRecords(readings: seq<Option<CSVRecord>>) returns (records: seq<CSVRecord>)
      modifies this`errorCount
      ensures records == Kept(readings)
      ensures errorCount == old(errorCount) + |readings| - |records|
    {
      records := [];
      for i := 0 to |readings|
        invariant |records| <= i && records + Kept(readings[i..]) == Kept(readings)
        invariant errorCount == old(errorCount) + i - |records|
      {
        assert readings[i..][0] == readings[i] && readings[i..][1..] == readings[i + 1..];
        var record := readings[i];
        if record == None {
          errorCount := errorCount + 1;
          continue;
        }
        Assoc(records, [record.value], Kept(readings[i + 1..]));
        records := records + [record.value];
      }
    }

    /** The second loop of streamFile: publish every record under the batch's timestamp. */
    method PublishBatch(turn: Turn, records: seq<CSVRecord>) returns (result: PassResult)
      requires |records| <= |turn.replies|
      modifies this
      ensures
        var sent := Sent(records, turn.replies, turn.now, turn.batchId);
        outbox == old(outbox) + sent && rowsSent == old(rowsSent) + |sent|
      ensures errorCount == old(errorCount)
      ensures result == if Uncancelled(records, turn.replies) then PassDone else PassCancelled
    {
      for i := 0 to |records|
        invariant outbox + Sent(records[i..], turn.replies[i..], turn.now, turn.batchId)
               == old(outbox) + Sent(records, turn.replies, turn.now, turn.batchId)
        invariant |outbox| - |old(outbox)| == rowsSent - old(rowsSent)
        invariant Uncancelled(records[..i], turn.replies) && errorCount == old(errorCount)
      {
        assert records[i..][0] == records[i] && records[i..][1..] == records[i + 1..];
        assert turn.replies[i..][0] == turn.replies[i] && turn.replies[i..][1..] == turn.replies[i + 1..];
        match turn.replies[i]
        case CancelSeen => return PassCancelled;
        case Refused =>
        case Accepted =>
          outbox := outbox + [ToTelemetryPoint(records[i], turn.now, turn.batchId)];
          rowsSent := rowsSent + 1;
      }
      assert records[..|records|] == records;
      result := PassDone;
    }

    /** The body of one turn that is not cancelled at its head: acquire, pass, release. There is a pass exactly if
        there is no lock or the lock is acquired. */
    method RunTurn(turn: Turn) returns (ran: bool, pass: PassResult)
      requires Outside()
      modifies this, LockObjects()
      ensures ran ==> pass == PassOf(turn)
      ensures Outside() && ran == Admitted(Me(), old(Key()), turn).1
      ensures batchLock != null ==> (ran <==> Acquires(old(Key()), turn.attempts))
      ensures
        var held := Admitted(Me(), old(Key()), turn).0;
        Key() == if ran then Left(Me(), held, turn) else held
      ensures Wins() == old(Wins()) + if ran && batchLock != null then 1 else 0
      ensures outbox == old(outbox) + (if ran then SentInTurn(turn) else [])
      ensures rowsSent - old(rowsSent) == |outbox| - |old(outbox)|
      ensures errorCount == old(errorCount) + if ran then Unparsed(turn) + (if turn.opens then 0 else 1) else 0
    {
      ran, pass := true, PassCancelled;
      if batchLock != null {
        ran := batchLock.AcquireLock(turn.attempts);
        if !ran {
          return;
        }
      }
      pass := StreamFile(turn);
      if batchLock != null {
        batchLock.ReleaseLock(turn.release);
      }
      if pass == PassFailed {
        errorCount := errorCount + 1;
      }
    }

    /** `turns` are the loop's iterations until the context is cancelled; `exits[k]` is what the k-th release
        deferred meets when Start returns. */
    method Start(turns: seq<Turn>, exits: seq<Release>) returns (result: StartResult, passes: nat, deferred: nat)
      requires Outside() && |turns| <= |exits|
      modifies this, LockObjects()
      ensures Outside() && passes <= |turns|
      ensures deferred == Wins() - old(Wins()) == if batchLock == null then 0 else passes
      ensures
        var loop := Loop(Me(), loopMode, old(Key()), turns);
        && passes == loop.passes && result == loop.result
        && Key() == if batchLock == null then None else ReleasedAll(loop.key, exits, deferred, batchLock.lockValue)
      ensures forall k :: 0 <= k < |turns| ==> (k < passes <==> Passes(Me(), loopMode, old(Key()), turns, k))
      ensures outbox == old(outbox) + SentInTurns(turns[..passes]) && rowsSent - old(rowsSent) == |outbox| - |old(outbox)|
      ensures errorCount == old(errorCount) + ErrorsInTurns(turns[..passes])
    {
      result, passes, deferred := RunTurns(turns);
      if batchLock != null {
        RunDeferred(batchLock, exits, deferred);
      }
      forall k | 0 <= k < |turns| ensures k < passes <==> Passes(Me(), loopMode, old(Key()), turns, k) {
        LoopPassesIff(Me(), loopMode, old(Key()), turns, k);
      }
    }

    /** The loop of Start. `deferred` counts the releases it defers. */
    method RunTurns(turns: seq<Turn>) returns (result: StartResult, passes: nat, deferred: nat)
      requires Outside()
      modifies this, LockObjects()
      ensures Outside() && Loop(Me(), loopMode, old(Key()), turns) == LoopEnd(passes, Key(), result)
      ensures deferred == Wins() - old(Wins()) == if batchLock == null then 0 else passes
      ensures outbox == old(outbox) + SentInTurns(turns[..passes]) && rowsSent - old(rowsSent) == |outbox| - |old(outbox)|
      ensures errorCount == old(errorCount) + ErrorsInTurns(turns[..passes])
    {
      passes, deferred := 0, 0;
      result := Cancelled;
      ghost var whole := Loop(Me(), loopMode, Key(), turns);
      assert turns[0..] == turns;
      while passes < |turns|
        invariant passes <= |turns| && Outside()
        invariant LoopFrom(whole, Me(), loopMode, Key(), turns, passes)
        invariant deferred == Wins() - old(Wins()) == if batchLock == null then 0 else passes
        invariant outbox == old(outbox) + SentInTurns(turns[..passes]) && rowsSent - old(rowsSent) == |outbox| - |old(outbox)|
        invariant errorCount == old(errorCount) + ErrorsInTurns(turns[..passes])
      {
        var turn := turns[passes];
        if turn.cancelled {
          LoopOver(whole, Me(), loopMode, Key(), turns, passes);
          return;
        }
        LoopTurn(whole, Me(), loopMode, Key(), turns, passes);
        var ran, pass := RunTurn(turn);
        if !ran {
          return;
        }
        if batchLock != null {
          deferred := deferred + 1;
        }
        OutboxAfterTurn(old(outbox), turns, passes);
        passes := passes + 1;
        if pass == PassCancelled {
          return;
        }
        if !loopMode {
          result := if pass == PassFailed then StreamError else Completed;
          return;
        }
      }
      LoopOver(whole, Me(), loopMode, Key(), turns, passes);
    }

    /** The deferred releases, in reverse order of acquisition: each deletes the key only where it is this
        instance's. */
    method RunDeferred(lock: BatchLock, exits: seq<Release>, deferred: nat)
      requires deferred <= |exits| && !lock.entered
      modifies lock.store`key, lock`entered
      ensures lock.store.key == ReleasedAll(old(lock.store.key), exits, deferred, lock.lockValue) && !lock.entered
    {
      for k := deferred downto 0
        invariant !lock.entered
        invariant ReleasedAll(old(lock.store.key), exits, deferred, lock.lockValue)
               == ReleasedAll(lock.store.key, exits, k, lock.lockValue)
      {
        lock.ReleaseLock(exits[k]);
      }
    }
  }

  /** The counters of an uncancelled pass balance: every line is sent, refused by the queue, or a parse
      failure; only parse failures reach errorCount. */
  lemma PassBalance(headerMap: map<string, nat>, lines: seq<Line>, replies: seq<PublishReply>, now: nat, batchId: string)
    requires |lines| <= |replies| && Uncancelled(Parsed(headerMap, lines), replies)
    ensures
      var records := Parsed(headerMap, lines);
      var refused := set i | 0 <= i < |records| && replies[i].Refused?;
      |Sent(records, replies, now, batchId)| + |refused| + (|lines| - |records|) == |lines|
  {
    var records := Parsed(headerMap, lines);
    SentExactly(records, replies, now, batchId);
    AcceptedOrRefused(|records|, replies);
  }

  lemma {:induction false} AcceptedOrRefused(n: nat, replies: seq<PublishReply>)
    requires n <= |replies| && forall i :: 0 <= i < n ==> !replies[i].CancelSeen?
    ensures |AcceptedAt(n, replies)| + |set i | 0 <= i < n && replies[i].Refused?| == n
  {
    if n > 0 {
      AcceptedOrRefused(n - 1, replies);
      var before := set i | 0 <= i < n - 1 && replies[i].Refused?;
      var now := set i | 0 <= i < n && replies[i].Refused?;
      assert now == if replies[n - 1].Refused? then before + {n - 1} else before;
    }
  }
}
