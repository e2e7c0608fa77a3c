/** Start among other instances: when what the world does to the key between its commands is what other instances do,
    a run of Start is a run of the lock protocol, so every law of the protocol holds of it. */
module LoopInProtocol {
  import opened Messages
  import opened LockProtocol
  import opened BatchLocking
  import S = Streamer

  /** Other instances' actions and the passing of time lead from `s` to `s'`. */
  ghost predicate OthersLead(ids: nat -> string, i: nat, s: State, s': State) {
    exists acts :: Runs(ids, s, acts) && After(ids, s, acts) == s' && OfOthers(i, acts)
  }

  predicate OfOthers(i: nat, acts: seq<Action>) {
    forall k :: 0 <= k < |acts| ==> acts[k].Tick? || acts[k].i != i
  }

  lemma {:induction false} OthersAlong(ids: nat -> string, i: nat, s: State, acts: seq<Action>)
    requires Reachable(ids, s) && Runs(ids, s, acts) && OfOthers(i, acts)
    ensures Reachable(ids, After(ids, s, acts)) && (i in After(ids, s, acts).inside <==> i in s.inside)
    decreases |acts|
  {
    if acts != [] {
      ReachableStep(ids, s, acts[0]);
      OthersAlong(ids, i, Apply(ids, s, acts[0]), acts[1..]);
    }
  }

  /** Others do to the key what `w` says, up to the instant `now`. */
  ghost predicate Meets(ids: nat -> string, i: nat, s: State, w: World, now: nat, s': State) {
    OthersLead(ids, i, s, s') && s'.key == Altered(s.key, w) && s'.clock == now
  }

  lemma MeetsReachable(ids: nat -> string, i: nat, s: State, w: World, now: nat, s': State)
    requires Reachable(ids, s) && Meets(ids, i, s, w, now, s')
    ensures Reachable(ids, s') && (i in s'.inside <==> i in s.inside)
  {
    var acts :| Runs(ids, s, acts) && After(ids, s, acts) == s' && OfOthers(i, acts);
    OthersAlong(ids, i, s, acts);
  }

  /** AcquireLock of instance `i`, each SETNX an Enter. */
  ghost predicate AcquireRuns(ids: nat -> string, i: nat, s: State, attempts: seq<Attempt>, s': State)
    decreases |attempts|
  {
    if attempts == [] || attempts[0].cancelled then s' == s
    else exists s1 :: Meets(ids, i, s, attempts[0].world, attempts[0].now, s1) && TryRuns(ids, i, s1, attempts, s')
  }

  /** The rest of AcquireLock from its first SETNX on. */
  ghost predicate TryRuns(ids: nat -> string, i: nat, s1: State, attempts: seq<Attempt>, s': State)
    requires attempts != []
    decreases |attempts|, 0
  {
    var s2 := Apply(ids, s1, Enter(i));
    if attempts[0].fails then AcquireRuns(ids, i, s1, attempts[1..], s')
    else if i in s2.inside || attempts[0].cancelledWaiting then s' == s2
    else AcquireRuns(ids, i, s2, attempts[1..], s')
  }

  /** AcquireLock is a run of the protocol with the result Acquire gives; if it succeeds the instance is inside its
      lease, and with distinct IDs no other instance is. */
  lemma {:induction false} AcquireInProtocol(ids: nat -> string, i: nat, s: State, attempts: seq<Attempt>, s': State)
    requires Reachable(ids, s) && i !in s.inside && AcquireRuns(ids, i, s, attempts, s')
    ensures Reachable(ids, s') && (s'.key, i in s'.inside) == Acquire(s.key, attempts, ids(i))
    ensures i in s'.inside ==> Protected(s', i) && (DistinctIds(ids) ==> forall j :: Protected(s', j) ==> j == i)
    decreases |attempts|
  {
    if attempts != [] && !attempts[0].cancelled {
      var s1 :| Meets(ids, i, s, attempts[0].world, attempts[0].now, s1) && TryRuns(ids, i, s1, attempts, s');
      MeetsReachable(ids, i, s, attempts[0].world, attempts[0].now, s1);
      var s2 := Apply(ids, s1, Enter(i));
      if attempts[0].fails {
        AcquireInProtocol(ids, i, s1, attempts[1..], s');
      } else {
        ReachableStep(ids, s1, Enter(i));
        if i in s2.inside {
          if DistinctIds(ids) {
            ExclusionIffDistinctIds(ids);
            assert Exclusive(s2);
          }
        } else if !attempts[0].cancelledWaiting {
          AcquireInProtocol(ids, i, s2, attempts[1..], s');
        }
      }
    }
  }

  /** One turn: AcquireLock, and where it succeeds a pass that a Leave ends. */
  ghost predicate TurnRuns(ids: nat -> string, i: nat, s: State, turn: S.Turn, s': State) {
    exists s1 :: AcquireRuns(ids, i, s, turn.attempts, s1) && PassRuns(ids, i, s1, turn.release, s')
  }

  ghost predicate PassRuns(ids: nat -> string, i: nat, s1: State, r: Release, s': State) {
    if i !in s1.inside then s' == s1
    else exists s2 :: Meets(ids, i, s1, r.world, r.now, s2) && s' == Apply(ids, s2, Leave(i, r.reaches))
  }

  lemma TurnInProtocol(ids: nat -> string, i: nat, s: State, turn: S.Turn, s': State)
    requires Reachable(ids, s) && i !in s.inside && TurnRuns(ids, i, s, turn, s')
    ensures Reachable(ids, s') && i !in s'.inside
    ensures
      var (held, ran) := S.Admitted(Some(ids(i)), s.key, turn);
      s'.key == if ran then S.Left(Some(ids(i)), held, turn) else held
  {
    var s1 :| AcquireRuns(ids, i, s, turn.attempts, s1) && PassRuns(ids, i, s1, turn.release, s');
    AcquireInProtocol(ids, i, s, turn.attempts, s1);
    if i in s1.inside {
      var s2 :| Meets(ids, i, s1, turn.release.world, turn.release.now, s2)
        && s' == Apply(ids, s2, Leave(i, turn.release.reaches));
      MeetsReachable(ids, i, s1, turn.release.world, turn.release.now, s2);
      ReachableStep(ids, s2, Leave(i, turn.release.reaches));
    }
  }

  ghost predicate LoopRuns(ids: nat -> string, i: nat, loopMode: bool, s: State, turns: seq<S.Turn>, s': State)
    decreases |turns|
  {
    if turns == [] || turns[0].cancelled then s' == s
    else (
      var goes := Acquire(s.key, turns[0].attempts, ids(i)).1 && S.GoesOn(loopMode, turns[0]);
      exists s1 :: (
        TurnRuns(ids, i, s, turns[0], s1) && if goes then LoopRuns(ids, i, loopMode, s1, turns[1..], s') else s' == s1))
  }

  lemma {:induction false} LoopStaysInProtocol(ids: nat -> string, i: nat, loopMode: bool, s: State, turns: seq<S.Turn>, s': State)
    requires Reachable(ids, s) && i !in s.inside && LoopRuns(ids, i, loopMode, s, turns, s')
    ensures Reachable(ids, s') && i !in s'.inside && s'.key == S.Loop(Some(ids(i)), loopMode, s.key, turns).key
    decreases |turns|
  {
    if turns != [] && !turns[0].cancelled {
      var goes := Acquire(s.key, turns[0].attempts, ids(i)).1 && S.GoesOn(loopMode, turns[0]);
      var s1 :| TurnRuns(ids, i, s, turns[0], s1) &&
        if goes then LoopRuns(ids, i, loopMode, s1, turns[1..], s') else s' == s1;
      TurnInProtocol(ids, i, s, turns[0], s1);
      if goes {
        LoopStaysInProtocol(ids, i, loopMode, s1, turns[1..], s');
      }
    }
  }

  /** The deferred releases, each that reaches Redis a Deferred. */
  ghost predicate ExitsRun(ids: nat -> string, i: nat, s: State, exits: seq<Release>, n: nat, s': State)
    requires n <= |exits|
    decreases n
  {
    if n == 0 then s' == s
    else exists s1 :: (
      && Meets(ids, i, s, exits[n - 1].world, exits[n - 1].now, s1)
      && ExitsRun(ids, i, if exits[n - 1].reaches then Apply(ids, s1, Deferred(i)) else s1, exits, n - 1, s'))
  }

  lemma {:induction false} ExitsInProtocol(ids: nat -> string, i: nat, s: State, exits: seq<Release>, n: nat, s': State)
    requires n <= |exits| && Reachable(ids, s) && i !in s.inside && ExitsRun(ids, i, s, exits, n, s')
    ensures Reachable(ids, s') && i !in s'.inside && s'.key == ReleasedAll(s.key, exits, n, ids(i))
    decreases n
  {
    if n > 0 {
      var r := exits[n - 1];
      var s1 :| Meets(ids, i, s, r.world, r.now, s1)
        && ExitsRun(ids, i, if r.reaches then Apply(ids, s1, Deferred(i)) else s1, exits, n - 1, s');
      MeetsReachable(ids, i, s, r.world, r.now, s1);
      if r.reaches {
        ReachableStep(ids, s1, Deferred(i));
      }
      ExitsInProtocol(ids, i, if r.reaches then Apply(ids, s1, Deferred(i)) else s1, exits, n - 1, s');
    }
  }

  /** A whole Start among other instances is a run of the lock protocol: it leaves the key the loop and the deferred
      releases leave, and the instance outside. */
  lemma StartInProtocol(ids: nat -> string, i: nat, loopMode: bool, s: State, turns: seq<S.Turn>, exits: seq<Release>,
                        s1: State, s2: State)
    requires Reachable(ids, s) && i !in s.inside && |turns| <= |exits|
    requires LoopRuns(ids, i, loopMode, s, turns, s1)
    requires ExitsRun(ids, i, s1, exits, S.Loop(Some(ids(i)), loopMode, s.key, turns).passes, s2)
    ensures
      var loop := S.Loop(Some(ids(i)), loopMode, s.key, turns);
      Reachable(ids, s2) && i !in s2.inside && s2.key == ReleasedAll(loop.key, exits, loop.passes, ids(i))
  {
    LoopStaysInProtocol(ids, i, loopMode, s, turns, s1);
    ExitsInProtocol(ids, i, s1, exits, S.Loop(Some(ids(i)), loopMode, s.key, turns).passes, s2);
  }
}
