/** The batch lock as one streamer instance uses it: AcquireLock's retry loop and ReleaseLock's script, with the rest
    of the world changing the key in between. */
module BatchLocking {
  import opened Messages
  import opened LockProtocol

  /** What the rest of the world does to the key between two of this instance's commands. */
  datatype World = Still | Expires | TakenBy(other: string, until: nat)

  /** One round of AcquireLock: cancelled before it, SETNX fails without effect, or SETNX runs at `now`; and
      whether the wait after it is cancelled. */
  datatype Attempt = Attempt(cancelled: bool, world: World, now: nat, fails: bool, cancelledWaiting: bool)

  /** A release script run at `now`, if it reaches Redis. */
  datatype Release = Release(world: World, now: nat, reaches: bool)

  /** Others never write this instance's value. */
  predicate Foreign(w: World, me: string) {
    w.TakenBy? ==> w.other != me
  }

  predicate Owns(key: Option<Lease>, me: string) {
    key.Some? && key.value.holder == me
  }

  function Altered(key: Option<Lease>, w: World): Option<Lease> {
    match w
    case Still => key
    case Expires => None
    case TakenBy(o, u) => Some(Lease(o, u))
  }

  // ---------------------------------------------------------------- acquiring

  /** The key after AcquireLock, and whether it was acquired. The context is cancelled at the latest when
      `attempts` run out. */
  function Acquire(key: Option<Lease>, attempts: seq<Attempt>, me: string): (Option<Lease>, bool)
    decreases |attempts|
  {
    if attempts == [] || attempts[0].cancelled then (key, false)
    else
      var a, seen := attempts[0], Altered(key, attempts[0].world);
      if a.fails then Acquire(seen, attempts[1..], me)
      else
        var (key', won) := SetNX(seen, me, a.now);
        if won || a.cancelledWaiting then (key', won) else Acquire(key', attempts[1..], me)
  }

  /** The key after rounds of AcquireLock that did not acquire it: a refused SETNX changes nothing. */
  function KeyAfter(key: Option<Lease>, attempts: seq<Attempt>): Option<Lease> {
    if attempts == [] then key
    else
      var a := attempts[|attempts| - 1];
      var seen := Altered(KeyAfter(key, attempts[..|attempts| - 1]), a.world);
      if a.fails then seen else Current(seen, a.now)
  }

  /** The i-th round finds the key free. */
  predicate FindsFree(key: Option<Lease>, attempts: seq<Attempt>, i: nat)
    requires i < |attempts|
  {
    !attempts[i].fails && Current(Altered(KeyAfter(key, attempts[..i]), attempts[i].world), attempts[i].now) == None
  }

  /** No cancellation is met before the i-th round's SETNX. */
  predicate GetsTo(attempts: seq<Attempt>, i: nat)
    requires i < |attempts|
  {
    && (forall j :: 0 <= j <= i ==> !attempts[j].cancelled)
    && (forall j :: 0 <= j < i ==> attempts[j].fails || !attempts[j].cancelledWaiting)
  }

  /** The i-th round acquires. */
  predicate AcquiresAt(key: Option<Lease>, attempts: seq<Attempt>, i: nat)
    requires i < |attempts|
  {
    GetsTo(attempts, i) && FindsFree(key, attempts, i) && forall j :: 0 <= j < i ==> !FindsFree(key, attempts, j)
  }

  /** Some round finds the key free before any cancellation is met. */
  predicate Acquires(key: Option<Lease>, attempts: seq<Attempt>) {
    exists i :: 0 <= i < |attempts| && AcquiresAt(key, attempts, i)
  }

  lemma {:induction false} KeyAfterTail(key: Option<Lease>, attempts: seq<Attempt>)
    requires attempts != []
    ensures KeyAfter(key, attempts) == KeyAfter(KeyAfter(key, attempts[..1]), attempts[1..])
  {
    var n := |attempts| - 1;
    if n == 0 {
      assert attempts[..1] == attempts;
    } else {
      KeyAfterTail(key, attempts[..n]);
      assert attempts[..n][..1] == attempts[..1] && attempts[..n][1..] == attempts[1..][..n - 1];
    }
  }

  lemma FindsFreeTail(key: Option<Lease>, attempts: seq<Attempt>, i: nat)
    requires 0 < i < |attempts|
    ensures FindsFree(key, attempts, i) == FindsFree(KeyAfter(key, attempts[..1]), attempts[1..], i - 1)
  {
    KeyAfterTail(key, attempts[..i]);
    assert attempts[..i][..1] == attempts[..1] && attempts[..i][1..] == attempts[1..][..i - 1];
  }

  lemma AcquiresAtTail(key: Option<Lease>, attempts: seq<Attempt>, i: nat)
    requires 0 < i < |attempts| && !attempts[0].cancelled && !FindsFree(key, attempts, 0)
    requires attempts[0].fails || !attempts[0].cancelledWaiting
    ensures AcquiresAt(key, attempts, i) == AcquiresAt(KeyAfter(key, attempts[..1]), attempts[1..], i - 1)
  {
    var key1, rest := KeyAfter(key, attempts[..1]), attempts[1..];
    forall j | 0 < j <= i ensures FindsFree(key, attempts, j) == FindsFree(key1, rest, j - 1) {
      FindsFreeTail(key, attempts, j);
    }
    if GetsTo(attempts, i) {
      assert forall j :: 0 <= j < i ==> rest[j] == attempts[j + 1];
    }
    if GetsTo(rest, i - 1) {
      assert forall j :: 0 < j <= i ==> attempts[j] == rest[j - 1];
    }
    if AcquiresAt(key1, rest, i - 1) {
      forall j | 0 <= j < i ensures !FindsFree(key, attempts, j) {
        assert j > 0 ==> !FindsFree(key1, rest, j - 1);
      }
    }
    if AcquiresAt(key, attempts, i) {
      forall j | 0 <= j < i - 1 ensures !FindsFree(key1, rest, j) {
        assert !FindsFree(key, attempts, j + 1);
      }
    }
  }

  lemma FirstRound(key: Option<Lease>, attempts: seq<Attempt>)
    requires attempts != []
    ensures KeyAfter(key, attempts[..1]) ==
      (var seen := Altered(key, attempts[0].world); if attempts[0].fails then seen else Current(seen, attempts[0].now))
    ensures FindsFree(key, attempts, 0) <==>
      !attempts[0].fails && Current(Altered(key, attempts[0].world), attempts[0].now) == None
  {
    assert attempts[..1][..0] == [] && attempts[..0] == [];
  }

  /** AcquireLock succeeds exactly if some round finds the key free before a cancellation is met; it then holds the
      key for five minutes from that round on. */
  lemma {:induction false} AcquireIff(key: Option<Lease>, attempts: seq<Attempt>, me: string)
    ensures Acquire(key, attempts, me).1 <==> Acquires(key, attempts)
    ensures forall i :: 0 <= i < |attempts| && AcquiresAt(key, attempts, i) ==>
      Acquire(key, attempts, me).0 == Some(Lease(me, attempts[i].now + 300 * 1_000_000_000))
    decreases |attempts|
  {
    if attempts != [] && !attempts[0].cancelled {
      FirstRound(key, attempts);
      if FindsFree(key, attempts, 0) {
        assert AcquiresAt(key, attempts, 0);
      } else if attempts[0].fails || !attempts[0].cancelledWaiting {
        AcquireLater(key, attempts, me);
      }
    }
  }

  lemma AcquireNextRound(key: Option<Lease>, attempts: seq<Attempt>, me: string)
    requires attempts != [] && !attempts[0].cancelled && !FindsFree(key, attempts, 0)
    requires attempts[0].fails || !attempts[0].cancelledWaiting
    ensures Acquire(key, attempts, me) == Acquire(KeyAfter(key, attempts[..1]), attempts[1..], me)
  {
    FirstRound(key, attempts);
  }

  lemma {:induction false} AcquireLater(key: Option<Lease>, attempts: seq<Attempt>, me: string)
    requires attempts != [] && !attempts[0].cancelled && !FindsFree(key, attempts, 0)
    requires attempts[0].fails || !attempts[0].cancelledWaiting
    ensures Acquire(key, attempts, me).1 <==> Acquires(key, attempts)
    ensures forall i :: 0 <= i < |attempts| && AcquiresAt(key, attempts, i) ==>
      Acquire(key, attempts, me).0 == Some(Lease(me, attempts[i].now + LOCK_TTL))
    decreases |attempts|, 0
  {
    var key1, rest := KeyAfter(key, attempts[..1]), attempts[1..];
    AcquireNextRound(key, attempts, me);
    AcquireIff(key1, rest, me);
    forall i | 0 < i < |attempts| ensures AcquiresAt(key, attempts, i) == AcquiresAt(key1, rest, i - 1) {
      AcquiresAtTail(key, attempts, i);
    }
    if i :| 0 <= i < |rest| && AcquiresAt(key1, rest, i) {
      assert AcquiresAt(key, attempts, i + 1);
    }
  }

  /** Only an acquisition makes the key this instance's. */
  lemma {:induction false} NotAcquiredNotOwned(key: Option<Lease>, attempts: seq<Attempt>, me: string)
    requires forall i :: 0 <= i < |attempts| ==> Foreign(attempts[i].world, me)
    requires !Owns(key, me) && !Acquire(key, attempts, me).1
    ensures !Owns(Acquire(key, attempts, me).0, me)
    decreases |attempts|
  {
    if attempts != [] && !attempts[0].cancelled {
      var a, seen := attempts[0], Altered(key, attempts[0].world);
      assert Foreign(a.world, me);
      if a.fails || !a.cancelledWaiting {
        NotAcquiredNotOwned(if a.fails then seen else SetNX(seen, me, a.now).0, attempts[1..], me);
      }
    }
  }

  // ---------------------------------------------------------------- releasing

  /** The key after ReleaseLock. */
  function Released(key: Option<Lease>, r: Release, me: string): Option<Lease> {
    var seen := Altered(key, r.world);
    if r.reaches then CompareAndDelete(seen, me, r.now).0 else seen
  }

  /** The key after the first `n` of the releases, the last of them first. */
  function ReleasedAll(key: Option<Lease>, exits: seq<Release>, n: nat, me: string): Option<Lease>
    requires n <= |exits|
    decreases n
  {
    if n == 0 then key else ReleasedAll(Released(key, exits[n - 1], me), exits, n - 1, me)
  }

  /** The key had nothing been released. */
  function LeftAlone(key: Option<Lease>, exits: seq<Release>, n: nat): Option<Lease>
    requires n <= |exits|
    decreases n
  {
    if n == 0 then key else LeftAlone(Altered(key, exits[n - 1].world), exits, n - 1)
  }

  /** `d` is the key `w`, or gone where `w` is this instance's or over at `t`. */
  predicate GoneAtMost(w: Option<Lease>, d: Option<Lease>, me: string, t: nat) {
    d == w || (d == None && (Owns(w, me) || w.value.until <= t))
  }

  lemma {:induction false} ReleasesTakeOwn(w: Option<Lease>, d: Option<Lease>, exits: seq<Release>, n: nat, me: string, t: nat)
    requires n <= |exits| && GoneAtMost(w, d, me, t) && forall k :: 0 <= k < n ==> exits[k].now <= t
    ensures GoneAtMost(LeftAlone(w, exits, n), ReleasedAll(d, exits, n, me), me, t)
    decreases n
  {
    if n > 0 {
      var r := exits[n - 1];
      ReleasesTakeOwn(Altered(w, r.world), Released(d, r, me), exits, n - 1, me, t);
    }
  }

  /** However many releases run, and whatever others do in between, another instance's key that is live after them
      is as it would be without them. */
  lemma ReleasesSpareOthers(key: Option<Lease>, exits: seq<Release>, n: nat, me: string, t: nat)
    requires n <= |exits| && forall k :: 0 <= k < n ==> exits[k].now <= t
    ensures
      var w, d := Current(LeftAlone(key, exits, n), t), Current(ReleasedAll(key, exits, n, me), t);
      && (!Owns(w, me) ==> d == w)
      && (Owns(w, me) ==> d == w || d == None)
  {
    ReleasesTakeOwn(key, key, exits, n, me, t);
  }

  /** The release deferred first runs last: what another instance does to the key just before it is what remains. */
  lemma {:induction false} FirstDeferredLast(key: Option<Lease>, exits: seq<Release>, n: nat, me: string)
    requires 0 < n <= |exits| && exits[0].world.TakenBy? && exits[0].world.other != me && exits[0].now < exits[0].world.until
    ensures ReleasedAll(key, exits, n, me) == Some(Lease(exits[0].world.other, exits[0].world.until))
    decreases n
  {
    if n > 1 {
      FirstDeferredLast(Released(key, exits[n - 1], me), exits, n - 1, me);
    } else {
      assert ReleasedAll(key, exits, 1, me) == Released(key, exits[0], me);
    }
  }

  /** One of the first `n` releases reaches Redis. */
  predicate AnyReaches(exits: seq<Release>, n: nat)
    requires n <= |exits|
  {
    exists k :: 0 <= k < n && exits[k].reaches
  }

  /** The releases together give the key up if any of them reaches Redis. */
  lemma {:induction false} ReleasesGiveUp(key: Option<Lease>, exits: seq<Release>, n: nat, me: string)
    requires n <= |exits| && forall k :: 0 <= k < n ==> Foreign(exits[k].world, me)
    requires !Owns(key, me) || AnyReaches(exits, n)
    ensures !Owns(ReleasedAll(key, exits, n, me), me)
    decreases n
  {
    if n > 0 {
      assert Foreign(exits[n - 1].world, me);
      ReleasesGiveUp(Released(key, exits[n - 1], me), exits, n - 1, me);
    }
  }

  // ---------------------------------------------------------------- the objects

  class LockStore {
    var key: Option<Lease>
    ghost var wins: nat                   // SETNXs that succeeded

    constructor ()
      ensures key == None && wins == 0
    {
      key, wins := None, 0;
    }

    method Meanwhile(w: World)
      modifies this`key
      ensures key == Altered(old(key), w)
    {
      match w
      case Still =>
      case Expires => key := None;
      case TakenBy(o, u) => key := Some(Lease(o, u));
    }

    method SetIfAbsent(value: string, now: nat) returns (won: bool)
      modifies this
      ensures (key, won) == SetNX(old(key), value, now)
      ensures wins == old(wins) + if won then 1 else 0
    {
      var r := SetNX(key, value, now);
      key, won := r.0, r.1;
      wins := wins + if won then 1 else 0;
    }
  }

  class BatchLock {
    const store: LockStore
    const lockValue: string
    ghost var entered: bool               // acquired, and ReleaseLock not called since

    constructor (store: LockStore, instanceID: string)
      ensures this.store == store && lockValue == instanceID && !entered
    {
      this.store, lockValue, entered := store, instanceID, false;
    }

    /** False is the context's error. */
    method AcquireLock(attempts: seq<Attempt>) returns (ok: bool)
      requires !entered
      modifies store, this`entered
      ensures (store.key, ok) == Acquire(old(store.key), attempts, lockValue)
      ensures ok <==> Acquires(old(store.key), attempts)
      ensures entered == ok && store.wins == old(store.wins) + if ok then 1 else 0
    {
      ghost var before := store.key;
      AcquireIff(before, attempts, lockValue);
      entered := false;
      ok := false;
      for i := 0 to |attempts|
        invariant Acquire(before, attempts, lockValue) == Acquire(store.key, attempts[i..], lockValue)
        invariant !entered && store.wins == old(store.wins)
      {
        var attempt := attempts[i];
        assert attempts[i..][0] == attempt && attempts[i..][1..] == attempts[i + 1..];
        if attempt.cancelled {
          return;
        }
        store.Meanwhile(attempt.world);
        if attempt.fails {
          continue;
        }
        ok := store.SetIfAbsent(lockValue, attempt.now);
        if ok {
          entered := true;
          return;
        }
        if attempt.cancelledWaiting {
          return;
        }
      }
    }

    method ReleaseLock(r: Release)
      modifies store`key, this`entered
      ensures store.key == Released(old(store.key), r, lockValue) && !entered
      ensures r.reaches && Foreign(r.world, lockValue) ==> !Owns(store.key, lockValue)
      ensures r.world.TakenBy? && r.world.other != lockValue && r.now < r.world.until ==>
        store.key == Some(Lease(r.world.other, r.world.until))
    {
      entered := false;
      store.Meanwhile(r.world);
      if r.reaches {
        store.key := CompareAndDelete(store.key, lockValue, r.now).0;
      }
    }
  }
}
