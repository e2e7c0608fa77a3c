/** The batch lock: one Redis key set with SETNX and a time to live, deleted and extended only after comparing
    its value. Many streamer instances run passes over a shared clock; leases may lapse mid-pass. */
module LockProtocol {
  import opened Messages

  const LOCK_TTL: nat := 300 * NANOS_PER_SECOND

  /** The lock key's value and the instant it expires. */
  datatype Lease = Lease(holder: string, until: nat)

  /** The key as Redis shows it at `now`. */
  function Current(key: Option<Lease>, now: nat): Option<Lease> {
    if key.Some? && now < key.value.until then key else None
  }

  function SetNX(key: Option<Lease>, value: string, now: nat): (Option<Lease>, bool) {
    if Current(key, now) == None then (Some(Lease(value, now + LOCK_TTL)), true) else (Current(key, now), false)
  }

  /** The release script: delete if the value is the caller's. */
  function CompareAndDelete(key: Option<Lease>, value: string, now: nat): (Option<Lease>, bool) {
    match Current(key, now)
    case None => (None, false)
    case Some(l) => if l.holder == value then (None, true) else (Some(l), false)
  }

  /** The extend script: restart the time to live if the value is the caller's. */
  function CompareAndExpire(key: Option<Lease>, value: string, now: nat): (Option<Lease>, bool) {
    match Current(key, now)
    case None => (None, false)
    case Some(l) => if l.holder == value then (Some(Lease(value, now + LOCK_TTL)), true) else (Some(l), false)
  }

  /** `inside` maps each instance in a pass to the end of the lease it acquired or last extended. */
  datatype State = State(clock: nat, key: Option<Lease>, inside: map<nat, nat>)

  const INIT := State(0, None, map[])

  datatype Action =
    | Tick(to: nat)
    | Enter(i: nat)               // an attempt of AcquireLock; the pass starts if SETNX succeeds
    | Extend(i: nat)              // ExtendLock during a pass
    | Leave(i: nat, ok: bool)     // end of the pass; `ok`: the in-loop ReleaseLock reached Redis
    | Deferred(i: nat)            // a deferred ReleaseLock, when Start returns

  ghost predicate Enabled(s: State, a: Action) {
    match a
    case Tick(to) => s.clock <= to
    case Enter(i) => i !in s.inside
    case Extend(i) => i in s.inside
    case Leave(i, _) => i in s.inside
    case Deferred(i) => i !in s.inside
  }

  function Apply(ids: nat -> string, s: State, a: Action): State {
    match a
    case Tick(to) => s.(clock := to)
    case Enter(i) =>
      var (key, ok) := SetNX(s.key, ids(i), s.clock);
      State(s.clock, key, if ok then s.inside[i := s.clock + LOCK_TTL] else s.inside)
    case Extend(i) =>
      var (key, ok) := CompareAndExpire(s.key, ids(i), s.clock);
      State(s.clock, key, if ok then s.inside[i := s.clock + LOCK_TTL] else s.inside)
    case Leave(i, ok) =>
      State(s.clock, if ok then CompareAndDelete(s.key, ids(i), s.clock).0 else s.key, s.inside - {i})
    case Deferred(i) => s.(key := CompareAndDelete(s.key, ids(i), s.clock).0)
  }

  ghost predicate Runs(ids: nat -> string, s: State, acts: seq<Action>)
    decreases |acts|
  {
    acts == [] || (Enabled(s, acts[0]) && Runs(ids, Apply(ids, s, acts[0]), acts[1..]))
  }

  function After(ids: nat -> string, s: State, acts: seq<Action>): State
    decreases |acts|
  {
    if acts == [] then s else After(ids, Apply(ids, s, acts[0]), acts[1..])
  }

  ghost predicate Reachable(ids: nat -> string, s: State) {
    exists acts :: Runs(ids, INIT, acts) && After(ids, INIT, acts) == s
  }

  ghost predicate DistinctIds(ids: nat -> string) {
    forall i, j :: i != j ==> ids(i) != ids(j)
  }

  /** Instance `i` is in a pass and its lease has not run out. */
  predicate Protected(s: State, i: nat) {
    i in s.inside && s.clock < s.inside[i]
  }

  ghost predicate Exclusive(s: State) {
    forall i, j :: Protected(s, i) && Protected(s, j) ==> i == j
  }

  /** A protected instance owns the key, and a live key held by an instance in a pass is that pass's lease. */
  ghost predicate LeasesMatch(ids: nat -> string, s: State) {
    forall i :: i in s.inside ==>
      && (s.clock < s.inside[i] ==> s.key == Some(Lease(ids(i), s.inside[i])))
      && (s.key.Some? && s.key.value.holder == ids(i) && s.clock < s.key.value.until ==> s.key.value.until == s.inside[i])
  }

  lemma LeasesStep(ids: nat -> string, s: State, a: Action)
    requires DistinctIds(ids) && Enabled(s, a) && LeasesMatch(ids, s)
    ensures LeasesMatch(ids, Apply(ids, s, a))
  {
  }

  lemma {:induction false} LeasesAlong(ids: nat -> string, s: State, acts: seq<Action>)
    requires DistinctIds(ids) && Runs(ids, s, acts) && LeasesMatch(ids, s)
    ensures LeasesMatch(ids, After(ids, s, acts))
    decreases |acts|
  {
    if acts != [] {
      LeasesStep(ids, s, acts[0]);
      LeasesAlong(ids, Apply(ids, s, acts[0]), acts[1..]);
    }
  }

  lemma ReachableLeases(ids: nat -> string, s: State)
    requires DistinctIds(ids) && Reachable(ids, s)
    ensures LeasesMatch(ids, s)
  {
    var acts :| Runs(ids, INIT, acts) && After(ids, INIT, acts) == s;
    LeasesAlong(ids, INIT, acts);
  }

  lemma {:induction false} RunsSnoc(ids: nat -> string, s: State, acts: seq<Action>, a: Action)
    requires Runs(ids, s, acts) && Enabled(After(ids, s, acts), a)
    ensures Runs(ids, s, acts + [a]) && After(ids, s, acts + [a]) == Apply(ids, After(ids, s, acts), a)
    decreases |acts|
  {
    if acts == [] {
      assert [a][1..] == [];
      assert acts + [a] == [a];
      assert After(ids, Apply(ids, s, a), []) == Apply(ids, s, a);
    } else {
      assert (acts + [a])[0] == acts[0] && (acts + [a])[1..] == acts[1..] + [a];
      RunsSnoc(ids, Apply(ids, s, acts[0]), acts[1..], a);
    }
  }

  lemma ReachableStep(ids: nat -> string, s: State, a: Action)
    requires Reachable(ids, s) && Enabled(s, a)
    ensures Reachable(ids, Apply(ids, s, a))
  {
    var acts :| Runs(ids, INIT, acts) && After(ids, INIT, acts) == s;
    RunsSnoc(ids, INIT, acts, a);
  }

  /** Instance `j` acquires while `i` is in a pass it acquired `LOCK_TTL` ago; `i` ends its pass, releases, and
      acquires again. With one value for both, i's release deletes j's key. */
  lemma SharedIdBreaksExclusion(ids: nat -> string, i: nat, j: nat)
    requires i != j && ids(i) == ids(j)
    ensures exists s :: Reachable(ids, s) && !Exclusive(s)
  {
    assert Runs(ids, INIT, []) && After(ids, INIT, []) == INIT;
    var s1 := Apply(ids, INIT, Enter(i));
    ReachableStep(ids, INIT, Enter(i));
    var s2 := Apply(ids, s1, Tick(LOCK_TTL));
    ReachableStep(ids, s1, Tick(LOCK_TTL));
    var s3 := Apply(ids, s2, Enter(j));
    ReachableStep(ids, s2, Enter(j));
    var s4 := Apply(ids, s3, Leave(i, true));
    ReachableStep(ids, s3, Leave(i, true));
    assert s4.key == None && Protected(s4, j);
    var s5 := Apply(ids, s4, Enter(i));
    ReachableStep(ids, s4, Enter(i));
    assert Protected(s5, i) && Protected(s5, j);
  }

  /** Mutual exclusion of unexpired leases holds in every run if and only if instance IDs are distinct. */
  lemma ExclusionIffDistinctIds(ids: nat -> string)
    ensures (forall s :: Reachable(ids, s) ==> Exclusive(s)) <==> DistinctIds(ids)
  {
    if DistinctIds(ids) {
      forall s | Reachable(ids, s) ensures Exclusive(s) {
        ReachableLeases(ids, s);
      }
    } else {
      var i, j :| i != j && ids(i) == ids(j);
      SharedIdBreaksExclusion(ids, i, j);
    }
  }

  /** An instance still in a pass after its lease has lapsed neither removes nor prolongs the key another instance
      may hold. */
  lemma LapsedIsHarmless(ids: nat -> string, s: State, i: nat, ok: bool)
    requires DistinctIds(ids) && Reachable(ids, s) && i in s.inside && !Protected(s, i)
    ensures Current(Apply(ids, s, Leave(i, ok)).key, s.clock) == Current(s.key, s.clock)
    ensures Current(Apply(ids, s, Extend(i)).key, s.clock) == Current(s.key, s.clock)
    ensures Apply(ids, s, Extend(i)).inside == s.inside
  {
    ReachableLeases(ids, s);
  }

  /** A deferred release never takes the key from an instance that is in a pass. */
  lemma DeferredIsHarmless(ids: nat -> string, s: State, i: nat, j: nat)
    requires DistinctIds(ids) && Reachable(ids, s) && Enabled(s, Deferred(i)) && Protected(s, j)
    ensures Apply(ids, s, Deferred(i)).key == s.key == Some(Lease(ids(j), s.inside[j]))
  {
    ReachableLeases(ids, s);
    assert i != j;
  }

  // ---------------------------------------------------------------- overlapping passes

  ghost predicate Overlap(s: State) {
    exists i, j :: i != j && i in s.inside && j in s.inside
  }

  /** SETNX succeeds for an instance while another is still in a pass whose lease has run out. */
  ghost predicate EntersPastLease(ids: nat -> string, s: State, a: Action) {
    a.Enter? && SetNX(s.key, ids(a.i), s.clock).1 && exists i :: i in s.inside && i != a.i && s.inside[i] <= s.clock
  }

  lemma OverlapStep(ids: nat -> string, s: State, a: Action)
    requires DistinctIds(ids) && Enabled(s, a) && LeasesMatch(ids, s) && !Overlap(s)
    ensures Overlap(Apply(ids, s, a)) <==> EntersPastLease(ids, s, a)
  {
    var s' := Apply(ids, s, a);
    if Overlap(s') {
      var i, j :| i != j && i in s'.inside && j in s'.inside;
      assert a.Enter? && (i == a.i || j == a.i);
      var other := if i == a.i then j else i;
      assert other in s.inside;
    }
    if EntersPastLease(ids, s, a) {
      var i :| i in s.inside && i != a.i && s.inside[i] <= s.clock;
      assert i in s'.inside && a.i in s'.inside;
    }
  }

  lemma {:induction false} AfterSnoc(ids: nat -> string, s: State, acts: seq<Action>, n: nat)
    requires n < |acts| && Runs(ids, s, acts)
    ensures Runs(ids, s, acts[..n])
    ensures Enabled(After(ids, s, acts[..n]), acts[n])
    ensures After(ids, s, acts[..n + 1]) == Apply(ids, After(ids, s, acts[..n]), acts[n])
    decreases |acts|
  {
    if n > 0 {
      AfterSnoc(ids, Apply(ids, s, acts[0]), acts[1..], n - 1);
      assert acts[..n][1..] == acts[1..][..n - 1];
      assert acts[..n + 1][1..] == acts[1..][..n];
    } else {
      assert acts[..1][1..] == [];
    }
  }

  lemma {:induction false} FirstOverlap(ids: nat -> string, acts: seq<Action>, n: nat)
    requires DistinctIds(ids) && Runs(ids, INIT, acts) && n <= |acts| && Overlap(After(ids, INIT, acts[..n]))
    ensures exists k :: 0 <= k < n && EntersPastLease(ids, After(ids, INIT, acts[..k]), acts[k])
  {
    if n > 0 {
      var before := After(ids, INIT, acts[..n - 1]);
      AfterSnoc(ids, INIT, acts, n - 1);
      if Overlap(before) {
        FirstOverlap(ids, acts, n - 1);
      } else {
        LeasesAlong(ids, INIT, acts[..n - 1]);
        OverlapStep(ids, before, acts[n - 1]);
      }
    }
  }

  /** Two passes overlap in a run exactly when some instance acquires the lock while another is still in a
      pass that has outlived its lease. */
  lemma OverlapIff(ids: nat -> string, acts: seq<Action>)
    requires DistinctIds(ids) && Runs(ids, INIT, acts)
    ensures (exists n :: 0 <= n <= |acts| && Overlap(After(ids, INIT, acts[..n])))
       <==> (exists k :: 0 <= k < |acts| && EntersPastLease(ids, After(ids, INIT, acts[..k]), acts[k]))
  {
    if n :| 0 <= n <= |acts| && Overlap(After(ids, INIT, acts[..n])) {
      FirstOverlap(ids, acts, n);
    }
    if k :| 0 <= k < |acts| && EntersPastLease(ids, After(ids, INIT, acts[..k]), acts[k]) {
      EnteringOverlaps(ids, acts, k);
    }
  }

  lemma EnteringOverlaps(ids: nat -> string, acts: seq<Action>, k: nat)
    requires Runs(ids, INIT, acts) && k < |acts| && EntersPastLease(ids, After(ids, INIT, acts[..k]), acts[k])
    ensures Overlap(After(ids, INIT, acts[..k + 1]))
  {
    AfterSnoc(ids, INIT, acts, k);
    var s, s' := After(ids, INIT, acts[..k]), After(ids, INIT, acts[..k + 1]);
    var i :| i in s.inside && i != acts[k].i && s.inside[i] <= s.clock;
    assert i in s'.inside && acts[k].i in s'.inside;
  }

  /** If every pass ends or extends its lease in time, no two passes ever overlap. */
  lemma PromptPassesNeverOverlap(ids: nat -> string, acts: seq<Action>, n: nat)
    requires DistinctIds(ids) && Runs(ids, INIT, acts) && n <= |acts|
    requires forall k, i :: 0 <= k <= |acts| && i in After(ids, INIT, acts[..k]).inside ==> Protected(After(ids, INIT, acts[..k]), i)
    ensures !Overlap(After(ids, INIT, acts[..n]))
  {
    if Overlap(After(ids, INIT, acts[..n])) {
      FirstOverlap(ids, acts, n);
    }
  }
}
