/** The Redis structures behind the queue service and the commands used on them,
    each command an atomic function of the stored values. */
module RedisStore {
  import opened Messages

  /** `lists` holds the list "queue:<topic>" under its topic (index 0 is the LPUSH end, the last
      index the BRPOP/RPUSH end); `pels` holds each sorted set under its real key, in ZRANGE order;
      `dead` is the dead letter slice. An absent key is an empty structure. */
  datatype Store = Store(
    lists: map<string, seq<Message>>,
    pels: map<string, seq<PendingEntry>>,
    dead: seq<PendingEntry>)

  const EMPTY := Store(map[], map[], [])

  function PelKey(topic: string, group: string): string {
    "pel:" + topic + ":" + group
  }

  function List(st: Store, topic: string): seq<Message> {
    if topic in st.lists then st.lists[topic] else []
  }

  function Pel(st: Store, key: string): seq<PendingEntry> {
    if key in st.pels then st.pels[key] else []
  }

  function LPush(st: Store, m: Message): Store {
    st.(lists := st.lists[m.topic := [m] + List(st, m.topic)])
  }

  function RPush(st: Store, m: Message): Store {
    st.(lists := st.lists[m.topic := List(st, m.topic) + [m]])
  }

  function Last(st: Store, topic: string): Message
    requires List(st, topic) != []
  {
    List(st, topic)[|List(st, topic)| - 1]
  }

  function RPop(st: Store, topic: string): Store
    requires List(st, topic) != []
  {
    st.(lists := st.lists[topic := List(st, topic)[..|List(st, topic)| - 1]])
  }

  /** Byte order of two strings. */
  predicate LexLess(a: string, b: string) {
    b != [] && (a == [] || a[0] < b[0] || (a[0] == b[0] && LexLess(a[1..], b[1..])))
  }

  /** Byte order, spelled out: after a common beginning one ends or has the smaller byte. */
  ghost predicate SmallerAt(a: string, b: string, k: nat) {
    k <= |a| && k < |b| && a[..k] == b[..k] && (k == |a| || a[k] < b[k])
  }

  lemma {:induction false} LexLessIff(a: string, b: string)
    ensures LexLess(a, b) <==> exists k :: SmallerAt(a, b, k)
  {
    if b == [] || a == [] || a[0] < b[0] {
      assert b != [] ==> SmallerAt(a, b, 0);
    } else {
      LexLessIff(a[1..], b[1..]);
      if k: nat :| SmallerAt(a, b, k) {
        assert k > 0 && a[0] == a[..k][0] && b[0] == b[..k][0];
        assert a[..k][1..] == a[1..][..k - 1] && b[..k][1..] == b[1..][..k - 1];
        assert SmallerAt(a[1..], b[1..], k - 1);
      }
      if a[0] == b[0] {
        if k: nat :| SmallerAt(a[1..], b[1..], k) {
          assert a[..k + 1] == [a[0]] + a[1..][..k] && b[..k + 1] == [b[0]] + b[1..][..k];
          assert SmallerAt(a, b, k + 1);
        }
      }
    }
  }

  lemma {:induction false} LexLessTransitive(a: string, b: string, d: string)
    requires LexLess(a, b) && LexLess(b, d)
    ensures LexLess(a, d)
  {
    if a != [] && a[0] == b[0] == d[0] {
      LexLessTransitive(a[1..], b[1..], d[1..]);
    }
  }

  /** Sorted-set order: by score, then by the bytes of the member. A member is the JSON of an entry,
      which begins with the message ID and the quote that ends it. */
  predicate Precedes(a: PendingEntry, b: PendingEntry) {
    Score(a) < Score(b) || (Score(a) == Score(b) && LexLess(a.message.id + "\"", b.message.id + "\""))
  }

  /** `z` with `e` put in front of the first entry it precedes. */
  function Placed(z: seq<PendingEntry>, e: PendingEntry): (r: seq<PendingEntry>)
    ensures forall x :: x in r <==> x in z || x == e
    ensures multiset(r) == multiset(z) + multiset{e}
  {
    if z == [] then [e]
    else
      assert z == [z[0]] + z[1..];
      if Precedes(e, z[0]) then [e] + z else [z[0]] + Placed(z[1..], e)
  }

  /** The sorted-set insertion: a member already present is left as it is. */
  function Inserted(z: seq<PendingEntry>, e: PendingEntry): (r: seq<PendingEntry>)
    ensures forall x :: x in r <==> x in z || x == e
    ensures e !in z ==> multiset(r) == multiset(z) + multiset{e}
  {
    if e in z then z else Placed(z, e)
  }

  function Removed(z: seq<PendingEntry>, e: PendingEntry): (r: seq<PendingEntry>)
    ensures forall x :: x in r <==> x in z && x != e
  {
    if z == [] then []
    else
      assert z == [z[0]] + z[1..];
      if z[0] == e then Removed(z[1..], e) else [z[0]] + Removed(z[1..], e)
  }

  function ZAdd(st: Store, key: string, e: PendingEntry): Store {
    st.(pels := st.pels[key := Inserted(Pel(st, key), e)])
  }

  function ZRem(st: Store, key: string, e: PendingEntry): Store {
    st.(pels := st.pels[key := Removed(Pel(st, key), e)])
  }

  /** ZRANGEBYSCORE -inf `second`: the entries with a score up to `second`, in order. */
  function UpTo(z: seq<PendingEntry>, second: nat): (r: seq<PendingEntry>)
    ensures forall e :: e in r <==> e in z && Score(e) <= second
  {
    if z == [] then []
    else
      assert z == [z[0]] + z[1..];
      if Score(z[0]) <= second then [z[0]] + UpTo(z[1..], second) else UpTo(z[1..], second)
  }

  /** The entries UpTo leaves behind. */
  function Beyond(z: seq<PendingEntry>, second: nat): (r: seq<PendingEntry>)
    ensures forall e :: e in r <==> e in z && Score(e) > second
  {
    if z == [] then []
    else
      assert z == [z[0]] + z[1..];
      if Score(z[0]) <= second then Beyond(z[1..], second) else [z[0]] + Beyond(z[1..], second)
  }

  /** The scan of Ack and Nack: the first entry, in ZRANGE order, that carries the ID. */
  function FirstWithId(z: seq<PendingEntry>, id: string): (r: Option<PendingEntry>)
    ensures r.Some? ==> r.value in z && r.value.message.id == id
    ensures r.None? <==> forall e :: e in z ==> e.message.id != id
  {
    if z == [] then None
    else
      assert z == [z[0]] + z[1..];
      if z[0].message.id == id then Some(z[0]) else FirstWithId(z[1..], id)
  }

  /** It is the first: no entry before it carries the ID. */
  lemma {:induction false} FirstWithIdIsFirst(z: seq<PendingEntry>, id: string)
    requires FirstWithId(z, id).Some?
    ensures exists i :: 0 <= i < |z| && z[i] == FirstWithId(z, id).value && forall j :: 0 <= j < i ==> z[j].message.id != id
  {
    if z[0].message.id != id {
      FirstWithIdIsFirst(z[1..], id);
      var i :| 0 <= i < |z| - 1 && z[1..][i] == FirstWithId(z[1..], id).value
        && forall j :: 0 <= j < i ==> z[1..][j].message.id != id;
      forall j | 0 <= j < i + 1 ensures z[j].message.id != id {
        assert j > 0 ==> z[j] == z[1..][j - 1];
      }
      assert z[i + 1] == FirstWithId(z, id).value;
    }
  }

  /** What KEYS "pel:*" may answer: the keys of the non-empty sorted sets, in any order. */
  ghost predicate IsKeysReply(st: Store, keys: seq<string>) {
    Distinct(keys) &&
    forall k :: k in keys <==> Pel(st, k) != [] && "pel:" <= k
  }

  ghost predicate SortedByScore(z: seq<PendingEntry>) {
    forall i, j :: 0 <= i < j < |z| ==> Score(z[i]) <= Score(z[j])
  }

  /** `d` may stand before `e`: a smaller score, or the same and an ID not greater. */
  ghost predicate MayPrecede(d: PendingEntry, e: PendingEntry) {
    Score(d) < Score(e) || (Score(d) == Score(e) && !LexLess(e.message.id + "\"", d.message.id + "\""))
  }

  ghost predicate InOrder(z: seq<PendingEntry>) {
    forall i, j :: 0 <= i < j < |z| ==> MayPrecede(z[i], z[j])
  }

  lemma PrecedesThrough(e: PendingEntry, d: PendingEntry, x: PendingEntry)
    requires Precedes(e, d) && (d == x || MayPrecede(d, x))
    ensures MayPrecede(e, x)
  {
    var me, md, mx := e.message.id + "\"", d.message.id + "\"", x.message.id + "\"";
    if Score(e) == Score(x) && LexLess(mx, me) {
      LexLessTransitive(mx, me, md);
      if d == x {
        LexIrreflexive(mx);
      }
    }
  }

  lemma {:induction false} LexIrreflexive(a: string)
    ensures !LexLess(a, a)
  {
    if a != [] {
      LexIrreflexive(a[1..]);
    }
  }

  lemma {:induction false} PlacedInOrder(z: seq<PendingEntry>, e: PendingEntry)
    requires InOrder(z)
    ensures InOrder(Placed(z, e))
  {
    if z != [] {
      if Precedes(e, z[0]) {
        forall i | 0 <= i < |z| ensures MayPrecede(e, z[i]) {
          PrecedesThrough(e, z[0], z[i]);
        }
      } else {
        PlacedInOrder(z[1..], e);
        var r := Placed(z[1..], e);
        forall i | 0 <= i < |r| ensures MayPrecede(z[0], r[i]) {
          assert r[i] in r;
        }
      }
    }
  }

  lemma {:induction false} RemovedInOrder(z: seq<PendingEntry>, e: PendingEntry)
    requires InOrder(z)
    ensures InOrder(Removed(z, e))
  {
    if z != [] {
      RemovedInOrder(z[1..], e);
      var r := Removed(z[1..], e);
      forall i | 0 <= i < |r| ensures MayPrecede(z[0], r[i]) {
        assert r[i] in r;
      }
    }
  }

  lemma SortedHead(z: seq<PendingEntry>)
    requires SortedByScore(z) && z != []
    ensures SortedByScore(z[1..])
    ensures forall e :: e in z ==> Score(z[0]) <= Score(e)
  {
  }

  /** In a sorted set the expired entries are a prefix: UpTo and Beyond split it. */
  lemma {:induction false} SplitAtSecond(z: seq<PendingEntry>, second: nat)
    requires SortedByScore(z)
    ensures UpTo(z, second) + Beyond(z, second) == z
  {
    if z == [] {
    } else {
      SortedHead(z);
      if Score(z[0]) > second {
        NothingUpTo(z, second);
      } else {
        SplitAtSecond(z[1..], second);
        assert UpTo(z, second) == [z[0]] + UpTo(z[1..], second);
        assert Beyond(z, second) == Beyond(z[1..], second);
        assert z == [z[0]] + z[1..];
      }
    }
  }

  lemma {:induction false} NothingUpTo(z: seq<PendingEntry>, second: nat)
    requires forall e :: e in z ==> Score(e) > second
    ensures UpTo(z, second) == [] && Beyond(z, second) == z
  {
    if z != [] {
      NothingUpTo(z[1..], second);
    }
  }

  lemma {:induction false} RemovedAbsent(z: seq<PendingEntry>, e: PendingEntry)
    requires e !in z
    ensures Removed(z, e) == z
  {
    if z != [] {
      RemovedAbsent(z[1..], e);
    }
  }
}
