/** The values the queue moves around: messages, pending entries, and the
    sequence functions the delivery properties are phrased with. */
module Messages {

  datatype Option<+T> = None | Some(value: T)

  /** `payload` stands for the JSON payload, headers and metadata, which the queue never looks into. */
  datatype Message = Message(id: string, topic: string, payload: string)

  /** `visibleAt` is a clock reading in nanoseconds. */
  datatype PendingEntry = PendingEntry(
    message: Message, group: string, consumer: string, visibleAt: nat, deliveryCount: int)

  const NANOS_PER_SECOND: nat := 1_000_000_000

  /** `time.Time.Unix()`: whole seconds, rounded down. */
  function Unix(nanos: nat): (second: nat)
    ensures second * NANOS_PER_SECOND <= nanos < (second + 1) * NANOS_PER_SECOND
  {
    nanos / NANOS_PER_SECOND
  }

  /** The sorted-set score of an entry. */
  function Score(e: PendingEntry): nat {
    Unix(e.visibleAt)
  }

  ghost predicate Distinct<T>(s: seq<T>) {
    forall i, j :: 0 <= i < j < |s| ==> s[i] != s[j]
  }

  /** No two different messages of `s` share an ID, and none occurs twice. */
  ghost predicate UniqueIds(s: seq<Message>) {
    forall i, j :: 0 <= i < j < |s| ==> s[i].id != s[j].id
  }

  function MessagesOf(entries: seq<PendingEntry>): (ms: seq<Message>)
    ensures |ms| == |entries|
    ensures forall i :: 0 <= i < |ms| ==> ms[i] == entries[i].message
  {
    seq(|entries|, i requires 0 <= i < |entries| => entries[i].message)
  }

  function Reverse<T>(s: seq<T>): (r: seq<T>)
    ensures |r| == |s|
    ensures forall i :: 0 <= i < |s| ==> r[i] == s[|s| - 1 - i]
  {
    seq(|s|, i requires 0 <= i < |s| => s[|s| - 1 - i])
  }

  /** The messages of `s` that go to topic `t`, in order. */
  function OnTopic(s: seq<Message>, t: string): (r: seq<Message>)
    ensures forall m :: m in r <==> m in s && m.topic == t
  {
    if s == [] then []
    else
      var front, last := s[..|s| - 1], s[|s| - 1];
      assert s == front + [last];
      if last.topic == t then OnTopic(front, t) + [last] else OnTopic(front, t)
  }

  /** The positions of `s` whose element satisfies `p`, in increasing order. */
  function Indices<T>(s: seq<T>, p: T -> bool): (r: seq<nat>)
    ensures forall i :: i in r <==> 0 <= i < |s| && p(s[i])
    ensures forall k :: 0 <= k < |r| ==> r[k] < |s| && p(s[r[k]])
    ensures forall i, j :: 0 <= i < j < |r| ==> r[i] < r[j]
  {
    if s == [] then []
    else
      var n := |s| - 1;
      var front := Indices(s[..n], p);
      if p(s[n]) then front + [n] else front
  }

  lemma IndicesAppend<T>(s: seq<T>, x: T, p: T -> bool)
    ensures Indices(s + [x], p) == Indices(s, p) + (if p(x) then [|s|] else [])
  {
    assert (s + [x])[..|s|] == s;
  }

  lemma Assoc<T>(a: seq<T>, b: seq<T>, d: seq<T>)
    ensures (a + b) + d == a + (b + d)
  {
  }

  lemma OnTopicAppend(s: seq<Message>, m: Message, t: string)
    ensures OnTopic(s + [m], t) == OnTopic(s, t) + (if m.topic == t then [m] else [])
  {
    assert (s + [m])[..|s|] == s;
  }

  lemma {:induction false} OnTopicConcat(a: seq<Message>, b: seq<Message>, t: string)
    ensures OnTopic(a + b, t) == OnTopic(a, t) + OnTopic(b, t)
  {
    if b == [] {
      assert a + b == a;
    } else {
      var front, last := b[..|b| - 1], b[|b| - 1];
      assert b == front + [last];
      OnTopicConcat(a, front, t);
      Assoc(a, front, [last]);
      OnTopicAppend(a + front, last, t);
      OnTopicAppend(front, last, t);
      Assoc(OnTopic(a, t), OnTopic(front, t), if last.topic == t then [last] else []);
    }
  }

  /** `s` with every repeat of an earlier element dropped. */
  function Firsts<T(==,!new)>(s: seq<T>): (r: seq<T>)
    ensures forall x :: x in r <==> x in s
  {
    if s == [] then []
    else
      var front, last := s[..|s| - 1], s[|s| - 1];
      assert s == front + [last];
      if last in front then Firsts(front) else Firsts(front) + [last]
  }

  lemma FirstsAppend<T(!new)>(s: seq<T>, x: T)
    ensures Firsts(s + [x]) == if x in s then Firsts(s) else Firsts(s) + [x]
  {
    assert (s + [x])[..|s|] == s;
  }
}
