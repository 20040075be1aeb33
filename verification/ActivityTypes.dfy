/** The records of the per-node activity log and the limits of its segment files.
    A `char` stands for one byte of a Go string. */
module ActivityTypes {
  /** A recorded mutation.  `time` is an instant in nanoseconds; `seqno` is the event's sequence number. */
  datatype Event = Event(
    time: int,
    node: string,
    seqno: nat,
    accessKey: string,
    source: string,
    api: string,
    bucket: string,
    objectName: string,
    count: int,
    status: int,
    authorizationPrefix: string,
    authorizationPrefixKnown: bool)

  type Segment = seq<Event>

  const SEGMENT_EVENTS: nat := 1000
  const SEGMENT_BYTES: nat := 0x10_0000
  const SEGMENTS_KEPT: nat := 50

  /** Size estimate of an event, compared with SEGMENT_BYTES. */
  function EventBytes(e: Event): nat {
    |e.node| + |e.accessKey| + |e.source| + |e.api| + |e.bucket| + |e.objectName| + |e.authorizationPrefix| + 64
  }

  function Bytes(s: Segment): nat {
    if s == [] then 0 else Bytes(s[..|s| - 1]) + EventBytes(s[|s| - 1])
  }

  lemma BytesSnoc(s: Segment, e: Event)
    ensures Bytes(s + [e]) == Bytes(s) + EventBytes(e)
  {
    assert (s + [e])[..|s|] == s;
  }

  /** All the texts of the events of a segment, one after the other. */
  function TextOf(s: Segment): string {
    if s == [] then "" else
      var e := s[|s| - 1];
      TextOf(s[..|s| - 1]) + e.objectName + e.bucket + e.api + e.source + e.accessKey + e.authorizationPrefix + e.node
  }

  /** The size of a segment counts every byte of its texts, and 64 more for each event. */
  lemma {:induction false} BytesCountText(s: Segment)
    ensures Bytes(s) == |TextOf(s)| + 64 * |s|
  {
    if s == [] {
    } else {
      BytesCountText(s[..|s| - 1]);
    }
  }

  /** The first sequence number of a segment, which names its file. */
  function First(s: Segment): nat {
    if s == [] then 0 else s[0].seqno
  }

  function Flatten(segs: seq<Segment>): seq<Event> {
    if segs == [] then [] else Flatten(segs[..|segs| - 1]) + segs[|segs| - 1]
  }

  function Total(segs: seq<Segment>): nat {
    if segs == [] then 0 else Total(segs[..|segs| - 1]) + |segs[|segs| - 1]|
  }

  lemma {:induction false} FlattenTotal(segs: seq<Segment>)
    ensures |Flatten(segs)| == Total(segs)
  {
    if segs == [] {
    } else {
      FlattenTotal(segs[..|segs| - 1]);
    }
  }

  lemma {:induction false} FlattenHas(segs: seq<Segment>, e: Event)
    ensures e in Flatten(segs) <==> exists s :: s in segs && e in s
  {
    if segs == [] {
    } else {
      var front := segs[..|segs| - 1];
      FlattenHas(front, e);
      assert segs == front + [segs[|segs| - 1]];
    }
  }

  ghost function Elements(s: seq<Event>): (r: set<Event>) {
    set e | e in s
  }

  /** The newest `n` events. */
  function LastN(s: seq<Event>, n: nat): (r: seq<Event>)
    ensures |r| <= n
  {
    if |s| <= n then s else s[|s| - n..]
  }

  function Max(a: nat, b: nat): nat {
    if a < b then b else a
  }

  predicate Increasing(s: seq<nat>) {
    forall i, j :: 0 <= i < j < |s| ==> s[i] < s[j]
  }

  /** Strictly increasing sequence numbers. */
  predicate Ascending(s: seq<Event>) {
    forall i, j :: 0 <= i < j < |s| ==> s[i].seqno < s[j].seqno
  }
}
