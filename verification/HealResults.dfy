/** The queue of heal results between a heal sequence and the client that polls it. */
module HealResults {
  import opened Common

  const MAX_UNCONSUMED: nat := 1000

  datatype Item = Item(index: int, result: string)

  /** The unpolled items and the index of the last item sent. */
  datatype Queue = Queue(items: seq<Item>, lastSent: int)

  /** The results numbered from `first` on. */
  function Numbered(first: int, results: seq<string>): seq<Item>
    decreases |results|
  {
    if results == [] then [] else [Item(first, results[0])] + Numbered(first + 1, results[1..])
  }

  predicate Consistent(q: Queue) {
    && |q.items| <= MAX_UNCONSUMED
    && forall i :: 0 <= i < |q.items| ==> q.items[i].index == q.lastSent + 1 + i
  }

  function LastIndex(q: Queue): int {
    if |q.items| > 0 then q.items[|q.items| - 1].index else q.lastSent
  }

  function Pushed(q: Queue, result: string): Queue {
    if |q.items| == MAX_UNCONSUMED then q
    else q.(items := q.items + [Item(1 + LastIndex(q), result)])
  }

  function Polled(q: Queue): Queue {
    Queue([], LastIndex(q))
  }

  /** An attempt to push, which a full queue turns away, or a poll. */
  datatype Op = Push(result: string) | Poll

  function Apply(q: Queue, op: Op): Queue {
    match op
    case Push(result) => Pushed(q, result)
    case Poll => Polled(q)
  }

  function After(q: Queue, ops: seq<Op>): Queue
    decreases |ops|
  {
    if ops == [] then q else After(Apply(q, ops[0]), ops[1..])
  }

  /** The results the queue took, in order. */
  function Accepted(q: Queue, ops: seq<Op>): seq<string>
    decreases |ops|
  {
    if ops == [] then []
    else (if ops[0].Push? && |q.items| < MAX_UNCONSUMED then [ops[0].result] else [])
         + Accepted(Apply(q, ops[0]), ops[1..])
  }

  /** The batches the polls returned, one after the other. */
  function Delivered(q: Queue, ops: seq<Op>): seq<Item>
    decreases |ops|
  {
    if ops == [] then []
    else (if ops[0].Poll? then q.items else []) + Delivered(Apply(q, ops[0]), ops[1..])
  }

  lemma NothingDone(q: Queue)
    ensures After(q, []) == q && Accepted(q, []) == [] && Delivered(q, []) == []
  {
  }

  lemma FirstDone(q: Queue, ops: seq<Op>)
    requires ops != []
    ensures var next, rest := Apply(q, ops[0]), ops[1..];
            && After(q, ops) == After(next, rest)
            && Accepted(q, ops) == (if ops[0].Push? && |q.items| < MAX_UNCONSUMED
                                    then [ops[0].result] + Accepted(next, rest) else Accepted(next, rest))
            && Delivered(q, ops) == (if ops[0].Poll? then q.items + Delivered(next, rest) else Delivered(next, rest))
            && next == if ops[0].Push? then Pushed(q, ops[0].result) else Polled(q)
  {
    hide Pushed, Polled;
    assert [] + Accepted(Apply(q, ops[0]), ops[1..]) == Accepted(Apply(q, ops[0]), ops[1..]);
    assert [] + Delivered(Apply(q, ops[0]), ops[1..]) == Delivered(Apply(q, ops[0]), ops[1..]);
  }

  lemma ApplyKeeps(q: Queue, op: Op)
    requires Consistent(q)
    ensures Consistent(Apply(q, op))
    ensures LastIndex(q) == q.lastSent + |q.items|
    ensures LastIndex(Apply(q, op)) == LastIndex(q) + if op.Push? && |q.items| < MAX_UNCONSUMED then 1 else 0
  {
  }

  lemma {:induction false} RunDelivers(q: Queue, ops: seq<Op>)
    requires Consistent(q)
    ensures Consistent(After(q, ops))
    ensures Delivered(q, ops) + After(q, ops).items == q.items + Numbered(LastIndex(q) + 1, Accepted(q, ops))
    decreases |ops|
  {
    hide LastIndex, Numbered, After, Delivered, Accepted, Apply;
    if ops == [] {
      NothingDone(q);
      NumberedNothing(LastIndex(q) + 1);
    } else {
      var next, rest := Apply(q, ops[0]), ops[1..];
      FirstDone(q, ops);
      ApplyKeeps(q, ops[0]);
      RunDelivers(next, rest);
      hide Consistent;
      if ops[0].Poll? {
        PollFirst(q.items, Delivered(next, rest), After(next, rest).items,
                  Numbered(LastIndex(next) + 1, Accepted(next, rest)));
      } else if |q.items| < MAX_UNCONSUMED {
        NumberedCons(LastIndex(q) + 1, ops[0].result, Accepted(next, rest));
      }
    }
  }

  lemma PollFirst(batch: seq<Item>, later: seq<Item>, left: seq<Item>, numbered: seq<Item>)
    requires later + left == [] + numbered
    ensures (batch + later) + left == batch + numbered
  {
    assert (batch + later) + left == batch + (later + left);
  }

  lemma NumberedNothing(first: int)
    ensures Numbered(first, []) == []
  {
  }

  lemma NumberedCons(first: int, result: string, more: seq<string>)
    ensures Numbered(first, [result] + more) == [Item(first, result)] + Numbered(first + 1, more)
  {
    assert ([result] + more)[1..] == more;
  }

  lemma {:induction false} NumberedAt(first: int, results: seq<string>)
    ensures |Numbered(first, results)| == |results|
    ensures forall i :: 0 <= i < |results| ==> Numbered(first, results)[i] == Item(first + i, results[i])
    decreases |results|
  {
    if results == [] {
    } else {
      NumberedAt(first + 1, results[1..]);
    }
  }

  /** Over every run the polled batches followed by the unpolled items are all pushed results, in
      order, numbered 1, 2, 3 and so on, and no more than a thousand are unpolled. */
  lemma NothingLostOrRepeated(ops: seq<Op>)
    ensures var start := Queue([], 0);
            var all := Delivered(start, ops) + After(start, ops).items;
            && |all| == |Accepted(start, ops)|
            && (forall i :: 0 <= i < |all| ==> all[i] == Item(i + 1, Accepted(start, ops)[i]))
            && |After(start, ops).items| <= MAX_UNCONSUMED
  {
    var start := Queue([], 0);
    RunDelivers(start, ops);
    NumberedAt(1, Accepted(start, ops));
    assert start.items + Numbered(1, Accepted(start, ops)) == Numbered(1, Accepted(start, ops));
  }

  /** What ends a wait for room: a second passes, in which the client may poll; the sequence is
      stopped; or nothing was polled for too long. */
  datatype Wait = Second(clientPolls: bool) | StopSignal | IdleTimeout

  /** The first `n` waits are seconds in which nothing happens. */
  predicate Idle(waits: seq<Wait>, n: nat)
    requires n <= |waits|
  {
    forall i :: 0 <= i < n ==> waits[i] == Second(false)
  }

  /** The first wait that is not such a second is `wait`. */
  ghost predicate EndedBy(waits: seq<Wait>, wait: Wait) {
    exists i :: 0 <= i < |waits| && waits[i] == wait && wait != Second(false) && Idle(waits, i)
  }

  lemma OneEnd(waits: seq<Wait>, n: nat)
    requires n < |waits| && Idle(waits, n) && waits[n] != Second(false)
    ensures forall wait :: EndedBy(waits, wait) <==> wait == waits[n]
    ensures !Idle(waits, |waits|)
  {
    forall wait | EndedBy(waits, wait) ensures wait == waits[n] {
      var i :| 0 <= i < |waits| && waits[i] == wait && wait != Second(false) && Idle(waits, i);
      assert i == n;
    }
  }

  lemma NothingIdle(waits: seq<Wait>)
    ensures Idle(waits, 0)
  {
  }

  lemma IdleOn(waits: seq<Wait>, n: nat)
    requires n < |waits| && Idle(waits, n) && waits[n] == Second(false)
    ensures Idle(waits, n + 1)
  {
  }

  lemma NoEnd(waits: seq<Wait>)
    requires Idle(waits, |waits|)
    ensures forall wait :: !EndedBy(waits, wait)
  {
  }

  datatype PushResult = Stored | Stopped | TimedOut

  class HealSequence {
    const clientToken: string
    var items: seq<Item>
    var lastSentResultIndex: int
    ghost var ops: seq<Op>

    ghost function Abs(): Queue
      reads this
    {
      Queue(items, lastSentResultIndex)
    }

    /** The queue is the outcome of the operations so far. */
    ghost predicate Valid()
      reads this
    {
      Consistent(Abs()) && Abs() == After(Queue([], 0), ops)
    }

    constructor (token: string)
      ensures Valid() && Abs() == Queue([], 0) && ops == [] && clientToken == token
    {
      clientToken := token;
      items, lastSentResultIndex, ops := [], 0, [];
    }

    /** Push a result, waiting as `waits` says while the queue is full. */
    method PushHealResultItem(result: string, waits: seq<Wait>) returns (r: PushResult)
      requires Valid()
      modifies this
      ensures Valid() && old(ops) <= ops
      ensures r == Stored ==>
                ops != [] && ops[|ops| - 1] == Push(result) && items != [] && items[|items| - 1].result == result
      ensures r != Stored ==> |items| == MAX_UNCONSUMED && Push(result) !in ops[|old(ops)|..]
      ensures r == Stopped <==> old(|items|) == MAX_UNCONSUMED && EndedBy(waits, StopSignal)
      ensures r == TimedOut <==>
                old(|items|) == MAX_UNCONSUMED && (EndedBy(waits, IdleTimeout) || Idle(waits, |waits|))
      ensures r == Stored ==>
                ops == old(ops) + (if old(|items|) < MAX_UNCONSUMED then [] else [Poll]) + [Push(result)]
    {
      hide After, EndedBy, Idle;
      NothingIdle(waits);
      var round := 0;
      while |items| == MAX_UNCONSUMED
        invariant Valid() && old(ops) <= ops && round <= |waits|
        invariant Push(result) !in ops[|old(ops)|..]
        invariant |items| < MAX_UNCONSUMED ==>
                    if old(|items|) < MAX_UNCONSUMED then ops == old(ops)
                    else && ops == old(ops) + [Poll] && !Idle(waits, |waits|)
                         && forall wait :: EndedBy(waits, wait) <==> wait == Second(true)
        invariant |items| == MAX_UNCONSUMED ==>
                    old(|items|) == MAX_UNCONSUMED && ops == old(ops) && Idle(waits, round)
        decreases |waits| - round
      {
        if round < |waits| && waits[round] != Second(false) { OneEnd(waits, round); }
        if round == |waits| {
          NoEnd(waits);
          return TimedOut;
        }
        if waits[round] == IdleTimeout {
          return TimedOut;
        }
        if waits[round] == StopSignal {
          return Stopped;
        }
        if waits[round].clientPolls {
          var batch := PopHealStatus(clientToken);
        } else {
          IdleOn(waits, round);
        }
        round := round + 1;
      }
      ApplyKeeps(Abs(), Push(result));
      AfterSnoc(Queue([], 0), ops, Push(result));
      var index := if |items| > 0 then 1 + items[|items| - 1].index else 1 + lastSentResultIndex;
      items := items + [Item(index, result)];
      ops := ops + [Push(result)];
      return Stored;
    }

    /** The client takes all items, if its token is the one of this sequence. */
    method PopHealStatus(token: string) returns (batch: Option<seq<Item>>)
      requires Valid()
      modifies this
      ensures Valid()
      ensures token != clientToken ==> batch == None && Abs() == old(Abs()) && ops == old(ops)
      ensures token == clientToken ==> batch == Some(old(items)) && items == [] && ops == old(ops) + [Poll]
    {
      if token != clientToken {
        return None;
      }
      ApplyKeeps(Abs(), Poll);
      AfterSnoc(Queue([], 0), ops, Poll);
      var numItems := |items|;
      var lastResultIndex := lastSentResultIndex;
      if numItems > 0 {
        lastResultIndex := items[numItems - 1].index;
      }
      lastSentResultIndex := lastResultIndex;
      batch := Some(items);
      items := [];
      ops := ops + [Poll];
    }
  }

  lemma {:induction false} AfterSnoc(q: Queue, ops: seq<Op>, op: Op)
    ensures After(q, ops + [op]) == Apply(After(q, ops), op)
    decreases |ops|
  {
    if ops == [] {
      assert After(q, [op]) == After(Apply(q, op), []);
      assert ops + [op] == [op];
    } else {
      assert (ops + [op])[1..] == ops[1..] + [op];
      AfterSnoc(Apply(q, ops[0]), ops[1..], op);
    }
  }
}
