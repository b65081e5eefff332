/** The Redis-backed message buffer of `turn_ingest/buffer.py`: atomic adds and drains. */
module IngestBuffer {
  import opened Basics

  type Message = string

  // ----- the object -----

  class IngestBuffer {
    var lists: map<string, seq<Message>>
    const batchSize: nat

    function Buffered(sessionKey: string): seq<Message>
      reads this
    {
      if sessionKey in lists then lists[sessionKey] else []
    }

    constructor (batchSize: nat)
      ensures this.batchSize == batchSize && lists == map[]
    {
      this.batchSize := batchSize;
      lists := map[];
    }

    /** One RPUSH per message and one LTRIM in a transaction, then LLEN. */
    method AddMessages(sessionKey: string, messages: seq<Message>, effectiveBatchSize: Option<nat>) returns (ready: bool)
      modifies this
      ensures var size := if effectiveBatchSize.Some? then effectiveBatchSize.value else batchSize;
              && Buffered(sessionKey) == Added(old(Buffered(sessionKey)), messages, size)
              && ready == (|Buffered(sessionKey)| >= size)
      ensures forall k :: k != sessionKey ==> Buffered(k) == old(Buffered(k))
    {
      var size := if effectiveBatchSize.Some? then effectiveBatchSize.value else batchSize;
      var before := Buffered(sessionKey);
      var list := before;
      for i := 0 to |messages|
        invariant list == before + messages[..i]
      {
        list := list + [messages[i]];
        assert messages[..i + 1] == messages[..i] + [messages[i]];
      }
      assert messages[..|messages|] == messages;
      lists := lists[sessionKey := LastN(list, size * 3)];
      ready := |lists[sessionKey]| >= size;
    }

    /** LRANGE and DELETE in a transaction. */
    method Flush(sessionKey: string) returns (drained: seq<Message>)
      modifies this
      ensures drained == old(Buffered(sessionKey)) && Buffered(sessionKey) == []
      ensures forall k :: k != sessionKey ==> Buffered(k) == old(Buffered(k))
    {
      drained := Buffered(sessionKey);
      lists := lists - {sessionKey};
    }

    /** The ingest route's use of the buffer: add, and drain when told that the batch is full. */
    method Submit(sessionKey: string, messages: seq<Message>, effectiveBatchSize: Option<nat>) returns (delivered: seq<Message>)
      modifies this
      ensures var size := if effectiveBatchSize.Some? then effectiveBatchSize.value else batchSize;
              Caller(Buffered(sessionKey), delivered) == Call(Caller(old(Buffered(sessionKey)), []), messages, size)
      ensures forall k :: k != sessionKey ==> Buffered(k) == old(Buffered(k))
    {
      var ready := AddMessages(sessionKey, messages, effectiveBatchSize);
      delivered := [];
      if ready {
        delivered := Flush(sessionKey);
      }
    }
  }

  function Added(buffer: seq<Message>, messages: seq<Message>, size: nat): seq<Message> {
    LastN(buffer + messages, size * 3)
  }

  // ----- any interleaving of adds and drains -----

  datatype Step = Add(messages: seq<Message>, size: nat) | Drain

  /** What one drain returned, and everything pushed since the drain before it. */
  datatype Delivery = Delivery(returned: seq<Message>, since: seq<Message>)

  datatype Trace = Trace(buffer: seq<Message>, since: seq<Message>, deliveries: seq<Delivery>)

  function Do(t: Trace, s: Step): Trace {
    match s
    case Add(ms, size) => Trace(Added(t.buffer, ms, size), t.since + ms, t.deliveries)
    case Drain => Trace([], [], t.deliveries + [Delivery(t.buffer, t.since)])
  }

  function Run(steps: seq<Step>): Trace {
    if steps == [] then Trace([], [], []) else Do(Run(steps[..|steps| - 1]), steps[|steps| - 1])
  }

  function Pushed(steps: seq<Step>): seq<Message> {
    if steps == [] then []
    else Pushed(steps[..|steps| - 1]) + match steps[|steps| - 1] { case Add(ms, _) => ms case Drain => [] }
  }

  predicate IsSuffix(xs: seq<Message>, ys: seq<Message>) {
    |xs| <= |ys| && ys[|ys| - |xs|..] == xs
  }

  function Segments(ds: seq<Delivery>): seq<Message> {
    if ds == [] then [] else Segments(ds[..|ds| - 1]) + ds[|ds| - 1].since
  }

  lemma LastNSuffix(buffer: seq<Message>, since: seq<Message>, ms: seq<Message>, n: nat)
    requires IsSuffix(buffer, since)
    ensures IsSuffix(LastN(buffer + ms, n), since + ms)
  {
    var b, s := buffer + ms, since + ms;
    assert s[|s| - |b|..] == b;
    var r := LastN(b, n);
    assert r == b[|b| - |r|..] == s[|s| - |r|..];
  }

  /** The pushes are cut into one segment per drain plus the open one; each drain returns the end of
      its own segment. So no message is returned twice, and order is kept. */
  lemma {:induction false} Conservation(steps: seq<Step>)
    ensures Segments(Run(steps).deliveries) + Run(steps).since == Pushed(steps)
    ensures forall i :: 0 <= i < |Run(steps).deliveries| ==>
              IsSuffix(Run(steps).deliveries[i].returned, Run(steps).deliveries[i].since)
    ensures IsSuffix(Run(steps).buffer, Run(steps).since)
  {
    if steps != [] {
      var t, s := Run(steps[..|steps| - 1]), steps[|steps| - 1];
      Conservation(steps[..|steps| - 1]);
      match s {
        case Add(ms, size) => LastNSuffix(t.buffer, t.since, ms, size * 3);
        case Drain => assert (t.deliveries + [Delivery(t.buffer, t.since)])[..|t.deliveries|] == t.deliveries;
      }
    }
  }

  predicate AllOfSize(steps: seq<Step>, size: nat) {
    forall i :: 0 <= i < |steps| && steps[i].Add? ==> steps[i].size == size
  }

  /** With one batch size throughout, a drain returns exactly the last 3B messages of its segment. */
  lemma {:induction false} BufferIsTail(steps: seq<Step>, size: nat)
    requires size > 0 && AllOfSize(steps, size)
    ensures Run(steps).buffer == LastN(Run(steps).since, 3 * size)
    ensures forall i :: 0 <= i < |Run(steps).deliveries| ==>
              Run(steps).deliveries[i].returned == LastN(Run(steps).deliveries[i].since, 3 * size)
  {
    if steps != [] {
      var t := Run(steps[..|steps| - 1]);
      BufferIsTail(steps[..|steps| - 1], size);
      var s := steps[|steps| - 1];
      if s.Add? {
        assert s.size == size;
        LastNTwice(t.since, s.messages, 3 * size);
      }
    }
  }

  // ----- a caller that drains when told -----

  datatype Caller = Caller(buffer: seq<Message>, delivered: seq<Message>)

  function Call(c: Caller, messages: seq<Message>, size: nat): Caller {
    var after := Added(c.buffer, messages, size);
    if |after| >= size then Caller([], c.delivered + after) else Caller(after, c.delivered)
  }

  function Calls(batches: seq<seq<Message>>, size: nat): Caller {
    if batches == [] then Caller([], []) else Call(Calls(batches[..|batches| - 1], size), batches[|batches| - 1], size)
  }

  function Concat(batches: seq<seq<Message>>): seq<Message> {
    if batches == [] then [] else Concat(batches[..|batches| - 1]) + batches[|batches| - 1]
  }

  ghost predicate AtMost(batches: seq<seq<Message>>, limit: nat) {
    forall i :: 0 <= i < |batches| ==> |batches[i]| <= limit
  }

  /** Everything submitted is delivered or still buffered, in order. */
  predicate Lossless(batches: seq<seq<Message>>, size: nat) {
    Calls(batches, size).delivered + Calls(batches, size).buffer == Concat(batches)
  }

  lemma {:induction false} SmallCallsLoseNothing(batches: seq<seq<Message>>, size: nat)
    requires size > 0 && AtMost(batches, 2 * size + 1)
    ensures Lossless(batches, size) && |Calls(batches, size).buffer| < size
  {
    if batches != [] {
      var n := |batches| - 1;
      assert AtMost(batches[..n], 2 * size + 1) && |batches[n]| <= 2 * size + 1;
      SmallCallsLoseNothing(batches[..n], size);
      SmallCallLosesNothing(Calls(batches[..n], size), batches[n], size);
    }
  }

  lemma SmallCallLosesNothing(c: Caller, batch: seq<Message>, size: nat)
    requires size > 0 && |c.buffer| < size && |batch| <= 2 * size + 1
    ensures var d := Call(c, batch, size);
            d.delivered + d.buffer == c.delivered + c.buffer + batch && |d.buffer| < size
  {
    assert |c.buffer + batch| <= 3 * size;
    assert c.delivered + (c.buffer + batch) == c.delivered + c.buffer + batch;
  }

  function Repeat(m: Message, n: nat): seq<Message> { seq(n, _ => m) }

  /** A call of 2B + 2 messages on a buffer of B - 1 pushes the oldest one out. */
  lemma LargeCallLoses(size: nat)
    requires size > 0
    ensures AtMost([Repeat("a", size - 1), Repeat("b", 2 * size + 2)], 2 * size + 2)
    ensures !Lossless([Repeat("a", size - 1), Repeat("b", 2 * size + 2)], size)
  {
    var b1, b2 := Repeat("a", size - 1), Repeat("b", 2 * size + 2);
    var batches := [b1, b2];
    assert batches[..1] == [b1] && [b1][..0] == [];
    assert Concat([b1]) == b1 && Concat(batches) == b1 + b2;
    assert Calls([], size) == Caller([], []);
    assert [] + b1 == b1;
    assert Calls([b1], size) == Caller(b1, []);
    assert |b1 + b2| == 3 * size + 1;
    assert |Added(b1, b2, size)| == 3 * size;
    assert Calls(batches, size) == Caller([], [] + Added(b1, b2, size));
  }

  /** The no-loss bound is sharp: 2B + 1 messages a call, and no more. */
  lemma SharpBound(size: nat, limit: nat)
    requires size > 0
    ensures (forall batches :: AtMost(batches, limit) ==> Lossless(batches, size)) <==> limit <= 2 * size + 1
  {
    if limit <= 2 * size + 1 {
      forall batches | AtMost(batches, limit) ensures Lossless(batches, size) {
        SmallCallsLoseNothing(batches, size);
      }
    } else {
      LargeCallLoses(size);
      var bad := [Repeat("a", size - 1), Repeat("b", 2 * size + 2)];
      assert AtMost(bad, limit);
    }
  }
}
