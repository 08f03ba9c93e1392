/** Queue and ring together: what a flush shows of what was posted. */
module Telemetry {
  import opened RuleTypes
  import opened Sequences
  import opened EventRing
  import Q = EventQueue

  /** The bytes each call posted; an event carries none, and the sink skips it. */
  type Payloads = map<Q.PostId, Record>

  function PayloadOf(payloads: Payloads, p: Q.PostId): Record { if p in payloads then payloads[p] else [] }

  /** The records among the nodes, in order: what the sink appends when they are consumed. */
  function LogOf(payloads: Payloads, nodes: seq<Q.PostId>): (log: seq<Record>)
    ensures Loggable(log)
  {
    if |nodes| == 0 then []
    else
      var record := PayloadOf(payloads, nodes[|nodes| - 1]);
      LogOf(payloads, nodes[..|nodes| - 1]) + if Fits(record) then [record] else []
  }

  lemma {:induction false} LogOfAppend(payloads: Payloads, a: seq<Q.PostId>, b: seq<Q.PostId>)
    ensures LogOf(payloads, a + b) == LogOf(payloads, a) + LogOf(payloads, b)
  {
    if |b| == 0 {
      assert a + b == a;
    } else {
      LogOfAppend(payloads, a, b[..|b| - 1]);
      assert (a + b)[..|a + b| - 1] == a + b[..|b| - 1];
    }
  }

  /** The consumer's sink calls for a run of consumed nodes. */
  method SinkAll(ring: Ring, payloads: Payloads, nodes: seq<Q.PostId>)
    requires ring.Valid()
    modifies ring, ring.slots
    ensures ring.Valid() && ring.log == old(ring.log) + LogOf(payloads, nodes)
  {
    var i := 0;
    while i < |nodes|
      invariant 0 <= i <= |nodes|
      invariant ring.Valid() && ring.log == old(ring.log) + LogOf(payloads, nodes[..i])
    {
      assert nodes[..i + 1][..i] == nodes[..i];
      ring.Sink(PayloadOf(payloads, nodes[i]));
      i := i + 1;
    }
    assert nodes[..i] == nodes;
  }

  /** The ring's history against the links: consumed records first, the rest in hand or listed. */
  ghost predicate InLinkOrder(s: Q.State, payloads: Payloads) {
    && LogOf(payloads, s.linked) == LogOf(payloads, s.done) + LogOf(payloads, Q.HandSeq(s.hand) + s.list)
    && (s.stop.Done? ==> LogOf(payloads, s.done) == LogOf(payloads, s.linked))
  }

  lemma NodesInOrder(payloads: Payloads, linked: seq<Q.PostId>, done: seq<Q.PostId>, rest: seq<Q.PostId>)
    requires linked == done + rest
    ensures LogOf(payloads, linked) == LogOf(payloads, done) + LogOf(payloads, rest)
    ensures LogOf(payloads, done) <= LogOf(payloads, linked)
    ensures rest == [] ==> LogOf(payloads, done) == LogOf(payloads, linked)
  {
    LogOfAppend(payloads, done, rest);
  }

  lemma ListInLinkOrder(s: Q.State, payloads: Payloads)
    requires Q.ListOk(s) && (s.stop.Done? ==> s.list == [] && s.hand.Empty?)
    ensures InLinkOrder(s, payloads) && LogOf(payloads, s.done) <= LogOf(payloads, s.linked)
  {
    var hand := Q.HandSeq(s.hand);
    Regroup(s.done, hand, s.list);
    NodesInOrder(payloads, s.linked, s.done, hand + s.list);
  }

  /** On every schedule the ring's history is the records posted so far in the order they were linked,
      short of those still in hand or on the list; after a stop that succeeded, short of none. */
  lemma HistoryIsLinkOrder(s: Q.State, payloads: Payloads)
    requires Q.Reachable(s)
    ensures InLinkOrder(s, payloads)
  {
    Q.ReachableInv(s);
    ListInLinkOrder(s, payloads);
  }

  lemma FullFlush(log: seq<Record>, n: nat)
    requires Loggable(log) && n <= |log| && forall i :: 0 <= i < |log| ==> |log[i]| == PAYLOAD
    ensures Flatten(Shown(log, n, PAYLOAD)) == Flatten(log[|log| - n..])
  {
    FullRecordsExact(log, n, PAYLOAD);
    var want := Expected(log, n, PAYLOAD);
    forall i | 0 <= i < n ensures want[i] == log[|log| - n + i] {
      assert (log[|log| - n + i] + Zeros(PAYLOAD))[..PAYLOAD] == log[|log| - n + i];
    }
    assert want == log[|log| - n..];
  }

  /** What a flush of at most `max` records returns when nodes were consumed: the last records that
      were linked, in link order. */
  ghost predicate FlushIsLinkOrder(s: Q.State, payloads: Payloads, max: nat) {
    var log := LogOf(payloads, s.done);
    var n := Min(Min(|log|, RING), max);
    log <= LogOf(payloads, s.linked) && Flatten(Shown(log, n, PAYLOAD)) == Flatten(log[|log| - n..])
  }

  ghost predicate AllFill(payloads: Payloads) {
    forall p :: p in payloads && Fits(payloads[p]) ==> |payloads[p]| == PAYLOAD
  }

  lemma ListFlush(s: Q.State, payloads: Payloads, max: nat)
    requires Q.ListOk(s) && (s.stop.Done? ==> s.list == [] && s.hand.Empty?) && AllFill(payloads)
    ensures FlushIsLinkOrder(s, payloads, max)
  {
    ListInLinkOrder(s, payloads);
    FlushOfNodes(payloads, s.done, max);
  }

  /** End to end, for the records the classify path posts, which fill a row: the consumed records are
      the first ones linked, and a flush returns the last of them in the order they were linked. */
  lemma FlushShowsLinkOrder(s: Q.State, payloads: Payloads, max: nat)
    requires Q.Reachable(s) && AllFill(payloads)
    ensures FlushIsLinkOrder(s, payloads, max)
  {
    Q.ReachableInv(s);
    ListFlush(s, payloads, max);
  }

  lemma FlushOfNodes(payloads: Payloads, nodes: seq<Q.PostId>, max: nat)
    requires AllFill(payloads)
    ensures var log := LogOf(payloads, nodes);
      var n := Min(Min(|log|, RING), max);
      Flatten(Shown(log, n, PAYLOAD)) == Flatten(log[|log| - n..])
  {
    AllFull(payloads, nodes);
    var log := LogOf(payloads, nodes);
    FullFlush(log, Min(Min(|log|, RING), max));
  }

  lemma {:induction false} AllFull(payloads: Payloads, nodes: seq<Q.PostId>)
    requires AllFill(payloads)
    ensures forall i :: 0 <= i < |LogOf(payloads, nodes)| ==> |LogOf(payloads, nodes)[i]| == PAYLOAD
  {
    if |nodes| > 0 { AllFull(payloads, nodes[..|nodes| - 1]); }
  }

  // ---- a schedule with a ring behind it ----

  /** A step consumes the released node, or none. */
  lemma ConsumesOne(s: Q.State, e: Q.Event)
    ensures Q.Next(s, e).done == s.done
         || (s.hand.Released? && Q.Next(s, e).done == s.done + [s.hand.id])
  {
    if e.Post? { Q.PostLeavesDone(s, e.p, e.step); }
  }

  /** The sink call a step makes on the ring: the node's record when it is consumed; a drop in place
      passes a node without one, which the sink skips. */
  method SinkStep(ring: Ring, payloads: Payloads, s: Q.State, e: Q.Event) returns (t: Q.State)
    requires ring.Valid() && ring.log == LogOf(payloads, s.done)
    modifies ring, ring.slots
    ensures t == Q.Next(s, e)
    ensures ring.Valid() && ring.log == LogOf(payloads, t.done)
  {
    ConsumesOne(s, e);
    t := Q.Next(s, e);
    if t.done != s.done {
      assert t.done[..|t.done| - 1] == s.done;
      ring.Sink(PayloadOf(payloads, s.hand.id));
    } else if t.sinks != s.sinks {
      ring.Sink([]);
    }
  }

  /** The queue run with its ring: on every schedule the ring's history is the records of the nodes
      consumed, the first of those linked, in link order. */
  method Play(capacity: nat, es: seq<Q.Event>, payloads: Payloads) returns (ring: Ring, s: Q.State)
    ensures fresh(ring) && fresh(ring.slots) && ring.Valid()
    ensures s == Q.Exec(Q.Initial(capacity), es)
    ensures ring.log == LogOf(payloads, s.done) && InLinkOrder(s, payloads)
  {
    ring := new Ring();
    s := Q.Initial(capacity);
    var i := 0;
    while i < |es|
      invariant 0 <= i <= |es|
      invariant fresh(ring) && fresh(ring.slots) && ring.Valid()
      invariant s == Q.Exec(Q.Initial(capacity), es[..i]) && ring.log == LogOf(payloads, s.done)
    {
      Q.Then(Q.Initial(capacity), es[..i], es[i]);
      assert es[..i + 1] == es[..i] + [es[i]];
      s := SinkStep(ring, payloads, s, es[i]);
      i := i + 1;
    }
    assert es[..i] == es;
    HistoryIsLinkOrder(s, payloads);
  }

  method FlushOf(ring: Ring, log: seq<Record>, max: u32) returns (n: nat, out: seq<byte>)
    requires ring.Valid() && ring.log == log && Loggable(log)
    ensures n == Min(Min(|log|, RING), max) && out == Flatten(Shown(log, n, PAYLOAD))
  {
    n, out := ring.Flush(max, PAYLOAD);
  }

  /** And what a flush of that ring returns: the last of those records, byte for byte, in link order;
      after a stop that succeeded, the last of all that were linked. */
  method PlayAndFlush(capacity: nat, es: seq<Q.Event>, payloads: Payloads, max: u32)
    returns (s: Q.State, n: nat, out: seq<byte>)
    requires AllFill(payloads)
    ensures s == Q.Exec(Q.Initial(capacity), es)
    ensures var log := LogOf(payloads, s.done);
      && log <= LogOf(payloads, s.linked) && (s.stop.Done? ==> log == LogOf(payloads, s.linked))
      && n == Min(Min(|log|, RING), max) && out == Flatten(log[|log| - n..])
  {
    var ring;
    ring, s := Play(capacity, es, payloads);
    FlushShowsLinkOrder(s, payloads, max);
    n, out := FlushOf(ring, LogOf(payloads, s.done), max);
  }
}
