/**
  The delivery policy of the acquisition loop, as values: each new reading is
  appended to the buffer, the buffer is sent from the front, and the first
  failed send puts its reading back at the front and ends the cycle.
 */
module Delivery {
  import opened Telemetry

  /** The sink's answers during one cycle: attempt `i` of the cycle succeeds iff `sink(i)`. */
  type SinkOutcomes = nat -> bool

  /** The number of consecutive successful attempts from attempt `i`, out of at most `n`. */
  function AckedFrom(n: nat, sink: SinkOutcomes, i: nat): (k: nat)
    requires i <= n
    decreases n - i
    ensures i <= k <= n
    ensures forall j :: i <= j < k ==> sink(j)
    ensures k < n ==> !sink(k)
  {
    if i == n || !sink(i) then i else AckedFrom(n, sink, i + 1)
  }

  /** The contract of `AckedFrom` pins its result down: any count with that property is it. */
  lemma AckedFromAt(n: nat, sink: SinkOutcomes, i: nat, k: nat)
    requires i <= k <= n
    requires forall j :: i <= j < k ==> sink(j)
    requires k < n ==> !sink(k)
    ensures AckedFrom(n, sink, i) == k
  {
  }

  /**
    One drain: the readings handed to the sink (the last one failed when a
    reading remains), the readings it accepted, and the buffer afterwards.
   */
  datatype DrainOutcome = DrainOutcome(sent: seq<Measurements>, delivered: seq<Measurements>, remaining: seq<Measurements>)

  /**
    The drain contract: the accepted readings followed by the remaining
    buffer are the buffer before, every accepted one was acknowledged, a
    non-empty remainder means its head was just refused, and nothing behind
    that head was sent.
   */
  predicate DrainedBy(pending: seq<Measurements>, sink: SinkOutcomes, o: DrainOutcome) {
    o.delivered + o.remaining == pending &&
    (forall i :: 0 <= i < |o.delivered| ==> sink(i)) &&
    (o.remaining != [] ==> !sink(|o.delivered|)) &&
    o.sent == o.delivered + (if o.remaining == [] then [] else [o.remaining[0]])
  }

  function Drain(pending: seq<Measurements>, sink: SinkOutcomes): (o: DrainOutcome)
    ensures DrainedBy(pending, sink, o)
  {
    var k := AckedFrom(|pending|, sink, 0);
    assert pending[..k] + pending[k..] == pending;
    DrainOutcome(pending[..k] + (if k < |pending| then [pending[k]] else []), pending[..k], pending[k..])
  }

  /** The drain contract leaves no freedom: it has exactly one outcome. */
  lemma DrainedByDetermines(pending: seq<Measurements>, sink: SinkOutcomes, o: DrainOutcome)
    requires DrainedBy(pending, sink, o)
    ensures o == Drain(pending, sink)
  {
    var k := |o.delivered|;
    assert o.delivered == pending[..k] && o.remaining == pending[k..];
    AckedFromAt(|pending|, sink, 0, k);
  }

  /** A sink that takes every attempt empties the buffer, in order. */
  lemma DrainAllAccepted(pending: seq<Measurements>, sink: SinkOutcomes)
    requires forall i :: 0 <= i < |pending| ==> sink(i)
    ensures Drain(pending, sink) == DrainOutcome(pending, pending, [])
  {
    AckedFromAt(|pending|, sink, 0, |pending|);
    assert pending[..|pending|] == pending;
  }

  /** When the `k`-th send is the first refused, readings `0..k` are sent, `0..k-1` delivered, and `k..` stay queued. */
  lemma DrainStopsAtFirstFailure(pending: seq<Measurements>, sink: SinkOutcomes, k: nat)
    requires k < |pending|
    requires forall i :: 0 <= i < k ==> sink(i)
    requires !sink(k)
    ensures Drain(pending, sink) == DrainOutcome(pending[..k + 1], pending[..k], pending[k..])
  {
    AckedFromAt(|pending|, sink, 0, k);
    assert pending[..k] + [pending[k]] == pending[..k + 1];
  }

  /** The loop's state between cycles: the shared snapshot and the retry buffer. */
  datatype LoopState = LoopState(snapshot: Measurements, buffer: seq<Measurements>)

  /** One cycle's inputs: the reading just extracted and the sink's answers. */
  datatype Cycle = Cycle(reading: Measurements, sink: SinkOutcomes)

  /** Before the first cycle: the zeroed snapshot and an empty buffer. */
  function Initial(now: Timestamp): (s: LoopState)
    ensures s.buffer == []
    ensures s.snapshot.time == now
    ensures forall k :: 0 <= k < ChannelCount ==> s.snapshot.channels[k] == PositiveZero
  {
    var z := Zeroed(now);
    assert forall k :: 0 <= k < ChannelCount ==> NamedChannels(z)[Schema[k]] == z.channels[k];
    LoopState(z, [])
  }

  /** A sink that takes every attempt. */
  ghost predicate AcceptsAll(sink: SinkOutcomes) {
    forall i :: sink(i)
  }

  /** The drain of one cycle: the new reading is appended first. */
  function CycleDrain(s: LoopState, c: Cycle): DrainOutcome {
    Drain(s.buffer + [c.reading], c.sink)
  }

  /** The state after one cycle: the snapshot is the new reading, whatever the sink answered. */
  function AfterCycle(s: LoopState, c: Cycle): LoopState {
    LoopState(c.reading, CycleDrain(s, c).remaining)
  }

  function Run(s: LoopState, cycles: seq<Cycle>): LoopState
    decreases |cycles|
  {
    if cycles == [] then s else Run(AfterCycle(s, cycles[0]), cycles[1..])
  }

  /** Everything the sink accepted over the cycles, in order of acceptance. */
  function DeliveredOver(s: LoopState, cycles: seq<Cycle>): seq<Measurements>
    decreases |cycles|
  {
    if cycles == [] then [] else CycleDrain(s, cycles[0]).delivered + DeliveredOver(AfterCycle(s, cycles[0]), cycles[1..])
  }

  /** The readings of the cycles, in capture order. */
  function Captured(cycles: seq<Cycle>): (r: seq<Measurements>)
    ensures |r| == |cycles|
    ensures forall i :: 0 <= i < |cycles| ==> r[i] == cycles[i].reading
  {
    if cycles == [] then [] else [cycles[0].reading] + Captured(cycles[1..])
  }

  /** No loss, no duplication, no reordering: accepted readings then the buffer are the old buffer then the captures. */
  lemma {:induction false} RunConserves(s: LoopState, cycles: seq<Cycle>)
    decreases |cycles|
    ensures DeliveredOver(s, cycles) + Run(s, cycles).buffer == s.buffer + Captured(cycles)
  {
    if cycles != [] {
      var c, rest := cycles[0], cycles[1..];
      var s' := AfterCycle(s, c);
      RunConserves(s', rest);
      var d := CycleDrain(s, c).delivered;
      var later, final := DeliveredOver(s', rest), Run(s', rest).buffer;
      assert d + s'.buffer == s.buffer + [c.reading];
      assert DeliveredOver(s, cycles) == d + later;
      assert Run(s, cycles).buffer == final;
      assert Captured(cycles) == [c.reading] + Captured(rest);
      assert later + final == s'.buffer + Captured(rest);
      ConcatAssociative(d, later, final);
      ConcatAssociative(d, s'.buffer, Captured(rest));
      ConcatAssociative(s.buffer, [c.reading], Captured(rest));
    }
  }

  /** Proof helper for `RunConserves`: regrouping a concatenation of three sequences. */
  lemma ConcatAssociative<T>(a: seq<T>, b: seq<T>, c: seq<T>)
    ensures (a + b) + c == a + (b + c)
  {
  }

  /** The snapshot is the latest reading captured, independent of every sink answer. */
  lemma {:induction false} RunSnapshot(s: LoopState, cycles: seq<Cycle>)
    decreases |cycles|
    ensures Run(s, cycles).snapshot == if cycles == [] then s.snapshot else cycles[|cycles| - 1].reading
  {
    if cycles != [] {
      RunSnapshot(AfterCycle(s, cycles[0]), cycles[1..]);
    }
  }

  lemma {:induction false} RunSplit(s: LoopState, cycles: seq<Cycle>, c: Cycle)
    decreases |cycles|
    ensures Run(s, cycles + [c]) == AfterCycle(Run(s, cycles), c)
  {
    if cycles != [] {
      assert (cycles + [c])[1..] == cycles[1..] + [c];
      RunSplit(AfterCycle(s, cycles[0]), cycles[1..], c);
    }
  }

  /** Once a cycle's sink takes every attempt, every reading ever captured has been accepted, in capture order. */
  lemma RunDeliversAllOnHealthySink(s: LoopState, cycles: seq<Cycle>)
    requires cycles != []
    requires AcceptsAll(cycles[|cycles| - 1].sink)
    ensures Run(s, cycles).buffer == []
    ensures DeliveredOver(s, cycles) == s.buffer + Captured(cycles)
  {
    var n := |cycles| - 1;
    var c := cycles[n];
    assert cycles == cycles[..n] + [c];
    RunSplit(s, cycles[..n], c);
    var before := Run(s, cycles[..n]);
    DrainAllAccepted(before.buffer + [c.reading], c.sink);
    RunConserves(s, cycles);
  }

  /** A reading refused in one cycle is the first one sent in the next, before any newer reading. */
  lemma RetriedFirstNextCycle(s: LoopState, c1: Cycle, c2: Cycle)
    requires AfterCycle(s, c1).buffer != []
    ensures CycleDrain(s, c1).sent[|CycleDrain(s, c1).sent| - 1] == AfterCycle(s, c1).buffer[0]
    ensures !c1.sink(|CycleDrain(s, c1).sent| - 1)
    ensures CycleDrain(AfterCycle(s, c1), c2).sent != []
    ensures CycleDrain(AfterCycle(s, c1), c2).sent[0] == AfterCycle(s, c1).buffer[0]
  {
    var p := AfterCycle(s, c1).buffer + [c2.reading];
    var o := Drain(p, c2.sink);
    assert o.delivered + o.remaining == p;
    if o.delivered != [] {
      assert o.sent[0] == o.delivered[0] == p[0];
    } else {
      assert o.sent[0] == o.remaining[0] == p[0];
    }
  }

  /**
    Three readings, the sink refusing only the second attempt overall: the
    second reading is retried in the third cycle ahead of the third reading,
    and all three arrive in order.
   */
  lemma ThreeCycleRetryScenario(now: Timestamp, r1: Measurements, r2: Measurements, r3: Measurements, healthy: SinkOutcomes, flaky: SinkOutcomes)
    requires AcceptsAll(healthy) && !flaky(0)
    ensures var cycles := [Cycle(r1, healthy), Cycle(r2, flaky), Cycle(r3, healthy)];
      Run(Initial(now), cycles[..1]) == LoopState(r1, []) &&
      Run(Initial(now), cycles[..2]) == LoopState(r2, [r2]) &&
      Run(Initial(now), cycles) == LoopState(r3, []) &&
      DeliveredOver(Initial(now), cycles) == [r1, r2, r3]
  {
    var c1, c2, c3 := Cycle(r1, healthy), Cycle(r2, flaky), Cycle(r3, healthy);
    var s0 := Initial(now);
    DrainAllAccepted([r1], healthy);
    assert s0.buffer + [r1] == [r1];
    var s1 := AfterCycle(s0, c1);
    assert s1 == LoopState(r1, []);
    DrainStopsAtFirstFailure([r2], flaky, 0);
    assert s1.buffer + [r2] == [r2];
    var s2 := AfterCycle(s1, c2);
    assert s2 == LoopState(r2, [r2]);
    DrainAllAccepted([r2, r3], healthy);
    assert s2.buffer + [r3] == [r2, r3];
    var s3 := AfterCycle(s2, c3);
    assert s3 == LoopState(r3, []);
    var cycles := [c1, c2, c3];
    assert cycles[1..] == [c2, c3] && cycles[1..][1..] == [c3] && [c3][1..] == [];
    assert cycles[..1] == [c1] && [c1][1..] == [];
    assert cycles[..2] == [c1, c2] && [c1, c2][1..] == [c2] && [c2][1..] == [];
    assert Run(s0, cycles[..1]) == s1;
    assert Run(s0, cycles[..2]) == Run(s1, [c2]) == s2;
    assert Run(s0, cycles) == Run(s1, [c2, c3]) == Run(s2, [c3]) == s3;
    assert DeliveredOver(s2, [c3]) == [r2, r3];
    assert DeliveredOver(s1, [c2, c3]) == [r2, r3];
    assert DeliveredOver(s0, cycles) == [r1] + [r2, r3];
  }
}
