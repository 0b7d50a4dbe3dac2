/**
  The acquisition loop of `main`: read a reading, publish it to the shared
  snapshot, append it to the retry buffer, and drain the buffer into the sink.
 */
module Gateway {
  import opened Wrappers
  import opened Telemetry
  import opened Frames
  import opened Extraction
  import opened Delivery

  class AcquisitionLoop {
    /** The latest reading, shared with the query service. */
    var snapshot: Measurements
    /** Readings captured but not yet accepted by the sink, oldest first. */
    var buffer: seq<Measurements>

    function State(): LoopState
      reads this
    {
      LoopState(snapshot, buffer)
    }

    /** Before the first reading the snapshot is the zeroed reading and the buffer is empty. */
    constructor (now: Timestamp)
      ensures State() == Initial(now)
    {
      snapshot := Zeroed(now);
      buffer := [];
    }

    /** `push_back`: the new reading goes behind every older one. */
    method Enqueue(m: Measurements)
      modifies this
      ensures buffer == old(buffer) + [m]
      ensures snapshot == old(snapshot)
    {
      buffer := buffer + [m];
    }

    /**
      The `while let` drain: pop the front reading and send it; on a refusal
      push it back to the front and stop.
     */
    method Deliver(sink: SinkOutcomes) returns (sent: seq<Measurements>, delivered: seq<Measurements>)
      modifies this
      ensures DrainOutcome(sent, delivered, buffer) == Drain(old(buffer), sink)
      ensures snapshot == old(snapshot)
    {
      sent, delivered := [], [];
      while buffer != []
        invariant delivered + buffer == old(buffer)
        invariant sent == delivered
        invariant forall i :: 0 <= i < |delivered| ==> sink(i)
        invariant snapshot == old(snapshot)
        decreases |buffer|
      {
        var m := buffer[0];
        ghost var before := buffer;
        buffer := buffer[1..];
        assert before == [m] + buffer;
        sent := sent + [m];
        if !sink(|sent| - 1) {
          buffer := [m] + buffer;
          assert buffer == before;
          break;
        }
        assert (delivered + [m]) + buffer == delivered + before;
        delivered := delivered + [m];
      }
      ghost var o := DrainOutcome(sent, delivered, buffer);
      assert DrainedBy(old(buffer), sink, o);
      DrainedByDetermines(old(buffer), sink, o);
    }

    /** The loop body after a successful read: overwrite the snapshot, enqueue, drain. */
    method RunCycle(m: Measurements, sink: SinkOutcomes) returns (sent: seq<Measurements>, delivered: seq<Measurements>)
      modifies this
      ensures State() == AfterCycle(old(State()), Cycle(m, sink))
      ensures DrainOutcome(sent, delivered, buffer) == CycleDrain(old(State()), Cycle(m, sink))
      ensures snapshot == m
    {
      snapshot := m;
      Enqueue(m);
      sent, delivered := Deliver(sink);
    }

    /**
      One iteration of the loop: `read_data` on the reader's events, then the
      cycle. A failed read is returned as fatal and leaves the snapshot and
      the buffer as they were.
     */
    method Iterate(events: seq<ReadEvent>, fieldsOf: seq<Frame> -> seq<FieldValue>, now: Timestamp, sink: SinkOutcomes)
      returns (fatal: Option<ReadError>, rest: seq<ReadEvent>, sent: seq<Measurements>, delivered: seq<Measurements>)
      modifies this
      ensures rest == Scan(events).rest
      ensures ReadDataResult(events, fieldsOf, now).Err? ==>
        fatal == Some(ReadDataResult(events, fieldsOf, now).error) && State() == old(State()) && sent == []
      ensures ReadDataResult(events, fieldsOf, now).Ok? ==>
        var c := Cycle(ReadDataResult(events, fieldsOf, now).value, sink);
        fatal == None && State() == AfterCycle(old(State()), c) &&
        DrainOutcome(sent, delivered, buffer) == CycleDrain(old(State()), c)
    {
      var r;
      r, rest := ReadData(events, fieldsOf, now);
      if r.Err? {
        return Some(r.error), rest, [], [];
      }
      sent, delivered := RunCycle(r.value, sink);
      fatal := None;
    }
  }
}
