/**
  The channel extraction of `read_data`: 22 values are taken from the decoder's
  field iterator in schema order, and the first missing or non-numeric one
  aborts the whole reading.
 */
module Extraction {
  import opened Wrappers
  import opened Telemetry
  import opened Link
  import opened Frames

  /** A decoded field: its raw value converts to `f64` or it does not. */
  datatype FieldValue = Numeric(value: F64Bits) | NonNumeric

  datatype FailureReason =
    | NotSet          // the iterator was exhausted at this channel
    | NotConvertible  // the field's value cannot be converted to `f64`

  /** The error of an extraction: the failing channel's name and why it failed. */
  datatype ExtractError = ExtractError(channel: string, reason: FailureReason)

  /** The errors `read_data` returns. */
  datatype ReadError = LinkFailure(io: IoError) | ChannelFailure(extract: ExtractError)

  predicate ChannelPresent(fields: seq<FieldValue>, k: nat) {
    k < |fields| && fields[k].Numeric?
  }

  /** The first schema position whose field is missing or non-numeric; `ChannelCount` when there is none. */
  function FirstFailure(fields: seq<FieldValue>): (j: nat)
    ensures j <= ChannelCount
    ensures forall k :: 0 <= k < j ==> ChannelPresent(fields, k)
    ensures j < ChannelCount ==> !ChannelPresent(fields, j)
  {
    FirstFailureFrom(fields, 0)
  }

  function FirstFailureFrom(fields: seq<FieldValue>, i: nat): (j: nat)
    requires i <= ChannelCount
    requires forall k :: 0 <= k < i ==> ChannelPresent(fields, k)
    decreases ChannelCount - i
    ensures i <= j <= ChannelCount
    ensures forall k :: 0 <= k < j ==> ChannelPresent(fields, k)
    ensures j < ChannelCount ==> !ChannelPresent(fields, j)
  {
    if i == ChannelCount || !ChannelPresent(fields, i) then i else FirstFailureFrom(fields, i + 1)
  }

  /** Once the channels before `j` are known present and channel `j` is not (or `j` is past the schema), the scan from `i` stops at `j`. */
  lemma FirstFailureFromAt(fields: seq<FieldValue>, i: nat, j: nat)
    requires i <= j <= ChannelCount
    requires forall k :: 0 <= k < j ==> ChannelPresent(fields, k)
    requires j < ChannelCount ==> !ChannelPresent(fields, j)
    ensures FirstFailureFrom(fields, i) == j
  {
  }

  /** The values of fields that are all numeric, in order. */
  function Values(fields: seq<FieldValue>): (vs: seq<F64Bits>)
    requires forall k :: 0 <= k < |fields| ==> fields[k].Numeric?
    ensures |vs| == |fields|
    ensures forall k :: 0 <= k < |fields| ==> vs[k] == fields[k].value
  {
    if fields == [] then [] else Values(fields[..|fields| - 1]) + [fields[|fields| - 1].value]
  }

  /** The outcome of extracting a reading stamped `now` from the decoder's fields. */
  function Extracted(fields: seq<FieldValue>, now: Timestamp): (r: Result<Measurements, ExtractError>)
    ensures r.Ok? <==> |fields| >= ChannelCount && forall k :: 0 <= k < ChannelCount ==> fields[k].Numeric?
    ensures r.Ok? ==> r.value.time == now
    ensures r.Ok? ==> forall k :: 0 <= k < ChannelCount ==> r.value.channels[k] == fields[k].value
    ensures r.Err? ==> FirstFailure(fields) < ChannelCount && r.error.channel == Schema[FirstFailure(fields)]
    ensures r.Err? ==> (r.error.reason == NotSet <==> |fields| <= FirstFailure(fields))
  {
    var j := FirstFailure(fields);
    if j == ChannelCount then
      assert ChannelPresent(fields, ChannelCount - 1);
      assert forall k :: 0 <= k < ChannelCount ==> fields[..ChannelCount][k].Numeric? by {
        forall k | 0 <= k < ChannelCount ensures fields[..ChannelCount][k].Numeric? {
          assert ChannelPresent(fields, k);
        }
      }
      Ok(Measurements(now, Values(fields[..ChannelCount])))
    else
      Err(ExtractError(Schema[j], if j < |fields| then NotConvertible else NotSet))
  }

  /** The error names the channel at the first failing position, with the reason found there. */
  lemma ExtractedFailsAtFirstBadChannel(fields: seq<FieldValue>, now: Timestamp, j: nat)
    requires j < ChannelCount
    requires forall k :: 0 <= k < j ==> ChannelPresent(fields, k)
    requires !ChannelPresent(fields, j)
    ensures Extracted(fields, now) == Err(ExtractError(Schema[j], if j < |fields| then NotConvertible else NotSet))
  {
    FirstFailureFromAt(fields, 0, j);
  }

  /** Fields past the 22nd are never consulted. */
  lemma ExtractedIgnoresExtraFields(fields: seq<FieldValue>, extra: seq<FieldValue>, now: Timestamp)
    requires |fields| == ChannelCount
    ensures Extracted(fields + extra, now) == Extracted(fields, now)
  {
    var all := fields + extra;
    assert forall k :: 0 <= k < ChannelCount ==> all[k] == fields[k];
    var r1, r2 := Extracted(all, now), Extracted(fields, now);
    if r1.Ok? {
      assert r1.value.channels == r2.value.channels;
    } else {
      var j := FirstFailure(fields);
      assert forall k :: 0 <= k < j ==> ChannelPresent(all, k) by {
        forall k | 0 <= k < j ensures ChannelPresent(all, k) {
          assert ChannelPresent(fields, k);
        }
      }
      FirstFailureFromAt(all, 0, j);
    }
  }

  /** The 22 calls of `fields.next()`, each converting its field with an early return on failure. */
  method ExtractChannels(fields: seq<FieldValue>, now: Timestamp) returns (r: Result<Measurements, ExtractError>)
    ensures r == Extracted(fields, now)
  {
    var values: seq<F64Bits> := [];
    var next := 0;
    while next < ChannelCount
      invariant next <= ChannelCount && next <= |fields|
      invariant forall k :: 0 <= k < next ==> ChannelPresent(fields, k)
      invariant forall k :: 0 <= k < next ==> fields[k].Numeric?
      invariant values == Values(fields[..next])
    {
      if next == |fields| {
        ExtractedFailsAtFirstBadChannel(fields, now, next);
        return Err(ExtractError(Schema[next], NotSet));
      }
      match fields[next]
      case NonNumeric =>
        ExtractedFailsAtFirstBadChannel(fields, now, next);
        return Err(ExtractError(Schema[next], NotConvertible));
      case Numeric(v) =>
        assert fields[..next + 1][..next] == fields[..next];
        values := values + [v];
        next := next + 1;
    }
    r := Ok(Measurements(now, values));
  }

  /** The outcome of `read_data` on the reader's events, with `fieldsOf` standing for the decoder's field resolution. */
  function ReadDataResult(events: seq<ReadEvent>, fieldsOf: seq<Frame> -> seq<FieldValue>, now: Timestamp): (r: Result<Measurements, ReadError>)
    ensures Scan(events).dataset.Err? ==> r == Err(LinkFailure(Scan(events).dataset.error))
    ensures r.Ok? ==> Scan(events).dataset.Ok? && Extracted(fieldsOf(Scan(events).dataset.value), now).Ok?
  {
    match Scan(events).dataset
    case Err(e) => Err(LinkFailure(e))
    case Ok(ds) =>
      match Extracted(fieldsOf(ds), now)
      case Ok(m) => Ok(m)
      case Err(x) => Err(ChannelFailure(x))
  }

  /** `read_data`: the terminal scan, then the field extraction on the resulting data set. */
  method ReadData(events: seq<ReadEvent>, fieldsOf: seq<Frame> -> seq<FieldValue>, now: Timestamp)
    returns (r: Result<Measurements, ReadError>, rest: seq<ReadEvent>)
    ensures r == ReadDataResult(events, fieldsOf, now)
    ensures rest == Scan(events).rest
  {
    var dataset;
    dataset, rest := ScanForTerminal(events);
    if dataset.Err? {
      return Err(LinkFailure(dataset.error)), rest;
    }
    var x := ExtractChannels(fieldsOf(dataset.value), now);
    if x.Err? {
      return Err(ChannelFailure(x.error)), rest;
    }
    r := Ok(x.value);
  }

  /**
    A terminal packet after other frames, whose decoded fields start with 22
    numeric values, yields the reading of those values in schema order.
   */
  lemma ReadDataOnTerminalPacket(events: seq<ReadEvent>, n: nat, fieldsOf: seq<Frame> -> seq<FieldValue>, now: Timestamp)
    requires n < |events| && events[n].Received? && IsTerminal(events[n].frame)
    requires forall i :: 0 <= i < n ==> events[i].Received? && !IsTerminal(events[i].frame)
    requires |fieldsOf([events[n].frame])| >= ChannelCount
    requires forall k :: 0 <= k < ChannelCount ==> fieldsOf([events[n].frame])[k].Numeric?
    ensures ReadDataResult(events, fieldsOf, now).Ok?
    ensures ReadDataResult(events, fieldsOf, now).value.time == now
    ensures forall k :: 0 <= k < ChannelCount ==>
      ReadDataResult(events, fieldsOf, now).value.channels[k] == fieldsOf([events[n].frame])[k].value
  {
    ScanFindsTerminal(events, n);
  }

  /**
    A terminal packet whose decoded fields fail at channel `j` (all earlier
    ones present and numeric) fails `read_data` naming channel `j` and why.
   */
  lemma ReadDataOnBadTerminalPacket(events: seq<ReadEvent>, n: nat, fieldsOf: seq<Frame> -> seq<FieldValue>, now: Timestamp, j: nat)
    requires n < |events| && events[n].Received? && IsTerminal(events[n].frame)
    requires forall i :: 0 <= i < n ==> events[i].Received? && !IsTerminal(events[i].frame)
    requires j < ChannelCount
    requires forall k :: 0 <= k < j ==> ChannelPresent(fieldsOf([events[n].frame]), k)
    requires !ChannelPresent(fieldsOf([events[n].frame]), j)
    ensures ReadDataResult(events, fieldsOf, now) ==
      Err(ChannelFailure(ExtractError(Schema[j], if j < |fieldsOf([events[n].frame])| then NotConvertible else NotSet)))
  {
    ScanFindsTerminal(events, n);
    ExtractedFailsAtFirstBadChannel(fieldsOf([events[n].frame]), now, j);
  }

  /** A reader that runs dry leaves an empty data set, and the reading is whatever its fields give. */
  lemma ReadDataOnExhaustedReader(events: seq<ReadEvent>, fieldsOf: seq<Frame> -> seq<FieldValue>, now: Timestamp)
    requires forall i :: 0 <= i < |events| ==> events[i].Received? && !IsTerminal(events[i].frame)
    ensures Extracted(fieldsOf([]), now).Ok? ==> ReadDataResult(events, fieldsOf, now) == Ok(Extracted(fieldsOf([]), now).value)
    ensures Extracted(fieldsOf([]), now).Err? ==> ReadDataResult(events, fieldsOf, now) == Err(ChannelFailure(Extracted(fieldsOf([]), now).error))
  {
    ScanRunsDry(events);
  }

  /** With no field at all, the reading fails on its first channel as not set. */
  lemma ExtractedFromNoFields(now: Timestamp)
    ensures Extracted([], now) == Err(ExtractError("temperature_01", NotSet))
  {
    ExtractedFailsAtFirstBadChannel([], now, 0);
  }
}
