/**
  The terminal-frame scan at the start of `read_data`: frames are read until
  the first telemetry packet addressed to the gateway, which alone makes up the
  data set.
 */
module Frames {
  import opened Machine
  import opened Wrappers
  import opened Link

  /** The command of the controller's broadcast telemetry packet. */
  const TelemetryCommand: u16 := 0x0100

  /** The gateway's own bus address. */
  const GatewayAddress: u16 := 0x0010

  datatype Header = Header(destinationAddress: u16, sourceAddress: u16, protocolVersion: u8)

  /** A decoded bus frame (`resol_vbus::Data`). */
  datatype Frame =
    | Packet(header: Header, command: u16, frameData: seq<u8>)
    | Datagram(header: Header, command: u16)
    | Telegram(header: Header, telegramCommand: u8)

  /** One call of the live reader: a frame or an I/O failure. The end of the sequence is the reader's `None`. */
  datatype ReadEvent = Received(frame: Frame) | Failed(error: IoError)

  /** The match guard of the scan loop. */
  predicate IsTerminal(f: Frame) {
    f.Packet? && f.command == TelemetryCommand && f.header.destinationAddress == GatewayAddress
  }

  /** A read that ends the scan: a failure (propagated by `?`) or the terminal frame. */
  predicate EndsScan(e: ReadEvent) {
    e.Failed? || IsTerminal(e.frame)
  }

  /** The position of the first read that ends the scan, or the length when the reader runs dry first. */
  function FirstStop(events: seq<ReadEvent>): (k: nat)
    ensures k <= |events|
    ensures forall i :: 0 <= i < k ==> !EndsScan(events[i])
    ensures k < |events| ==> EndsScan(events[k])
  {
    if events == [] || EndsScan(events[0]) then 0 else 1 + FirstStop(events[1..])
  }

  /** What the scan leaves behind: the data set or the read error, and the reads not yet consumed. */
  datatype ScanResult = ScanResult(dataset: Result<seq<Frame>, IoError>, rest: seq<ReadEvent>)

  /** The scan's outcome, read off the first read that ends it. */
  function Scan(events: seq<ReadEvent>): ScanResult {
    var k := FirstStop(events);
    if k == |events| then ScanResult(Ok([]), [])
    else match events[k]
      case Failed(e) => ScanResult(Err(e), events[k + 1..])
      case Received(f) => ScanResult(Ok([f]), events[k + 1..])
  }

  /** The scan loop: non-terminal frames are dropped, the terminal packet is added and ends the loop. */
  method ScanForTerminal(events: seq<ReadEvent>) returns (dataset: Result<seq<Frame>, IoError>, rest: seq<ReadEvent>)
    ensures ScanResult(dataset, rest) == Scan(events)
  {
    var frames: seq<Frame> := [];
    var pos := 0;
    while pos < |events|
      invariant pos <= FirstStop(events)
      invariant frames == []
      decreases |events| - pos
    {
      var e := events[pos];
      pos := pos + 1;
      match e
      case Failed(err) =>
        assert pos - 1 == FirstStop(events);
        return Err(err), events[pos..];
      case Received(f) =>
        if IsTerminal(f) {
          assert pos - 1 == FirstStop(events);
          frames := frames + [f];
          break;
        }
    }
    assert frames != [] ==> pos - 1 == FirstStop(events) && events[pos - 1] == Received(frames[0]) && frames == [frames[0]];
    assert frames == [] ==> pos == |events| == FirstStop(events);
    dataset, rest := Ok(frames), events[pos..];
  }

  /** The data set holds at most the terminal packet; no other frame is ever added to it. */
  lemma ScanKeepsOnlyTerminal(events: seq<ReadEvent>)
    ensures Scan(events).dataset.Ok? ==>
      |Scan(events).dataset.value| <= 1 &&
      forall f :: f in Scan(events).dataset.value ==> IsTerminal(f)
  {
  }

  /** Once the reads before `n` are known not to end the scan and read `n` does, the scan stops at `n`. */
  lemma FirstStopAt(events: seq<ReadEvent>, n: nat)
    requires n < |events| && EndsScan(events[n])
    requires forall i :: 0 <= i < n ==> !EndsScan(events[i])
    ensures FirstStop(events) == n
  {
  }

  /** A terminal packet after any run of other frames is the whole data set; later reads are left unread. */
  lemma ScanFindsTerminal(events: seq<ReadEvent>, n: nat)
    requires n < |events| && events[n].Received? && IsTerminal(events[n].frame)
    requires forall i :: 0 <= i < n ==> events[i].Received? && !IsTerminal(events[i].frame)
    ensures Scan(events) == ScanResult(Ok([events[n].frame]), events[n + 1..])
  {
    FirstStopAt(events, n);
  }

  /** When the reader runs dry before a terminal packet, the data set is empty and nothing is left to read. */
  lemma ScanRunsDry(events: seq<ReadEvent>)
    requires forall i :: 0 <= i < |events| ==> events[i].Received? && !IsTerminal(events[i].frame)
    ensures Scan(events) == ScanResult(Ok([]), [])
  {
  }

  /** A read failure before the terminal packet is the scan's error; the frames before it are lost. */
  lemma ScanFails(events: seq<ReadEvent>, n: nat)
    requires n < |events| && events[n].Failed?
    requires forall i :: 0 <= i < n ==> events[i].Received? && !IsTerminal(events[i].frame)
    ensures Scan(events) == ScanResult(Err(events[n].error), events[n + 1..])
  {
    FirstStopAt(events, n);
  }
}
