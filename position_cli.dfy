/**
 The position tool (`main.go`): it either lists every event's end position, or dumps the
 events that end at or after a start position, optionally stopping after the first one that
 ends past it.
 */
module PositionCli {
  import opened Results
  import opened GoStrings
  import opened Binlog

  /** The flags of the position tool. */
  datatype Flags = Flags(offset: int, logPosition: int, listPositions: bool, stopAtNext: bool)

  const NoStartMessage: string := "Error: Either offset or log position must be specified"

  /** `-offset` unless it is -1, then `-logPosition` unless it is -1, otherwise an error. */
  method StartPosition(offset: int, logPosition: int) returns (r: Result<int, string>)
    ensures offset != -1 ==> r == Ok(offset)
    ensures offset == -1 && logPosition != -1 ==> r == Ok(logPosition)
    ensures offset == -1 && logPosition == -1 ==> r == Err(NoStartMessage)
    ensures r.Ok? ==> r.value != -1
  {
    var startPosition := offset;
    if startPosition == -1 && logPosition != -1 {
      startPosition := logPosition;
    }
    if startPosition == -1 {
      return Err(NoStartMessage);
    }
    return Ok(startPosition);
  }

  /** The callback dumps the event: it ends at or after the start position. */
  predicate Dumped(e: Event, start: int) {
    e.logPos >= Uint32(start)
  }

  /** The callback returns its error after dumping the event. */
  predicate StopsAfter(e: Event, start: int, stopAtNext: bool) {
    Dumped(e, start) && stopAtNext && e.logPos > Uint32(start)
  }

  /** The index of the first event after which the parse stops, or the number of events. */
  function StopPoint(events: seq<Event>, start: int, stopAtNext: bool): (k: nat)
    ensures k <= |events|
    decreases |events|
  {
    if |events| == 0 then 0
    else if StopsAfter(events[0], start, stopAtNext) then 0
    else 1 + StopPoint(events[1..], start, stopAtNext)
  }

  /** The stop point is the first event the callback stops after. */
  lemma {:induction false} StopPointIsFirst(events: seq<Event>, start: int, stopAtNext: bool)
    ensures forall i :: 0 <= i < StopPoint(events, start, stopAtNext) ==> !StopsAfter(events[i], start, stopAtNext)
    ensures StopPoint(events, start, stopAtNext) < |events| ==>
      StopsAfter(events[StopPoint(events, start, stopAtNext)], start, stopAtNext)
    decreases |events|
  {
    if |events| > 0 && !StopsAfter(events[0], start, stopAtNext) {
      var rest := events[1..];
      StopPointIsFirst(rest, start, stopAtNext);
      assert forall i :: 0 < i < |events| ==> events[i] == rest[i - 1];
    }
  }

  /** Reaching event `i` without having stopped, the parse stops there exactly when the callback says so. */
  lemma StopPointAt(events: seq<Event>, start: int, stopAtNext: bool, i: nat)
    requires i <= StopPoint(events, start, stopAtNext) && i < |events|
    ensures StopPoint(events, start, stopAtNext) == i <==> StopsAfter(events[i], start, stopAtNext)
  {
    StopPointIsFirst(events, start, stopAtNext);
  }

  /** The events the callback sees: up to and including the one it stops after. */
  function Handled(events: seq<Event>, start: int, stopAtNext: bool): (r: seq<Event>)
    ensures r <= events
  {
    var k := StopPoint(events, start, stopAtNext);
    if k < |events| then events[..k + 1] else events
  }

  /** The events among these that the callback dumps, in order. */
  function DumpedEvents(events: seq<Event>, start: int): seq<Event>
    decreases |events|
  {
    if |events| == 0 then []
    else
      var init, e := events[..|events| - 1], events[|events| - 1];
      DumpedEvents(init, start) + if Dumped(e, start) then [e] else []
  }

  /** Only events ending at or after the start are dumped. */
  lemma {:induction false} DumpedOnly(events: seq<Event>, start: int)
    ensures forall e :: e in DumpedEvents(events, start) ==> e in events && e.logPos >= Uint32(start)
    decreases |events|
  {
    if |events| > 0 {
      DumpedOnly(events[..|events| - 1], start);
    }
  }

  /** Without `-stopAtNext` every delivered event is seen. */
  lemma {:induction false} NoStopWithout(events: seq<Event>, start: int)
    ensures StopPoint(events, start, false) == |events|
    ensures Handled(events, start, false) == events
    decreases |events|
  {
    if |events| > 0 {
      NoStopWithout(events[1..], start);
    }
  }

  /** With `-stopAtNext`, the last event dumped is the first one that ends past the start. */
  lemma StopsAtFirstPast(events: seq<Event>, start: int)
    requires StopPoint(events, start, true) < |events|
    ensures var k := StopPoint(events, start, true);
      events[k].logPos > Uint32(start) && forall i :: 0 <= i < k ==> events[i].logPos <= Uint32(start)
  {
    StopPointIsFirst(events, start, true);
  }

  /** Dumping one more event extends the dumped events by it, when the callback dumps it. */
  lemma DumpedOneMore(events: seq<Event>, start: int, i: nat)
    requires i < |events|
    ensures Dumped(events[i], start) ==> DumpedEvents(events[..i + 1], start) == DumpedEvents(events[..i], start) + [events[i]]
    ensures !Dumped(events[i], start) ==> DumpedEvents(events[..i + 1], start) == DumpedEvents(events[..i], start)
  {
    assert events[..i + 1][..i] == events[..i];
  }

  /** The error the callback returns to end the parse. */
  function StopMessage(start: int): string {
    "reached log position " + IntToString(start)
  }

  /** The one error text the program keeps quiet about. */
  function SuppressedMessage(start: int): string {
    "Reached log position " + IntToString(start)
  }

  /** What the program prints for the error the parse ends with, if anything. */
  function ErrorOutput(err: Option<string>, start: int): Option<string> {
    if err.Some? && err.value != SuppressedMessage(start) then err else None
  }

  /** The two texts differ in their first letter, so the stop message is always printed. */
  lemma StopMessageNeverSuppressed(start: int)
    ensures StopMessage(start) != SuppressedMessage(start)
    ensures ErrorOutput(Some(StopMessage(start)), start) == Some(StopMessage(start))
  {
    assert StopMessage(start)[0] == 'r';
    assert SuppressedMessage(start)[0] == 'R';
  }

  /**
   `ParseFile` from the start position with the position tool's callback, over the events the
   parser delivers, followed by the parser's own error. Returns the dumped events and the
   error the parse ends with.
   */
  method ProcessEvents(events: seq<Event>, start: int, stopAtNext: bool, parserError: Option<string>)
    returns (dumped: seq<Event>, err: Option<string>)
    ensures dumped == DumpedEvents(Handled(events, start, stopAtNext), start)
    ensures StopPoint(events, start, stopAtNext) < |events| ==> err == Some(StopMessage(start))
    ensures StopPoint(events, start, stopAtNext) == |events| ==> err == parserError
  {
    ghost var k := StopPoint(events, start, stopAtNext);
    dumped := [];
    var i := 0;
    while i < |events|
      invariant 0 <= i <= k
      invariant dumped == DumpedEvents(events[..i], start)
    {
      var e := events[i];
      DumpedOneMore(events, start, i);
      StopPointAt(events, start, stopAtNext, i);
      if e.logPos >= Uint32(start) {
        dumped := dumped + [e];
        if stopAtNext && e.logPos > Uint32(start) {
          return dumped, Some(StopMessage(start));
        }
      }
      i := i + 1;
    }
    assert events[..i] == events;
    return dumped, parserError;
  }

  /** The end positions of the events, in order. */
  function LogPositions(events: seq<Event>): (r: seq<uint32>)
    ensures |r| == |events|
    ensures forall i :: 0 <= i < |r| ==> r[i] == events[i].logPos
  {
    seq(|events|, i requires 0 <= i < |events| => events[i].logPos)
  }

  /** `listAllLogPositions`: every event's end position, then the parser's error, if any. */
  method ListPositions(events: seq<Event>, parserError: Option<string>)
    returns (positions: seq<uint32>, err: Option<string>)
    ensures positions == LogPositions(events)
    ensures err == parserError
  {
    positions := [];
    var i := 0;
    while i < |events|
      invariant 0 <= i <= |events|
      invariant positions == LogPositions(events[..i])
    {
      positions := positions + [events[i].logPos];
      i := i + 1;
    }
    assert events[..i] == events;
    err := parserError;
  }

  /** What one parse of the file yields: the delivered events and the parser's own error. */
  datatype Parse = Parse(events: seq<Event>, error: Option<string>)

  /** What a run of the tool produces. */
  datatype Outcome =
    | Listed(positions: seq<uint32>, printed: Option<string>)
    | Failed(message: string)
    | Dumps(events: seq<Event>, printed: Option<string>)

  /**
   The tool after its flag and file checks: `parse(p)` is what parsing the file from position
   `p` yields.
   */
  method Execute(flags: Flags, parse: int -> Parse) returns (r: Outcome)
    ensures flags.listPositions ==> r == Listed(LogPositions(parse(4).events), parse(4).error)
    ensures !flags.listPositions && flags.offset == -1 && flags.logPosition == -1 ==> r == Failed(NoStartMessage)
    ensures !flags.listPositions && r.Dumps? ==>
      var start := if flags.offset != -1 then flags.offset else flags.logPosition;
      var p := parse(start);
      && r.events == DumpedEvents(Handled(p.events, start, flags.stopAtNext), start)
      && r.printed == ErrorOutput(
        if StopPoint(p.events, start, flags.stopAtNext) < |p.events| then Some(StopMessage(start)) else p.error, start)
    ensures !flags.listPositions && (flags.offset != -1 || flags.logPosition != -1) ==> r.Dumps?
  {
    if flags.listPositions {
      var p := parse(4);
      var positions, err := ListPositions(p.events, p.error);
      return Listed(positions, err);
    }
    var startPosition := StartPosition(flags.offset, flags.logPosition);
    if startPosition.Err? {
      return Failed(startPosition.error);
    }
    var start := startPosition.value;
    var p := parse(start);
    var dumped, err := ProcessEvents(p.events, start, flags.stopAtNext, p.error);
    return Dumps(dumped, ErrorOutput(err, start));
  }
}
