/**
 The binlog dumper (`cmd/main.go`): the file check, the choice of the start position, the
 selection of events by start position, the `-stopAtNext` rule, the statistics recorded for
 row events, and the column lines of a table-map dump.
 */
module DumpCli {
  import opened Results
  import opened GoStrings
  import opened Binlog
  import opened Stats
  import PositionCli

  // ---------------------------------------------------------------------------
  // isValidBinlogFile

  /** The four bytes every binlog file starts with. */
  const Magic: seq<byte> := [0xFE, 0x62, 0x69, 0x6E]

  const ReadHeaderPrefix: string := "failed to read magic header: "

  const BadMagicMessage: string := "invalid binlog format: incorrect magic number"

  /**
   The magic-number check on the file's bytes: `io.ReadFull` of four bytes reports `EOF` on an
   empty file and `unexpected EOF` on a shorter one; otherwise the four bytes are compared.
   */
  function CheckMagic(data: seq<byte>): (r: Option<string>)
    ensures r.None? <==> |data| >= 4 && data[..4] == Magic
    ensures |data| < 4 ==> r.Some? && HasPrefix(r.value, ReadHeaderPrefix)
    ensures |data| >= 4 ==> r.None? || r.value == BadMagicMessage
  {
    if |data| == 0 then Some(ReadHeaderPrefix + "EOF")
    else if |data| < 4 then Some(ReadHeaderPrefix + "unexpected EOF")
    else if data[..4] != Magic then Some(BadMagicMessage)
    else None
  }

  /** Only the first four bytes are looked at. */
  lemma MagicOnlyPrefix(a: seq<byte>, b: seq<byte>)
    requires |a| >= 4 && |b| >= 4 && a[..4] == b[..4]
    ensures CheckMagic(a) == CheckMagic(b)
  {
  }

  // ---------------------------------------------------------------------------
  // The start position

  const BinlogStartPosition: int := 4

  const NoStartMessage: string := "Error: Either offset, log position, or -all flag must be specified"

  /** The flags that decide where parsing starts and which events are taken. */
  datatype Flags = Flags(offset: int, logPosition: int, parseAll: bool, stopAtNext: bool, showStats: bool,
                         listPositions: bool)

  /**
   `-all` starts at position 4; otherwise `-offset` unless it is -1, then `-logPosition`
   unless it is -1; with neither the program stops with an error.
   */
  method StartPosition(flags: Flags) returns (r: Result<int, string>)
    ensures flags.parseAll ==> r == Ok(BinlogStartPosition)
    ensures !flags.parseAll && flags.offset != -1 ==> r == Ok(flags.offset)
    ensures !flags.parseAll && flags.offset == -1 && flags.logPosition != -1 ==> r == Ok(flags.logPosition)
    ensures !flags.parseAll && flags.offset == -1 && flags.logPosition == -1 ==> r == Err(NoStartMessage)
    ensures r.Ok? ==> r.value != -1
  {
    var startPosition := BinlogStartPosition;
    if !flags.parseAll {
      startPosition := flags.offset;
      if startPosition == -1 && flags.logPosition != -1 {
        startPosition := flags.logPosition;
      }
      if startPosition == -1 {
        return Err(NoStartMessage);
      }
    }
    return Ok(startPosition);
  }

  // ---------------------------------------------------------------------------
  // Selecting events and stopping

  /** What the callback needs: the target position and the `-all` and `-stopAtNext` flags. */
  datatype Config = Config(startPosition: int, parseAll: bool, stopAtNext: bool, showStats: bool)

  /** The event is processed: `-all`, or it starts exactly at the target. */
  predicate Selected(e: Event, cfg: Config) {
    cfg.parseAll || EventStart(e) == Uint32(cfg.startPosition)
  }

  /** The callback ends the parse at this event. */
  predicate StopsAt(e: Event, cfg: Config, found: bool) {
    !Selected(e, cfg) && found && EventStart(e) > Uint32(cfg.startPosition) && !cfg.parseAll && cfg.stopAtNext
  }

  /** Some event among these was selected: the callback's `eventsFound` flag after them. */
  predicate AnySelected(events: seq<Event>, cfg: Config)
    decreases |events|
  {
    |events| > 0 && (AnySelected(events[..|events| - 1], cfg) || Selected(events[|events| - 1], cfg))
  }

  lemma {:induction false} AnySelectedWitness(events: seq<Event>, cfg: Config)
    ensures AnySelected(events, cfg) <==> exists j :: 0 <= j < |events| && Selected(events[j], cfg)
    decreases |events|
  {
    if |events| > 0 {
      var init := events[..|events| - 1];
      AnySelectedWitness(init, cfg);
      if AnySelected(init, cfg) {
        var j :| 0 <= j < |init| && Selected(init[j], cfg);
        assert events[j] == init[j];
      }
      if exists j :: 0 <= j < |events| && Selected(events[j], cfg) {
        var j :| 0 <= j < |events| && Selected(events[j], cfg);
        if j < |init| {
          assert init[j] == events[j];
        }
      }
    }
  }

  /**
   The index of the event at which the callback stops the parse, or the number of events
   when it never does; `found` says whether an event was selected before these.
   */
  function FirstStop(events: seq<Event>, cfg: Config, found: bool): (k: nat)
    ensures k <= |events|
    decreases |events|
  {
    if |events| == 0 then 0
    else if StopsAt(events[0], cfg, found) then 0
    else 1 + FirstStop(events[1..], cfg, found || Selected(events[0], cfg))
  }

  lemma AnySelectedCons(events: seq<Event>, cfg: Config, i: nat)
    requires 0 < i <= |events|
    ensures AnySelected(events[..i], cfg) <==> Selected(events[0], cfg) || AnySelected(events[1..][..i - 1], cfg)
  {
    var rest := events[1..];
    AnySelectedWitness(events[..i], cfg);
    AnySelectedWitness(rest[..i - 1], cfg);
    if AnySelected(rest[..i - 1], cfg) {
      var j :| 0 <= j < i - 1 && Selected(rest[..i - 1][j], cfg);
      assert events[..i][j + 1] == rest[..i - 1][j];
    }
    if AnySelected(events[..i], cfg) {
      var j :| 0 <= j < i && Selected(events[..i][j], cfg);
      if j != 0 {
        assert rest[..i - 1][j - 1] == events[..i][j];
      }
    }
    assert events[..i][0] == events[0];
  }

  /** The parse stops at the first event at which the callback returns an error. */
  lemma {:induction false} FirstStopIsFirst(events: seq<Event>, cfg: Config, found: bool)
    ensures forall i :: 0 <= i < FirstStop(events, cfg, found) ==>
      !StopsAt(events[i], cfg, found || AnySelected(events[..i], cfg))
    ensures FirstStop(events, cfg, found) < |events| ==>
      StopsAt(events[FirstStop(events, cfg, found)], cfg, found || AnySelected(events[..FirstStop(events, cfg, found)], cfg))
    decreases |events|
  {
    if |events| == 0 {
    } else if StopsAt(events[0], cfg, found) {
      assert !AnySelected(events[..0], cfg);
    } else {
      var rest := events[1..];
      var found' := found || Selected(events[0], cfg);
      FirstStopIsFirst(rest, cfg, found');
      var k := FirstStop(events, cfg, found);
      forall i | 0 <= i < k
        ensures !StopsAt(events[i], cfg, found || AnySelected(events[..i], cfg))
      {
        if i == 0 {
          assert !AnySelected(events[..0], cfg);
        } else {
          AnySelectedCons(events, cfg, i);
          assert events[i] == rest[i - 1];
        }
      }
      if k < |events| {
        AnySelectedCons(events, cfg, k);
        assert events[k] == rest[k - 1];
      }
    }
  }

  /** Among events not yet past the stop, the parse stops exactly at one where the callback does. */
  lemma FirstStopAt(events: seq<Event>, cfg: Config, i: nat)
    requires i <= FirstStop(events, cfg, false) && i < |events|
    ensures FirstStop(events, cfg, false) == i <==> StopsAt(events[i], cfg, AnySelected(events[..i], cfg))
  {
    FirstStopIsFirst(events, cfg, false);
  }

  /** Without `-stopAtNext`, or with `-all`, every delivered event is handled. */
  lemma NeverStops(events: seq<Event>, cfg: Config, found: bool)
    requires !cfg.stopAtNext || cfg.parseAll
    ensures FirstStop(events, cfg, found) == |events|
  {
  }

  /** The parse is stopped only after some event was selected. */
  lemma StopsAfterSelection(events: seq<Event>, cfg: Config)
    requires FirstStop(events, cfg, false) < |events|
    ensures AnySelected(events[..FirstStop(events, cfg, false)], cfg)
  {
    FirstStopIsFirst(events, cfg, false);
  }

  /** The events the callback processes, in order. */
  function SelectedEvents(events: seq<Event>, cfg: Config): seq<Event>
    decreases |events|
  {
    if |events| == 0 then []
    else
      var init, e := events[..|events| - 1], events[|events| - 1];
      SelectedEvents(init, cfg) + if Selected(e, cfg) then [e] else []
  }

  /** Only selected events are processed, in the order they came. */
  lemma {:induction false} SelectedSubsequence(events: seq<Event>, cfg: Config)
    ensures forall e :: e in SelectedEvents(events, cfg) ==> e in events && Selected(e, cfg)
    ensures |SelectedEvents(events, cfg)| <= |events|
    decreases |events|
  {
    if |events| > 0 {
      SelectedSubsequence(events[..|events| - 1], cfg);
    }
  }

  lemma AnySelectedSnoc(events: seq<Event>, e: Event, cfg: Config)
    ensures AnySelected(events + [e], cfg) <==> AnySelected(events, cfg) || Selected(e, cfg)
  {
    assert (events + [e])[..|events|] == events;
  }

  lemma SelectedSnoc(events: seq<Event>, e: Event, cfg: Config)
    ensures Selected(e, cfg) ==> SelectedEvents(events + [e], cfg) == SelectedEvents(events, cfg) + [e]
    ensures !Selected(e, cfg) ==> SelectedEvents(events + [e], cfg) == SelectedEvents(events, cfg)
  {
    assert (events + [e])[..|events|] == events;
  }

  /** With `-all`, every handled event is processed. */
  lemma {:induction false} AllSelected(events: seq<Event>, cfg: Config)
    requires cfg.parseAll
    ensures SelectedEvents(events, cfg) == events
    decreases |events|
  {
    if |events| > 0 {
      AllSelected(events[..|events| - 1], cfg);
      assert events == events[..|events| - 1] + [events[|events| - 1]];
    }
  }

  /** The message that ends the parse at an event starting at `start`. */
  function StopMessage(start: uint32): string {
    "found next event at position " + NatToString(start)
      + " (previous events ended at " + NatToString(start) + ")"
  }

  /** What is printed for the error the parse returned. */
  function ErrorLine(err: string): string {
    if HasPrefix(err, "found next event") then err else "Error: " + err
  }

  /** The stop message is printed as it is, never with `Error: ` in front. */
  lemma StopMessageBare(start: uint32)
    ensures ErrorLine(StopMessage(start)) == StopMessage(start)
  {
    var m := StopMessage(start);
    assert m == "found next event" + m[|"found next event"|..];
  }

  // ---------------------------------------------------------------------------
  // Statistics of row events

  /**
   The operation a processed rows event is counted as: writes and deletes count their row
   images, updates half of them (each update carries a before and an after image); other
   event types are not counted.
   */
  function RowOperation(e: Event): (r: Option<(string, nat)>)
    ensures r.Some? <==> (e.rows.Some? && e.eventType in
      {WriteRowsEventV1, WriteRowsEventV2, UpdateRowsEventV1, UpdateRowsEventV2, DeleteRowsEventV1, DeleteRowsEventV2})
    ensures r.Some? ==> (r.value.0 == "INSERT" <==> e.eventType in {WriteRowsEventV1, WriteRowsEventV2})
    ensures r.Some? ==> (r.value.0 == "UPDATE" <==> e.eventType in {UpdateRowsEventV1, UpdateRowsEventV2})
    ensures r.Some? ==> (r.value.0 == "DELETE" <==> e.eventType in {DeleteRowsEventV1, DeleteRowsEventV2})
    ensures r.Some? && r.value.0 == "UPDATE" ==> 2 * r.value.1 <= e.rows.value.rows < 2 * r.value.1 + 2
    ensures r.Some? && r.value.0 != "UPDATE" ==> r.value.1 == e.rows.value.rows
  {
    match e.rows
    case None => None
    case Some(info) =>
      if e.eventType == WriteRowsEventV1 || e.eventType == WriteRowsEventV2 then Some(("INSERT", info.rows))
      else if e.eventType == UpdateRowsEventV1 || e.eventType == UpdateRowsEventV2 then Some(("UPDATE", info.rows / 2))
      else if e.eventType == DeleteRowsEventV1 || e.eventType == DeleteRowsEventV2 then Some(("DELETE", info.rows))
      else None
  }

  /** The `RecordOperation` calls made for the handled events. */
  function RecordedCalls(events: seq<Event>, cfg: Config): seq<Call>
    decreases |events|
  {
    if |events| == 0 then []
    else
      var init, e := events[..|events| - 1], events[|events| - 1];
      RecordedCalls(init, cfg) + CallsOf(e, cfg)
  }

  /** The calls made for one handled event: one for a selected row event, none otherwise. */
  function CallsOf(e: Event, cfg: Config): seq<Call> {
    if Selected(e, cfg) && RowOperation(e).Some? then [CallOf(e)] else []
  }

  /** Recording the calls of one event is one `Recorded` step, or none. */
  lemma RecordOne(s: StatsMap, e: Event, cfg: Config)
    ensures Selected(e, cfg) && RowOperation(e).Some? ==>
      RecordAll(s, CallsOf(e, cfg)) == Recorded(s, CallOf(e).db, CallOf(e).table, CallOf(e).op, CallOf(e).rows)
    ensures !(Selected(e, cfg) && RowOperation(e).Some?) ==> RecordAll(s, CallsOf(e, cfg)) == s
  {
    if Selected(e, cfg) && RowOperation(e).Some? {
      assert [CallOf(e)][..0] == [];
    }
  }

  /** Every recorded call comes from a selected rows event, under its own schema and table. */
  lemma {:induction false} CallsFromSelected(events: seq<Event>, cfg: Config)
    ensures forall c :: c in RecordedCalls(events, cfg) ==>
      exists e :: e in events && Selected(e, cfg) && RowOperation(e).Some? && c == CallOf(e)
    decreases |events|
  {
    if |events| > 0 {
      var init := events[..|events| - 1];
      CallsFromSelected(init, cfg);
      forall c | c in RecordedCalls(events, cfg)
        ensures exists e :: e in events && Selected(e, cfg) && RowOperation(e).Some? && c == CallOf(e)
      {
        if c in RecordedCalls(init, cfg) {
          var e :| e in init && Selected(e, cfg) && RowOperation(e).Some? && c == CallOf(e);
          assert e in events;
        } else {
          assert events[|events| - 1] in events;
        }
      }
    }
  }

  /** The call `RecordOperation` receives for a processed event, if any. */
  function CallOf(e: Event): Call
    requires RowOperation(e).Some?
  {
    Call(e.rows.value.schema, e.rows.value.table, RowOperation(e).value.0, RowOperation(e).value.1)
  }

  /**
   The `ParseFile` callback on one event: `eventsFound` is the flag it shares with earlier
   calls. Returns the flag's new value, the events it dumps and the error that ends the parse.
   */
  method HandleEvent(e: Event, cfg: Config, eventsFound: bool, statistics: Statistics)
    returns (found: bool, dump: seq<Event>, err: Option<string>)
    modifies statistics
    ensures found == (eventsFound || Selected(e, cfg))
    ensures dump == if Selected(e, cfg) && !cfg.showStats then [e] else []
    ensures err == if StopsAt(e, cfg, eventsFound) then Some(StopMessage(EventStart(e))) else None
    ensures statistics.stats == RecordAll(old(statistics.stats), CallsOf(e, cfg))
    ensures statistics.eventCounts == old(statistics.eventCounts)
    ensures statistics.totalEvents == old(statistics.totalEvents)
  {
    RecordOne(statistics.stats, e, cfg);
    found, dump, err := eventsFound, [], None;
    var eventStartPos := Sub32(e.logPos, e.eventSize);
    if cfg.parseAll || eventStartPos == Uint32(cfg.startPosition) {
      found := true;
      if !cfg.showStats {
        dump := [e];
      }
      if e.rows.Some? {
        var schema, table := e.rows.value.schema, e.rows.value.table;
        var rows := e.rows.value.rows;
        if e.eventType == WriteRowsEventV1 || e.eventType == WriteRowsEventV2 {
          statistics.RecordOperation(schema, table, "INSERT", rows);
        } else if e.eventType == UpdateRowsEventV1 || e.eventType == UpdateRowsEventV2 {
          statistics.RecordOperation(schema, table, "UPDATE", rows / 2);
        } else if e.eventType == DeleteRowsEventV1 || e.eventType == DeleteRowsEventV2 {
          statistics.RecordOperation(schema, table, "DELETE", rows);
        }
      }
    } else if eventsFound && eventStartPos > Uint32(cfg.startPosition) && !cfg.parseAll {
      if cfg.stopAtNext {
        err := Some(StopMessage(eventStartPos));
      }
    }
  }

  /**
   `ParseFile` from the start position: the callback on each event the parser delivers until
   it returns an error, then the parser's own error, if any. Returns the events dumped and the
   error the parse ends with.
   */
  method ProcessEvents(events: seq<Event>, cfg: Config, parserError: Option<string>, statistics: Statistics)
    returns (dumped: seq<Event>, err: Option<string>)
    modifies statistics
    ensures var k := FirstStop(events, cfg, false);
      && dumped == (if cfg.showStats then [] else SelectedEvents(events[..k], cfg))
      && statistics.stats == RecordAll(old(statistics.stats), RecordedCalls(events[..k], cfg))
      && (k < |events| ==> err == Some(StopMessage(EventStart(events[k]))))
      && (k == |events| ==> err == parserError)
    ensures statistics.eventCounts == old(statistics.eventCounts)
    ensures statistics.totalEvents == old(statistics.totalEvents)
  {
    ghost var k := FirstStop(events, cfg, false);
    var eventsFound := false;
    dumped := [];
    var i := 0;
    while i < |events|
      invariant 0 <= i <= k
      invariant eventsFound == AnySelected(events[..i], cfg)
      invariant dumped == if cfg.showStats then [] else SelectedEvents(events[..i], cfg)
      invariant statistics.stats == RecordAll(old(statistics.stats), RecordedCalls(events[..i], cfg))
      invariant statistics.eventCounts == old(statistics.eventCounts)
      invariant statistics.totalEvents == old(statistics.totalEvents)
    {
      var e := events[i];
      HandledOneMore(events, cfg, i, old(statistics.stats));
      FirstStopAt(events, cfg, i);
      var dump, stop;
      eventsFound, dump, stop := HandleEvent(e, cfg, eventsFound, statistics);
      if stop.Some? {
        return dumped, stop;
      }
      dumped := dumped + dump;
      i := i + 1;
    }
    assert events[..k] == events[..i];
    return dumped, parserError;
  }

  /** What handling event `i` adds to what the earlier events produced. */
  lemma HandledOneMore(events: seq<Event>, cfg: Config, i: nat, s: StatsMap)
    requires i < |events|
    ensures AnySelected(events[..i + 1], cfg) <==> AnySelected(events[..i], cfg) || Selected(events[i], cfg)
    ensures Selected(events[i], cfg) ==> SelectedEvents(events[..i + 1], cfg) == SelectedEvents(events[..i], cfg) + [events[i]]
    ensures !Selected(events[i], cfg) ==> SelectedEvents(events[..i + 1], cfg) == SelectedEvents(events[..i], cfg)
    ensures RecordAll(s, RecordedCalls(events[..i + 1], cfg)) ==
      RecordAll(RecordAll(s, RecordedCalls(events[..i], cfg)), CallsOf(events[i], cfg))
  {
    var before, e := events[..i], events[i];
    assert events[..i + 1] == before + [e];
    assert events[..i + 1][..i] == before;
    AnySelectedSnoc(before, e, cfg);
    SelectedSnoc(before, e, cfg);
    RecordAllConcat(s, RecordedCalls(before, cfg), CallsOf(e, cfg));
  }

  /** Recording two runs of calls one after the other is recording them together. */
  lemma {:induction false} RecordAllConcat(s: StatsMap, a: seq<Call>, b: seq<Call>)
    ensures RecordAll(s, a + b) == RecordAll(RecordAll(s, a), b)
    decreases |b|
  {
    if |b| > 0 {
      assert (a + b)[..|a + b| - 1] == a + b[..|b| - 1];
      RecordAllConcat(s, a, b[..|b| - 1]);
    } else {
      assert a + b == a;
    }
  }

  /** From a fresh collector, the report's totals count the recorded calls and their rows. */
  lemma FreshTotals(events: seq<Event>, cfg: Config)
    ensures TotalOps(RecordAll(map[], RecordedCalls(events, cfg))) == |RecordedCalls(events, cfg)|
    ensures TotalRows(RecordAll(map[], RecordedCalls(events, cfg))) == AllRows(RecordedCalls(events, cfg))
  {
    ReplayTotals(RecordedCalls(events, cfg));
  }

  // ---------------------------------------------------------------------------
  // main, after the flag and file-existence checks

  /** The operation section of `PrintStats`: the entries in report order and the two totals. */
  datatype OperationSection = OperationSection(order: seq<Entry>, totalOps: int, totalRows: int)

  /**
   What `PrintStats` reports: the `Total Events` count, and the operation section, which is
   printed only when some operation was recorded.
   */
  datatype StatsReport = StatsReport(totalEvents: int, operations: Option<OperationSection>)

  /** What a run of the dumper produces. */
  datatype Outcome =
    | Invalid(reason: string)
    | Listed(positions: seq<uint32>, printed: Option<string>)
    | Failed(message: string)
    | Processed(dumped: seq<Event>, printed: Option<string>, report: Option<StatsReport>)

  /** The line printed for the error a parse ends with, if any. */
  function Printed(err: Option<string>): Option<string> {
    if err.Some? then Some(ErrorLine(err.value)) else None
  }

  /**
   The dumper on a file whose bytes are `data`, where `parse(p)` is what parsing it from
   position `p` yields: the magic check, then `-listPositions`, then the start position, the
   parse with a fresh statistics collector and, under `-showStats`, its summary.
   */
  method Execute(flags: Flags, data: seq<byte>, parse: int -> PositionCli.Parse) returns (r: Outcome)
    ensures CheckMagic(data).Some? ==> r == Invalid(CheckMagic(data).value)
    ensures CheckMagic(data).None? && flags.listPositions ==>
      r == Listed(PositionCli.LogPositions(parse(4).events), parse(4).error)
    ensures (CheckMagic(data).None? && !flags.listPositions && !flags.parseAll
      && flags.offset == -1 && flags.logPosition == -1) ==> r == Failed(NoStartMessage)
    ensures (CheckMagic(data).None? && !flags.listPositions
      && (flags.parseAll || flags.offset != -1 || flags.logPosition != -1)) ==> r.Processed?
    ensures r.Processed? ==>
      var start := if flags.parseAll then BinlogStartPosition
        else if flags.offset != -1 then flags.offset else flags.logPosition;
      var cfg := Config(start, flags.parseAll, flags.stopAtNext, flags.showStats);
      var p := parse(start);
      var k := FirstStop(p.events, cfg, false);
      var s := RecordAll(map[], RecordedCalls(p.events[..k], cfg));
      && r.dumped == (if flags.showStats then [] else SelectedEvents(p.events[..k], cfg))
      && r.printed == Printed(if k < |p.events| then Some(StopMessage(EventStart(p.events[k]))) else p.error)
      && r.report == if !flags.showStats then None
        else if s == map[] then Some(StatsReport(0, None))
        else Some(StatsReport(0, Some(OperationSection(Report(s), TotalOps(s), TotalRows(s)))))
  {
    var invalid := CheckMagic(data);
    if invalid.Some? {
      return Invalid(invalid.value);
    }
    if flags.listPositions {
      var p := parse(4);
      var positions, err := PositionCli.ListPositions(p.events, p.error);
      return Listed(positions, err);
    }
    var startPosition := StartPosition(flags);
    if startPosition.Err? {
      return Failed(startPosition.error);
    }
    var start := startPosition.value;
    var cfg := Config(start, flags.parseAll, flags.stopAtNext, flags.showStats);
    var statistics := new Statistics();
    var p := parse(start);
    var dumped, err := ProcessEvents(p.events, cfg, p.error, statistics);
    var report := None;
    if flags.showStats {
      var operations := None;
      if |statistics.stats| > 0 {
        var order, totalOps, totalRows := statistics.Summary();
        operations := Some(OperationSection(order, totalOps, totalRows));
      }
      report := Some(StatsReport(statistics.totalEvents, operations));
    }
    return Processed(dumped, Printed(err), report);
  }

  // ---------------------------------------------------------------------------
  // dumpTableMapEvent: the column lines

  /** The type names printed for column type codes. */
  const TypeNames: map<byte, string> := map[
    1 := "TINYINT", 2 := "SMALLINT", 3 := "INT", 4 := "FLOAT", 5 := "DOUBLE", 6 := "NULL",
    7 := "TIMESTAMP", 8 := "BIGINT", 9 := "MEDIUMINT", 10 := "DATE", 11 := "TIME",
    12 := "DATETIME", 13 := "YEAR", 15 := "VARCHAR", 16 := "BIT", 17 := "TIMESTAMP2",
    18 := "DATETIME2", 19 := "TIME2", 245 := "JSON", 246 := "DECIMAL", 247 := "ENUM",
    248 := "SET", 249 := "TINY_BLOB", 250 := "MEDIUM_BLOB", 251 := "LONG_BLOB", 252 := "BLOB",
    253 := "VAR_STRING", 254 := "STRING"]

  /** The printed name of a column type: its table entry, or `TYPE_` and the decimal code. */
  function TypeName(t: byte): (r: string)
    ensures t in TypeNames ==> r == TypeNames[t]
    ensures t !in TypeNames ==> HasPrefix(r, "TYPE_")
    ensures r != ""
  {
    if t in TypeNames then TypeNames[t] else "TYPE_" + NatToString(t)
  }

  /** The fallback name carries the code, which reads back from the digits after `TYPE_`. */
  lemma FallbackNameReadsBack(t: byte)
    requires t !in TypeNames
    ensures HasPrefix(TypeName(t), "TYPE_")
    ensures ParseNat(TypeName(t)[5..]) == Some(t)
  {
    assert TypeName(t)[5..] == NatToString(t);
    ParseNatRoundTrip(t);
  }

  /** No listed name starts with `TYPE_`. */
  lemma ListedNamesNotFallback(t: byte)
    requires t in TypeNames
    ensures !HasPrefix(TypeNames[t], "TYPE_")
  {
    assert |TypeNames[t]| < 5 || TypeNames[t][1] != 'Y';
  }

  /** Different codes print differently. */
  lemma TypeNameInjective(a: byte, b: byte)
    requires TypeName(a) == TypeName(b)
    ensures a == b
  {
    if a in TypeNames && b in TypeNames {
      ListedNamesDistinct(a, b);
    } else if a in TypeNames {
      ListedNamesNotFallback(a);
      FallbackNameReadsBack(b);
    } else if b in TypeNames {
      ListedNamesNotFallback(b);
      FallbackNameReadsBack(a);
    } else {
      FallbackNameReadsBack(a);
      FallbackNameReadsBack(b);
    }
  }

  lemma ListedNamesDistinct(a: byte, b: byte)
    requires a in TypeNames && b in TypeNames && TypeNames[a] == TypeNames[b]
    ensures a == b
  {
  }

  /** `x >> k`: `k` halvings. */
  function ShiftRight(x: nat, k: nat): nat
    decreases k
  {
    if k == 0 then x else ShiftRight(x / 2, k - 1)
  }

  /** `NullBitmap[i/8] >> (i%8) & 1 == 1`: column `i` may hold NULL. */
  predicate ColumnNullable(nullBitmap: seq<byte>, i: nat)
    requires i / 8 < |nullBitmap|
  {
    ShiftRight(nullBitmap[i / 8], i % 8) % 2 == 1
  }

  /** Bits `start` to `start + n - 1` of `flags`, least significant first, as a number. */
  function PackBits(flags: seq<bool>, start: nat, n: nat): nat
    decreases n
  {
    if n == 0 then 0
    else (if start < |flags| && flags[start] then 1 else 0) + 2 * PackBits(flags, start + 1, n - 1)
  }

  function Pow2(n: nat): nat
    decreases n
  {
    if n == 0 then 1 else 2 * Pow2(n - 1)
  }

  lemma {:induction false} PackBitsBound(flags: seq<bool>, start: nat, n: nat)
    ensures PackBits(flags, start, n) < Pow2(n)
    decreases n
  {
    if n > 0 {
      PackBitsBound(flags, start + 1, n - 1);
    }
  }

  /** Byte `j` of the bitmap that marks the columns with `flags` set. */
  function PackedByte(flags: seq<bool>, j: nat): byte {
    PackBitsBound(flags, 8 * j, 8);
    assert Pow2(8) == 0x100;
    PackBits(flags, 8 * j, 8)
  }

  /** The null bitmap of a table with the given nullable columns: one bit per column. */
  function Pack(flags: seq<bool>): (r: seq<byte>)
    ensures |r| == (|flags| + 7) / 8
  {
    seq((|flags| + 7) / 8, j requires 0 <= j => PackedByte(flags, j))
  }

  /** Bit `k` of packed bits is the `k`-th flag. */
  lemma {:induction false} PackedBit(flags: seq<bool>, start: nat, n: nat, k: nat)
    requires k < n
    ensures ShiftRight(PackBits(flags, start, n), k) % 2 == (if start + k < |flags| && flags[start + k] then 1 else 0)
    decreases k
  {
    var low := if start < |flags| && flags[start] then 1 else 0;
    var high := PackBits(flags, start + 1, n - 1);
    var x := PackBits(flags, start, n);
    assert x == low + 2 * high;
    if k == 0 {
      assert x % 2 == low;
    } else {
      assert x / 2 == high;
      assert ShiftRight(x, k) == ShiftRight(high, k - 1);
      PackedBit(flags, start + 1, n - 1, k - 1);
    }
  }

  /** Reading the bitmap back gives each column's flag. */
  lemma NullBitmapRoundTrip(flags: seq<bool>, i: nat)
    requires i < |flags|
    ensures i / 8 < |Pack(flags)|
    ensures ColumnNullable(Pack(flags), i) == flags[i]
  {
    PackedBit(flags, 8 * (i / 8), 8, i % 8);
  }
}
