/**
 The statistics collector: per-event-type counts, and operation counts nested by
 database, table and operation name.
 */
module Stats {
  import opened GoStrings
  import opened Binlog

  /** `Operation`: how many operations were recorded under a key, and how many rows they touched. */
  datatype Operation = Operation(count: int, rowCount: int)

  /** `TableStats`: the operations recorded for one table, by operation name. */
  datatype TableStats = TableStats(operations: map<string, Operation>)

  /** The `Stats` field: database -> table -> its `TableStats`. */
  type StatsMap = map<string, map<string, TableStats>>

  // ---------------------------------------------------------------------------
  // Per-event-type counts

  /** `EventCounts[t]`, with Go's zero value for a missing key. */
  function CountOf(m: map<byte, int>, t: int): int {
    if 0 <= t < 0x100 && t in m then m[t] else 0
  }

  /** The sum of the counts of the types `lo` to 255. */
  function CountsFrom(m: map<byte, int>, lo: nat): int
    requires lo <= 0x100
    decreases 0x100 - lo
  {
    if lo == 0x100 then 0 else CountOf(m, lo) + CountsFrom(m, lo + 1)
  }

  /** The sum of all per-type counts. */
  function EventTotal(m: map<byte, int>): int {
    CountsFrom(m, 0)
  }

  /** Changing the count of one type changes the sum by the same amount. */
  lemma {:induction false} CountsFromUpdate(m: map<byte, int>, t: byte, v: int, lo: nat)
    requires lo <= 0x100
    ensures CountsFrom(m[t := v], lo)
      == CountsFrom(m, lo) + if lo <= t then v - CountOf(m, t) else 0
    decreases 0x100 - lo
  {
    if lo < 0x100 {
      CountsFromUpdate(m, t, v, lo + 1);
    }
  }

  lemma EventTotalUpdate(m: map<byte, int>, t: byte, v: int)
    ensures EventTotal(m[t := v]) == EventTotal(m) + v - CountOf(m, t)
  {
    CountsFromUpdate(m, t, v, 0);
  }

  lemma {:induction false} CountsFromEmpty(lo: nat)
    requires lo <= 0x100
    ensures CountsFrom(map[], lo) == 0
    decreases 0x100 - lo
  {
    if lo < 0x100 {
      CountsFromEmpty(lo + 1);
    }
  }

  // ---------------------------------------------------------------------------
  // Operation counts

  /** The entry under (database, table, operation), or the zero `Operation` when there is none. */
  function Get(s: StatsMap, db: string, table: string, op: string): Operation {
    if db in s && table in s[db] && op in s[db][table].operations then s[db][table].operations[op]
    else Operation(0, 0)
  }

  /** Whether there is an entry under (database, table, operation). */
  predicate Has(s: StatsMap, db: string, table: string, op: string) {
    db in s && table in s[db] && op in s[db][table].operations
  }

  /**
   The map after `RecordOperation(db, table, op, n)`: the missing levels created empty, then
   the operation's count raised by one and its row count by `n`.
   */
  function Recorded(s: StatsMap, db: string, table: string, op: string, n: int): StatsMap {
    var tables := if db in s then s[db] else map[];
    var ops := if table in tables then tables[table].operations else map[];
    s[db := tables[table := TableStats(Bump(ops, op, n))]]
  }

  /** One table's operations after one more `op` touching `n` rows; a missing entry starts at zero. */
  function Bump(ops: map<string, Operation>, op: string, n: int): map<string, Operation> {
    var o := if op in ops then ops[op] else Operation(0, 0);
    ops[op := Operation(o.count + 1, o.rowCount + n)]
  }

  /** The recorded key now has an entry, one more operation and `n` more rows. */
  lemma RecordedHit(s: StatsMap, db: string, table: string, op: string, n: int)
    ensures Has(Recorded(s, db, table, op, n), db, table, op)
    ensures Get(Recorded(s, db, table, op, n), db, table, op)
      == Operation(Get(s, db, table, op).count + 1, Get(s, db, table, op).rowCount + n)
  {
  }

  /** Every other key keeps its entry, or its absence. */
  lemma RecordedOthers(s: StatsMap, db: string, table: string, op: string, n: int,
                       db': string, table': string, op': string)
    requires (db', table', op') != (db, table, op)
    ensures Has(Recorded(s, db, table, op, n), db', table', op') == Has(s, db', table', op')
    ensures Get(Recorded(s, db, table, op, n), db', table', op') == Get(s, db', table', op')
  {
  }

  /** A call to `RecordOperation`. */
  datatype Call = Call(db: string, table: string, op: string, rows: int)

  /** The map after the calls, made in order. */
  function RecordAll(s: StatsMap, calls: seq<Call>): StatsMap
    decreases |calls|
  {
    if |calls| == 0 then s
    else
      var c := calls[|calls| - 1];
      Recorded(RecordAll(s, calls[..|calls| - 1]), c.db, c.table, c.op, c.rows)
  }

  /** How many of the calls name the key. */
  function CallsTo(calls: seq<Call>, db: string, table: string, op: string): nat
    decreases |calls|
  {
    if |calls| == 0 then 0
    else
      var c := calls[|calls| - 1];
      CallsTo(calls[..|calls| - 1], db, table, op) + if (c.db, c.table, c.op) == (db, table, op) then 1 else 0
  }

  /** The rows passed by the calls that name the key. */
  function RowsTo(calls: seq<Call>, db: string, table: string, op: string): int
    decreases |calls|
  {
    if |calls| == 0 then 0
    else
      var c := calls[|calls| - 1];
      RowsTo(calls[..|calls| - 1], db, table, op) + if (c.db, c.table, c.op) == (db, table, op) then c.rows else 0
  }

  /**
   From a fresh collector, a key's `Count` is the number of calls naming it and its
   `RowCount` the sum of their row counts; the key has an entry exactly when some call named it.
   */
  lemma {:induction false} Replay(calls: seq<Call>, db: string, table: string, op: string)
    ensures Get(RecordAll(map[], calls), db, table, op)
      == Operation(CallsTo(calls, db, table, op), RowsTo(calls, db, table, op))
    ensures Has(RecordAll(map[], calls), db, table, op) <==> CallsTo(calls, db, table, op) > 0
    decreases |calls|
  {
    if |calls| > 0 {
      var init, c := calls[..|calls| - 1], calls[|calls| - 1];
      Replay(init, db, table, op);
      if (c.db, c.table, c.op) == (db, table, op) {
        RecordedHit(RecordAll(map[], init), db, table, op, c.rows);
      } else {
        RecordedOthers(RecordAll(map[], init), c.db, c.table, c.op, c.rows, db, table, op);
      }
    }
  }

  /** A fresh collector stays empty exactly when no call was made, so `PrintStats` prints its operation section exactly after some call. */
  lemma FreshEmpty(calls: seq<Call>)
    ensures RecordAll(map[], calls) == map[] <==> |calls| == 0
  {
    if |calls| > 0 {
      var c := calls[|calls| - 1];
      assert c.db in RecordAll(map[], calls);
    }
  }

  // ---------------------------------------------------------------------------
  // Sums over maps keyed by strings, taken in ascending key order

  /** The sum of `f` over the entries under `keys`, in the order of `keys`. */
  function SumKeys<V>(m: map<string, V>, keys: seq<string>, f: V -> int): int
    requires forall k :: k in keys ==> k in m
    decreases |keys|
  {
    if |keys| == 0 then 0 else f(m[keys[0]]) + SumKeys(m, keys[1..], f)
  }

  /** The sum of `f` over all entries of `m`, the least key first. */
  function SumMap<V>(m: map<string, V>, f: V -> int): int
    decreases |m.Keys|
  {
    if m.Keys == {} then 0
    else
      var k := Least(m.Keys);
      assert (m - {k}).Keys < m.Keys;
      f(m[k]) + SumMap(m - {k}, f)
  }

  lemma {:induction false} SumKeysConcat<V>(m: map<string, V>, a: seq<string>, b: seq<string>, f: V -> int)
    requires forall k :: k in a + b ==> k in m
    ensures SumKeys(m, a + b, f) == SumKeys(m, a, f) + SumKeys(m, b, f)
    decreases |a|
  {
    if |a| == 0 {
      assert a + b == b;
    } else {
      assert (a + b)[1..] == a[1..] + b;
      SumKeysConcat(m, a[1..], b, f);
    }
  }

  /** Entries outside `keys` do not matter to the sum over `keys`. */
  lemma {:induction false} SumKeysAgree<V>(m: map<string, V>, m': map<string, V>, keys: seq<string>, f: V -> int)
    requires forall k :: k in keys ==> k in m && k in m' && m[k] == m'[k]
    ensures SumKeys(m, keys, f) == SumKeys(m', keys, f)
    decreases |keys|
  {
    if |keys| > 0 {
      SumKeysAgree(m, m', keys[1..], f);
    }
  }

  /** Summing in ascending key order, as the report does, gives the sum over the map. */
  lemma {:induction false} SumSorted<V>(m: map<string, V>, f: V -> int)
    ensures SumKeys(m, SortedKeys(m.Keys), f) == SumMap(m, f)
    decreases |m.Keys|
  {
    if m.Keys != {} {
      var k := Least(m.Keys);
      var rest := m - {k};
      assert rest.Keys == m.Keys - {k};
      assert |rest.Keys| < |m.Keys| by {
        assert rest.Keys < m.Keys;
      }
      var keys := SortedKeys(m.Keys);
      assert keys == [k] + SortedKeys(rest.Keys);
      SumSorted(rest, f);
      SumKeysAgree(m, rest, keys[1..], f);
    }
  }

  /** The sum over a map is any one entry's term plus the sum over the others. */
  lemma {:induction false} SumMapRemove<V>(m: map<string, V>, k: string, f: V -> int)
    requires k in m
    ensures SumMap(m, f) == f(m[k]) + SumMap(m - {k}, f)
    decreases |m.Keys|
  {
    var least := Least(m.Keys);
    if least != k {
      var m1 := m - {least};
      assert |m1.Keys| < |m.Keys| by {
        assert m1.Keys < m.Keys;
      }
      SumMapRemove(m1, k, f);
      var m2 := m - {k};
      assert m2.Keys != {} by {
        assert least in m2.Keys;
      }
      LeastIs(m2.Keys, least);
      assert m1 - {k} == m2 - {least};
    }
  }

  /** Replacing or adding one entry changes the sum by the difference of the terms. */
  lemma SumMapUpdate<V>(m: map<string, V>, k: string, v: V, f: V -> int)
    ensures SumMap(m[k := v], f) == SumMap(m, f) + f(v) - if k in m then f(m[k]) else 0
  {
    var m' := m[k := v];
    SumMapRemove(m', k, f);
    if k in m {
      SumMapRemove(m, k, f);
      assert m' - {k} == m - {k};
    } else {
      assert m' - {k} == m;
    }
  }

  lemma SumMapEmpty<V>(f: V -> int)
    ensures SumMap(map[], f) == 0
  {
    var m: map<string, V> := map[];
    assert m.Keys == {};
  }

  function OpCount(o: Operation): int { o.count }
  function OpRows(o: Operation): int { o.rowCount }
  function TableCount(t: TableStats): int { SumMap(t.operations, OpCount) }
  function TableRows(t: TableStats): int { SumMap(t.operations, OpRows) }
  function DbCount(tables: map<string, TableStats>): int { SumMap(tables, TableCount) }
  function DbRows(tables: map<string, TableStats>): int { SumMap(tables, TableRows) }

  /** The report's "Total operations": the sum of `Count` over all entries. */
  function TotalOps(s: StatsMap): int { SumMap(s, DbCount) }

  /** The report's "Total rows affected": the sum of `RowCount` over all entries. */
  function TotalRows(s: StatsMap): int { SumMap(s, DbRows) }

  /** Each `RecordOperation` adds one operation and its rows to the totals. */
  lemma RecordedTotals(s: StatsMap, db: string, table: string, op: string, n: int)
    ensures TotalOps(Recorded(s, db, table, op, n)) == TotalOps(s) + 1
    ensures TotalRows(Recorded(s, db, table, op, n)) == TotalRows(s) + n
  {
    var tables := if db in s then s[db] else map[];
    var ops := if table in tables then tables[table].operations else map[];
    var tables' := tables[table := TableStats(Bump(ops, op, n))];
    TablesBumped(tables, table, op, n);
    SumMapUpdate(s, db, tables', DbCount);
    SumMapUpdate(s, db, tables', DbRows);
    if db !in s {
      SumMapEmpty(TableCount);
      SumMapEmpty(TableRows);
    }
  }

  lemma TablesBumped(tables: map<string, TableStats>, table: string, op: string, n: int)
    ensures var ops := if table in tables then tables[table].operations else map[];
      var tables' := tables[table := TableStats(Bump(ops, op, n))];
      && DbCount(tables') == DbCount(tables) + 1
      && DbRows(tables') == DbRows(tables) + n
  {
    var ops := if table in tables then tables[table].operations else map[];
    var t' := TableStats(Bump(ops, op, n));
    OpsBumped(ops, op, n);
    SumMapUpdate(tables, table, t', TableCount);
    SumMapUpdate(tables, table, t', TableRows);
    if table !in tables {
      SumMapEmpty(OpCount);
      SumMapEmpty(OpRows);
    }
  }

  lemma OpsBumped(ops: map<string, Operation>, op: string, n: int)
    ensures SumMap(Bump(ops, op, n), OpCount) == SumMap(ops, OpCount) + 1
    ensures SumMap(Bump(ops, op, n), OpRows) == SumMap(ops, OpRows) + n
  {
    var o := if op in ops then ops[op] else Operation(0, 0);
    SumMapUpdate(ops, op, Operation(o.count + 1, o.rowCount + n), OpCount);
    SumMapUpdate(ops, op, Operation(o.count + 1, o.rowCount + n), OpRows);
  }

  /** The rows passed by all the calls. */
  function AllRows(calls: seq<Call>): int
    decreases |calls|
  {
    if |calls| == 0 then 0 else AllRows(calls[..|calls| - 1]) + calls[|calls| - 1].rows
  }

  /** From a fresh collector, the totals are the number of calls and the sum of their rows. */
  lemma {:induction false} ReplayTotals(calls: seq<Call>)
    ensures TotalOps(RecordAll(map[], calls)) == |calls|
    ensures TotalRows(RecordAll(map[], calls)) == AllRows(calls)
    decreases |calls|
  {
    if |calls| == 0 {
      SumMapEmpty(DbCount);
      SumMapEmpty(DbRows);
    } else {
      var init, c := calls[..|calls| - 1], calls[|calls| - 1];
      ReplayTotals(init);
      RecordedTotals(RecordAll(map[], init), c.db, c.table, c.op, c.rows);
    }
  }

  // ---------------------------------------------------------------------------
  // The order in which the report visits the entries

  /** One line of the operation report. */
  datatype Entry = Entry(db: string, table: string, op: string)

  /** Report order: by database, then table, then operation, each in ascending string order. */
  predicate EntryLess(a: Entry, b: Entry) {
    LexLess(a.db, b.db)
    || (a.db == b.db && LexLess(a.table, b.table))
    || (a.db == b.db && a.table == b.table && LexLess(a.op, b.op))
  }

  predicate InReportOrder(es: seq<Entry>) {
    forall i, j :: 0 <= i < j < |es| ==> EntryLess(es[i], es[j])
  }

  function OpEntries(db: string, table: string, ops: seq<string>): (r: seq<Entry>)
    ensures |r| == |ops|
    ensures forall i :: 0 <= i < |r| ==> r[i] == Entry(db, table, ops[i])
    decreases |ops|
  {
    if |ops| == 0 then [] else [Entry(db, table, ops[0])] + OpEntries(db, table, ops[1..])
  }

  function TableEntries(db: string, tables: map<string, TableStats>, names: seq<string>): seq<Entry>
    requires forall t :: t in names ==> t in tables
    decreases |names|
  {
    if |names| == 0 then []
    else
      var t := names[0];
      OpEntries(db, t, SortedKeys(tables[t].operations.Keys)) + TableEntries(db, tables, names[1..])
  }

  function DbEntries(s: StatsMap, names: seq<string>): seq<Entry>
    requires forall d :: d in names ==> d in s
    decreases |names|
  {
    if |names| == 0 then []
    else
      var d := names[0];
      TableEntries(d, s[d], SortedKeys(s[d].Keys)) + DbEntries(s, names[1..])
  }

  /** The entries in the order the report prints them. */
  function Report(s: StatsMap): seq<Entry> {
    DbEntries(s, SortedKeys(s.Keys))
  }

  lemma OrderedConcat(a: seq<Entry>, b: seq<Entry>)
    requires InReportOrder(a) && InReportOrder(b)
    requires forall x, y :: x in a && y in b ==> EntryLess(x, y)
    ensures InReportOrder(a + b)
  {
    forall i, j | 0 <= i < j < |a + b| ensures EntryLess((a + b)[i], (a + b)[j]) {
      if j < |a| {
      } else if i >= |a| {
        assert (a + b)[i] == b[i - |a|] && (a + b)[j] == b[j - |a|];
      } else {
        assert (a + b)[i] in a && (a + b)[j] in b;
      }
    }
  }

  lemma OpEntriesOrdered(db: string, table: string, ops: seq<string>)
    requires StrictlySorted(ops)
    ensures InReportOrder(OpEntries(db, table, ops))
  {
  }

  /** The entries listed for a table all carry that database and table, and an operation of it. */
  lemma {:induction false} TableEntriesFrom(db: string, tables: map<string, TableStats>, names: seq<string>)
    requires forall t :: t in names ==> t in tables
    ensures forall e :: e in TableEntries(db, tables, names) ==>
      e.db == db && e.table in names && e.op in tables[e.table].operations
    decreases |names|
  {
    if |names| > 0 {
      TableEntriesFrom(db, tables, names[1..]);
    }
  }

  lemma {:induction false} TableEntriesOrdered(db: string, tables: map<string, TableStats>, names: seq<string>)
    requires forall t :: t in names ==> t in tables
    requires StrictlySorted(names)
    ensures InReportOrder(TableEntries(db, tables, names))
    decreases |names|
  {
    if |names| > 0 {
      var t := names[0];
      var a := OpEntries(db, t, SortedKeys(tables[t].operations.Keys));
      var b := TableEntries(db, tables, names[1..]);
      OpEntriesOrdered(db, t, SortedKeys(tables[t].operations.Keys));
      TableEntriesOrdered(db, tables, names[1..]);
      TableEntriesFrom(db, tables, names[1..]);
      forall x, y | x in a && y in b ensures EntryLess(x, y) {
        var j :| 1 <= j < |names| && names[j] == y.table;
        assert LexLess(names[0], names[j]);
      }
      OrderedConcat(a, b);
    }
  }

  lemma {:induction false} DbEntriesFrom(s: StatsMap, names: seq<string>)
    requires forall d :: d in names ==> d in s
    ensures forall e :: e in DbEntries(s, names) ==>
      e.db in names && e.table in s[e.db] && e.op in s[e.db][e.table].operations
    decreases |names|
  {
    if |names| > 0 {
      var d := names[0];
      TableEntriesFrom(d, s[d], SortedKeys(s[d].Keys));
      DbEntriesFrom(s, names[1..]);
    }
  }

  lemma {:induction false} DbEntriesOrdered(s: StatsMap, names: seq<string>)
    requires forall d :: d in names ==> d in s
    requires StrictlySorted(names)
    ensures InReportOrder(DbEntries(s, names))
    decreases |names|
  {
    if |names| > 0 {
      var d := names[0];
      var a := TableEntries(d, s[d], SortedKeys(s[d].Keys));
      var b := DbEntries(s, names[1..]);
      TableEntriesOrdered(d, s[d], SortedKeys(s[d].Keys));
      DbEntriesOrdered(s, names[1..]);
      TableEntriesFrom(d, s[d], SortedKeys(s[d].Keys));
      DbEntriesFrom(s, names[1..]);
      forall x, y | x in a && y in b ensures EntryLess(x, y) {
        var j :| 1 <= j < |names| && names[j] == y.db;
        assert LexLess(names[0], names[j]);
      }
      OrderedConcat(a, b);
    }
  }

  /** Every entry that is listed exists, and every existing entry is listed. */
  lemma {:induction false} DbEntriesComplete(s: StatsMap, names: seq<string>, e: Entry)
    requires forall d :: d in names ==> d in s
    requires e.db in names && Has(s, e.db, e.table, e.op)
    ensures e in DbEntries(s, names)
    decreases |names|
  {
    var d := names[0];
    if e.db == d {
      var ts := SortedKeys(s[d].Keys);
      TableEntriesComplete(d, s[d], ts, e);
    } else {
      DbEntriesComplete(s, names[1..], e);
    }
  }

  lemma {:induction false} TableEntriesComplete(db: string, tables: map<string, TableStats>, names: seq<string>, e: Entry)
    requires forall t :: t in names ==> t in tables
    requires e.db == db && e.table in names && e.op in tables[e.table].operations
    ensures e in TableEntries(db, tables, names)
    decreases |names|
  {
    var t := names[0];
    if e.table == t {
      var ops := SortedKeys(tables[t].operations.Keys);
      var i :| 0 <= i < |ops| && ops[i] == e.op;
      assert OpEntries(db, t, ops)[i] == e;
    } else {
      TableEntriesComplete(db, tables, names[1..], e);
    }
  }

  /**
   The report lists every entry exactly once, by database, then table, then operation,
   each in ascending string order.
   */
  lemma ReportOrder(s: StatsMap)
    ensures InReportOrder(Report(s))
    ensures forall e :: e in Report(s) <==> Has(s, e.db, e.table, e.op)
  {
    DbEntriesOrdered(s, SortedKeys(s.Keys));
    DbEntriesFrom(s, SortedKeys(s.Keys));
    forall e: Entry | Has(s, e.db, e.table, e.op) ensures e in Report(s) {
      DbEntriesComplete(s, SortedKeys(s.Keys), e);
    }
  }

  // ---------------------------------------------------------------------------
  // The collector

  /** `Statistics`. The start time is left out: it only feeds the rates of the report. */
  class Statistics {
    var eventCounts: map<byte, int>
    var totalEvents: int
    var stats: StatsMap

    /** `TotalEvents` is the sum of `EventCounts`. */
    predicate Valid()
      reads this
    {
      totalEvents == EventTotal(eventCounts)
    }

    /** `NewStatistics`. */
    constructor()
      ensures eventCounts == map[] && totalEvents == 0 && stats == map[]
      ensures Valid()
    {
      eventCounts := map[];
      totalEvents := 0;
      stats := map[];
      CountsFromEmpty(0);
    }

    /** `RecordEventType`: one more event of type `t`, and one more in all. */
    method RecordEventType(t: byte)
      requires Valid()
      modifies this
      ensures eventCounts == old(eventCounts)[t := CountOf(old(eventCounts), t) + 1]
      ensures totalEvents == old(totalEvents) + 1
      ensures stats == old(stats)
      ensures Valid()
    {
      EventTotalUpdate(eventCounts, t, CountOf(eventCounts, t) + 1);
      eventCounts := eventCounts[t := CountOf(eventCounts, t) + 1];
      totalEvents := totalEvents + 1;
    }

    /** `RecordOperation`: the missing levels are created, then the entry is counted. */
    method RecordOperation(database: string, table: string, operation: string, rowCount: int)
      modifies this
      ensures stats == Recorded(old(stats), database, table, operation, rowCount)
      ensures eventCounts == old(eventCounts) && totalEvents == old(totalEvents)
    {
      var s := stats;
      ghost var tables := if database in s then s[database] else map[];
      ghost var ops0 := if table in tables then tables[table].operations else map[];
      if database !in s {
        s := s[database := map[]];
      }
      assert s == old(stats)[database := tables];
      if table !in s[database] {
        s := s[database := s[database][table := TableStats(map[])]];
      } else {
        assert tables[table := TableStats(ops0)] == tables;
      }
      assert s == old(stats)[database := tables[table := TableStats(ops0)]];
      if operation !in s[database][table].operations {
        var ops := s[database][table].operations[operation := Operation(0, 0)];
        s := s[database := s[database][table := TableStats(ops)]];
      }
      var o := s[database][table].operations[operation];
      assert o == if operation in ops0 then ops0[operation] else Operation(0, 0);
      var ops := s[database][table].operations[operation := Operation(o.count + 1, o.rowCount + rowCount)];
      assert ops == Bump(ops0, operation, rowCount);
      assert s[database][table := TableStats(ops)] == tables[table := TableStats(ops)];
      stats := s[database := s[database][table := TableStats(ops)]];
    }

    /**
     The operation part of `PrintStats`: the entries in the order they are printed, and the
     total operations and rows of the summary.
     */
    method Summary() returns (order: seq<Entry>, totalOps: int, totalRows: int)
      ensures order == Report(stats)
      ensures totalOps == TotalOps(stats) && totalRows == TotalRows(stats)
    {
      order, totalOps, totalRows := [], 0, 0;
      var all := stats;
      if |all| == 0 {
        assert all == map[];
        SumMapEmpty(DbCount);
        SumMapEmpty(DbRows);
        return;
      }
      var dbNames := SortedKeys(all.Keys);
      order, totalOps, totalRows := DatabaseSummary(all, dbNames);
      SumSorted(all, DbCount);
      SumSorted(all, DbRows);
    }

  }

  /** The databases, in the order of `dbNames`. */
  method DatabaseSummary(all: StatsMap, dbNames: seq<string>) returns (order: seq<Entry>, ops: int, rows: int)
    requires forall d :: d in dbNames ==> d in all
    ensures order == DbEntries(all, dbNames)
    ensures ops == SumKeys(all, dbNames, DbCount)
    ensures rows == SumKeys(all, dbNames, DbRows)
  {
    order, ops, rows := [], 0, 0;
    var i := 0;
    while i < |dbNames|
      invariant 0 <= i <= |dbNames|
      invariant order == DbEntries(all, dbNames[..i])
      invariant ops == SumKeys(all, dbNames[..i], DbCount)
      invariant rows == SumKeys(all, dbNames[..i], DbRows)
    {
      var db := dbNames[i];
      var tables := all[db];
      var dbOrder, dbOps, dbRows := TableSummary(db, tables, SortedKeys(tables.Keys));
      DbStep(all, dbNames, i);
      order, ops, rows := order + dbOrder, ops + dbOps, rows + dbRows;
      i := i + 1;
    }
    assert dbNames[..i] == dbNames;
  }

  /** The tables of one database, in the order of `tableNames`. */
  method TableSummary(db: string, tables: map<string, TableStats>, tableNames: seq<string>)
    returns (order: seq<Entry>, ops: int, rows: int)
    requires forall t :: t in tableNames ==> t in tables
    ensures order == TableEntries(db, tables, tableNames)
    ensures ops == SumKeys(tables, tableNames, TableCount)
    ensures rows == SumKeys(tables, tableNames, TableRows)
  {
    order, ops, rows := [], 0, 0;
    var j := 0;
    while j < |tableNames|
      invariant 0 <= j <= |tableNames|
      invariant order == TableEntries(db, tables, tableNames[..j])
      invariant ops == SumKeys(tables, tableNames[..j], TableCount)
      invariant rows == SumKeys(tables, tableNames[..j], TableRows)
    {
      var table := tableNames[j];
      var operations := tables[table].operations;
      var tableOrder, tableOps, tableRows := OpSummary(db, table, operations, SortedKeys(operations.Keys));
      TableStep(db, tables, tableNames, j);
      order, ops, rows := order + tableOrder, ops + tableOps, rows + tableRows;
      j := j + 1;
    }
    assert tableNames[..j] == tableNames;
  }

  /** The operations of one table, in the order of `opNames`. */
  method OpSummary(db: string, table: string, operations: map<string, Operation>, opNames: seq<string>)
    returns (order: seq<Entry>, ops: int, rows: int)
    requires forall o :: o in opNames ==> o in operations
    ensures order == OpEntries(db, table, opNames)
    ensures ops == SumKeys(operations, opNames, OpCount)
    ensures rows == SumKeys(operations, opNames, OpRows)
  {
    order, ops, rows := [], 0, 0;
    var k := 0;
    while k < |opNames|
      invariant 0 <= k <= |opNames|
      invariant order == OpEntries(db, table, opNames[..k])
      invariant ops == SumKeys(operations, opNames[..k], OpCount)
      invariant rows == SumKeys(operations, opNames[..k], OpRows)
    {
      var opStats := operations[opNames[k]];
      OpStep(db, table, operations, opNames, k);
      order := order + [Entry(db, table, opNames[k])];
      ops := ops + opStats.count;
      rows := rows + opStats.rowCount;
      k := k + 1;
    }
    assert opNames[..k] == opNames;
  }

  /** Summing over one more key adds that key's term. */
  lemma SumKeysSnoc<V>(m: map<string, V>, keys: seq<string>, j: nat, f: V -> int)
    requires j < |keys| && forall k :: k in keys ==> k in m
    ensures SumKeys(m, keys[..j + 1], f) == SumKeys(m, keys[..j], f) + f(m[keys[j]])
  {
    assert keys[..j + 1] == keys[..j] + [keys[j]];
    SumKeysConcat(m, keys[..j], [keys[j]], f);
    assert [keys[j]][1..] == [];
  }

  /** One more operation in `OpSummary`: its entry and its counts are added. */
  lemma OpStep(db: string, table: string, operations: map<string, Operation>, opNames: seq<string>, k: nat)
    requires k < |opNames| && forall o :: o in opNames ==> o in operations
    ensures OpEntries(db, table, opNames[..k + 1]) == OpEntries(db, table, opNames[..k]) + [Entry(db, table, opNames[k])]
    ensures SumKeys(operations, opNames[..k + 1], OpCount) == SumKeys(operations, opNames[..k], OpCount) + operations[opNames[k]].count
    ensures SumKeys(operations, opNames[..k + 1], OpRows) == SumKeys(operations, opNames[..k], OpRows) + operations[opNames[k]].rowCount
  {
    SumKeysSnoc(operations, opNames, k, OpCount);
    SumKeysSnoc(operations, opNames, k, OpRows);
  }

  /** One more table in `TableSummary`: its entries and its sums are added. */
  lemma TableStep(db: string, tables: map<string, TableStats>, names: seq<string>, j: nat)
    requires j < |names| && forall t :: t in names ==> t in tables
    ensures var ops := tables[names[j]].operations;
      && TableEntries(db, tables, names[..j + 1]) == TableEntries(db, tables, names[..j]) + OpEntries(db, names[j], SortedKeys(ops.Keys))
      && SumKeys(tables, names[..j + 1], TableCount) == SumKeys(tables, names[..j], TableCount) + SumKeys(ops, SortedKeys(ops.Keys), OpCount)
      && SumKeys(tables, names[..j + 1], TableRows) == SumKeys(tables, names[..j], TableRows) + SumKeys(ops, SortedKeys(ops.Keys), OpRows)
  {
    var ops := tables[names[j]].operations;
    TableEntriesSnoc(db, tables, names, j);
    SumKeysSnoc(tables, names, j, TableCount);
    SumKeysSnoc(tables, names, j, TableRows);
    SumSorted(ops, OpCount);
    SumSorted(ops, OpRows);
  }

  /** One more database in `Summary`: its entries and its sums are added. */
  lemma DbStep(s: StatsMap, names: seq<string>, i: nat)
    requires i < |names| && forall d :: d in names ==> d in s
    ensures var tables := s[names[i]];
      && DbEntries(s, names[..i + 1]) == DbEntries(s, names[..i]) + TableEntries(names[i], tables, SortedKeys(tables.Keys))
      && SumKeys(s, names[..i + 1], DbCount) == SumKeys(s, names[..i], DbCount) + SumKeys(tables, SortedKeys(tables.Keys), TableCount)
      && SumKeys(s, names[..i + 1], DbRows) == SumKeys(s, names[..i], DbRows) + SumKeys(tables, SortedKeys(tables.Keys), TableRows)
  {
    var tables := s[names[i]];
    DbEntriesSnoc(s, names, i);
    SumKeysSnoc(s, names, i, DbCount);
    SumKeysSnoc(s, names, i, DbRows);
    SumSorted(tables, TableCount);
    SumSorted(tables, TableRows);
  }

  lemma TableEntriesSnoc(db: string, tables: map<string, TableStats>, names: seq<string>, j: nat)
    requires j < |names| && forall t :: t in names ==> t in tables
    ensures TableEntries(db, tables, names[..j + 1])
      == TableEntries(db, tables, names[..j]) + OpEntries(db, names[j], SortedKeys(tables[names[j]].operations.Keys))
  {
    var t := names[j];
    assert names[..j + 1] == names[..j] + [t];
    TableEntriesConcat(db, tables, names[..j], [t]);
    assert [t][1..] == [];
  }

  lemma DbEntriesSnoc(s: StatsMap, names: seq<string>, i: nat)
    requires i < |names| && forall d :: d in names ==> d in s
    ensures DbEntries(s, names[..i + 1])
      == DbEntries(s, names[..i]) + TableEntries(names[i], s[names[i]], SortedKeys(s[names[i]].Keys))
  {
    var d := names[i];
    assert names[..i + 1] == names[..i] + [d];
    DbEntriesConcat(s, names[..i], [d]);
    assert [d][1..] == [];
  }

  lemma {:induction false} TableEntriesConcat(db: string, tables: map<string, TableStats>, a: seq<string>, b: seq<string>)
    requires forall t :: t in a + b ==> t in tables
    ensures TableEntries(db, tables, a + b) == TableEntries(db, tables, a) + TableEntries(db, tables, b)
    decreases |a|
  {
    if |a| == 0 {
      assert a + b == b;
    } else {
      assert (a + b)[0] == a[0];
      assert (a + b)[1..] == a[1..] + b;
      TableEntriesConcat(db, tables, a[1..], b);
    }
  }

  lemma {:induction false} DbEntriesConcat(s: StatsMap, a: seq<string>, b: seq<string>)
    requires forall d :: d in a + b ==> d in s
    ensures DbEntries(s, a + b) == DbEntries(s, a) + DbEntries(s, b)
    decreases |a|
  {
    if |a| == 0 {
      assert a + b == b;
    } else {
      assert (a + b)[0] == a[0];
      assert (a + b)[1..] == a[1..] + b;
      DbEntriesConcat(s, a[1..], b);
    }
  }
}
