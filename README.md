# go-parse, modelled in Dafny

go-parse reads MySQL binary logs. This project models its core:

- **The dumper** (`cmd/main.go`, module `DumpCli`). It checks the binlog magic header and picks a start position from `-all`, `-offset` or `-logPosition`. Its callback then handles the events the parser delivers:
  - it selects the event that starts at the position, or every event under `-all`;
  - it dumps selected events unless `-showStats` is given;
  - it records insert, update and delete row events in the statistics collector;
  - with `-stopAtNext`, it stops at the first later event once one was selected.

  Finally it prints the error the parse ended with. With `-showStats` it prints the event total and, once an operation was recorded, the operation report. `-listPositions` lists every event's end position instead.
- **The position tool** (`main.go`, module `PositionCli`). It dumps every event that ends at or after the start position and, with `-stopAtNext`, stops after the first one that ends past it. It stays quiet about one error text, which differs in case from the one its callback returns.
- **The statistics collector** (`pkg/stats/stats.go`, module `Stats`). Class `Statistics` holds:
  - the per-event-type counts and their total;
  - the nested database → table → operation map of operation and row counts.

  `Summary` visits the map in the order `PrintStats` prints it and computes its two totals.
- **The schema loader** (`pkg/schema/schema.go`, modules `Schema` and `SqlPatterns`). Class `SchemaStore` holds the process-wide map from `schema.table` to table definitions. It is filled from a decoded JSON document, or else from a SQL dump scanned line by line:
  - `USE` lines set the current schema;
  - statement text is buffered until a line ends in `;`;
  - `CreateTableRegex` and `ColumnDefRegex` pick out tables and columns.

  Both regular expressions are modelled as deterministic extractors that return the same submatches as Go's leftmost-first matcher.

Supporting modules:
- `Binlog`: the event header, and `uint32` arithmetic with wrap-around.
- `GoStrings`: the `strings` functions the source calls, decimal formatting, and the string order of `sort.Strings`, taken over characters.
- `Results`: `Option` and `Result`.

What the parser delivers is a parameter of each tool's `Execute`. That parameter is the events with their headers and row counts, followed by the parser's own error. The magic check takes the file's bytes, and the schema loader takes the scanned lines and the JSON decoding result.

The proofs cover the following:
- The dumper stops exactly at the first event that starts past the target after a selected one. It dumps exactly the selected events before that point.
- The statistics after a run equal those of recording each selected row event in order. The report totals equal the number of recorded operations and the sum of their rows.
- The report lists every recorded (database, table, operation) once, strictly ordered.
- A `CREATE TABLE` statement built from a name and column text is matched back to that name and text.
- `USE` followed by `CREATE TABLE` registers the table under the upper-cased schema.
- Every column parsed from SQL comes out nullable: the column-type group of `ColumnDefRegex` swallows any `NOT NULL`, so the modifier group is always empty.
- A table-map null bitmap packed from flags reads back bit by bit.

## Model

| member | source | states |
|---|---|---|
| Binlog.Uint32 | cmd/main.go:191 | `uint32(x)` is `x` for values in range and `x + 2^32` for negative ones down to `-2^32` |
| Binlog.Sub32 | cmd/main.go:173 | `uint32` subtraction: the plain difference when it is not negative, otherwise the difference plus `2^32` |
| Binlog.EventStart | cmd/main.go:173 | the start position plus the event size is the end position, modulo `2^32` when the size exceeds the end position |
| Binlog.StartWraps | cmd/main.go:173 | an event that ends at 4 with size 10 starts at `0xFFFFFFFA`, not at a negative position |
| DumpCli.CheckMagic | cmd/main.go:61-81 | no error exactly when the first four bytes are `FE 62 69 6E`; fewer than four bytes give the read-header error, four or more the bad-magic error |
| DumpCli.MagicOnlyPrefix | cmd/main.go:69-78 | only the first four bytes of the file decide the verdict |
| DumpCli.StartPosition | cmd/main.go:137-150 | `-all` starts at 4; otherwise `-offset` unless it is -1, then `-logPosition` unless -1, else the usage error; a chosen start is never -1 |
| DumpCli.AnySelectedWitness | cmd/main.go:170-192 | `eventsFound` after some events holds exactly when one of them was selected |
| DumpCli.FirstStopIsFirst | cmd/main.go:227-232 | no event before the stop point stops the parse, and the event at the stop point does, given whether an earlier event was selected |
| DumpCli.FirstStopAt | cmd/main.go:227-232 | having reached event `i` without stopping, the parse stops at `i` exactly when the callback's stop condition holds there |
| DumpCli.NeverStops | cmd/main.go:227-228 | without `-stopAtNext`, or with `-all`, every delivered event is handled |
| DumpCli.StopsAfterSelection | cmd/main.go:191-227 | the parse is only ever stopped after some event has been selected |
| DumpCli.SelectedSubsequence | cmd/main.go:191-203 | every dumped event is a delivered event that is selected, and there are no more of them than delivered events |
| DumpCli.SelectedSnoc | cmd/main.go:191-203 | one more event adds itself to the dumped events exactly when it is selected |
| DumpCli.AllSelected | cmd/main.go:191 | with `-all` every handled event is selected |
| DumpCli.StopMessageBare | cmd/main.go:230-241 | the callback's own stop error is printed without the `Error: ` prefix |
| DumpCli.RowOperation | cmd/main.go:205-225 | a row event of one of the six write/update/delete codes gives an operation and any other event none; write codes give `INSERT`, update codes `UPDATE` and delete codes `DELETE`, and each name comes from its codes only; updates count half their rows, rounded down, and inserts and deletes all rows |
| DumpCli.RecordOne | cmd/main.go:205-225 | a selected row event records exactly one operation, and any other event leaves the statistics alone |
| DumpCli.CallsFromSelected | cmd/main.go:191-225 | every recorded operation comes from a selected row event |
| DumpCli.HandleEvent | cmd/main.go:171-234 | one callback: `eventsFound`, the dump, the stop error and the new statistics, branch by branch; the event counts are untouched |
| DumpCli.ProcessEvents | cmd/main.go:169-235 | the dumped events are the selected events before the stop point; the statistics are those events' operations recorded in order; the error is the stop message, or else the parser's error |
| DumpCli.RecordAllConcat | pkg/stats/stats.go:39-60 | recording two lists of operations one after the other is recording their concatenation |
| DumpCli.FreshTotals | cmd/main.go:167 | from a fresh collector, the report totals are the number of recorded operations and the sum of their row counts |
| DumpCli.Execute | cmd/main.go:108-252 | bad magic ends the run; `-listPositions` lists positions from 4; a missing start is the usage error; otherwise the dump, the printed error line and, with `-showStats`, a `Total Events` count of 0 and, only when some operation was recorded, the ordered report and totals of a fresh collector |
| DumpCli.TypeName | cmd/main.go:92-95 | a listed column type prints its table entry, and any other type a name starting with `TYPE_`; the name is never empty |
| DumpCli.FallbackNameReadsBack | cmd/main.go:92-95 | an unlisted type prints as `TYPE_` followed by its decimal code, which parses back to the code |
| DumpCli.ListedNamesNotFallback | cmd/main.go:17-46 | no listed name looks like a fallback name |
| DumpCli.TypeNameInjective | cmd/main.go:92-95 | different column types never print the same name |
| DumpCli.ListedNamesDistinct | cmd/main.go:17-46 | the type-name table has no two codes with the same name |
| DumpCli.PackBitsBound | cmd/main.go:98 | `n` packed flags stay below `2^n`, so eight of them fit in one byte |
| DumpCli.Pack | cmd/main.go:98 | a null bitmap has one byte for every eight columns, rounded up |
| DumpCli.PackedBit | cmd/main.go:98 | bit `k` of a packed byte is flag `start + k` |
| DumpCli.NullBitmapRoundTrip | cmd/main.go:97-100 | column `i` reads as nullable from a packed bitmap exactly when its flag is set |
| GoStrings.UpperChar | pkg/schema/schema.go:88 | ASCII lower-case letters move to upper case and every other character stays |
| GoStrings.ToUpper | pkg/schema/schema.go:88 | same length; each character is upper-cased in place |
| GoStrings.ToUpperIdempotent | pkg/schema/schema.go:131 | upper-casing twice is upper-casing once |
| GoStrings.ToUpperConcat | pkg/schema/schema.go:88 | upper-casing distributes over concatenation |
| GoStrings.TrimPrefix | pkg/schema/schema.go:89 | with the prefix, the prefix followed by the result is the input; without it, the input comes back unchanged |
| GoStrings.TrimLeft | pkg/schema/schema.go:89 | the result is a suffix of the input that does not start with a cut character |
| GoStrings.TrimLeftRemovesCut | pkg/schema/schema.go:89 | everything removed on the left is a cut character |
| GoStrings.TrimRight | pkg/schema/schema.go:89 | the result is a prefix of the input that does not end with a cut character |
| GoStrings.TrimRightRemovesCut | pkg/schema/schema.go:89 | everything removed on the right is a cut character |
| GoStrings.TrimEnds | pkg/schema/schema.go:89 | a trimmed string is empty or starts and ends outside the cut set |
| GoStrings.TrimUntouched | pkg/schema/schema.go:89 | a string that starts and ends outside the cut set is its own trim |
| GoStrings.NatToString | main.go:57 | the decimal form of a natural number is a non-empty string of digits |
| GoStrings.IntToString | main.go:57 | non-empty, with a leading minus exactly for negative numbers |
| GoStrings.ParseNat | cmd/main.go:94 | a reader for the digits that `TYPE_%d` prints (Go parses nothing here; the proofs use it to read the code back): it accepts exactly the non-empty all-digit strings |
| GoStrings.ParseNatRoundTrip | cmd/main.go:94 | the `%d` digits of `n` read back to `n`, so the formatted code determines the code |
| GoStrings.LexIrreflexive | pkg/stats/stats.go:88 | no string sorts before itself |
| GoStrings.LexTransitive | pkg/stats/stats.go:88 | the string order is transitive |
| GoStrings.LexTotal | pkg/stats/stats.go:88 | any two different strings are ordered one way |
| GoStrings.LexAsymmetric | pkg/stats/stats.go:88 | never both `a < b` and `b < a` |
| GoStrings.LeastExists | pkg/stats/stats.go:84-88 | a non-empty set of keys has a least key |
| GoStrings.LeastUnique | pkg/stats/stats.go:84-88 | the least key is unique |
| GoStrings.Least | pkg/stats/stats.go:84-88 | the result is a key of the set, below every other key |
| GoStrings.LeastIs | pkg/stats/stats.go:84-88 | any least key is the one `Least` picks |
| GoStrings.SortedKeys | pkg/stats/stats.go:84-88 | the keys of a map, each once, strictly ascending |
| PositionCli.StartPosition | main.go:41-50 | `-offset` unless it is -1, then `-logPosition` unless -1, otherwise the usage error; a chosen start is never -1 |
| PositionCli.StopPointIsFirst | main.go:53-61 | no event before the stop point stops the parse, and the one at the stop point does |
| PositionCli.StopPointAt | main.go:54-57 | having reached event `i`, the parse stops after it exactly when it is dumped and ends past the start under `-stopAtNext` |
| PositionCli.Handled | main.go:53-61 | the events the callback sees are a prefix of those delivered |
| PositionCli.DumpedOnly | main.go:54-55 | every dumped event is a delivered event ending at or after `uint32(start)` |
| PositionCli.NoStopWithout | main.go:56 | without `-stopAtNext` the parse is never stopped and every event is seen |
| PositionCli.StopsAtFirstPast | main.go:54-57 | with `-stopAtNext` the last event seen is the first that ends past the start, and all before it end at or before it |
| PositionCli.DumpedOneMore | main.go:54-55 | one more event adds itself to the dump exactly when it ends at or after the start |
| PositionCli.StopMessageNeverSuppressed | main.go:57-65 | the callback's `reached log position` error is never the suppressed text, so it is always printed |
| PositionCli.ProcessEvents | main.go:52-61 | the dump is the events at or after the start among those seen; the error is the stop message when the parse was stopped, else the parser's error |
| PositionCli.LogPositions | main.go:68-73 | one position per event, in order, each the event's end position |
| PositionCli.ListPositions | main.go:68-78 | lists the end positions of all events in order, then the parser's error |
| PositionCli.Execute | main.go:36-65 | `-listPositions` lists from position 4; a missing start is the usage error; otherwise the dumped events and the printed error of a parse from the start |
| Schema.KeyAmbiguous | pkg/schema/schema.go:111 | the `schema.table` key is ambiguous: `a.b`/`c` and `a`/`b.c` collide |
| Schema.KeptConcat | pkg/schema/schema.go:124-140 | the columns of concatenated match lists are the concatenated columns |
| Schema.KeptSingle | pkg/schema/schema.go:125-139 | a match gives its column unless its name starts a key clause |
| Schema.KeptFromMatches | pkg/schema/schema.go:124-140 | every column comes from a match whose name is not a key clause, and there are no more columns than matches |
| Schema.MatchesKept | pkg/schema/schema.go:124-140 | every match whose name is not a key clause gives its column |
| Schema.KeyLikeNameDropped | pkg/schema/schema.go:125-128 | a column named `key_id` is dropped, because the key-clause test is a plain prefix test |
| Schema.KeptAllNullable | pkg/schema/schema.go:132 | matches with empty modifiers give only nullable columns |
| Schema.SqlColumnsNullable | pkg/schema/schema.go:120-143 | every column parsed from SQL is nullable, whatever its text says |
| Schema.KeptTypesUpper | pkg/schema/schema.go:131 | column types come out upper-cased |
| Schema.ParseColumns | pkg/schema/schema.go:120-143 | the loop builds exactly the kept columns of all `ColumnDefRegex` matches, in order |
| Schema.SkippedLine | pkg/schema/schema.go:80-85 | empty and comment lines change nothing |
| Schema.UseLine | pkg/schema/schema.go:88-91 | a `USE` line sets the current schema to its upper-cased argument with spaces, semicolons and backticks trimmed, and changes nothing else |
| Schema.StatementLine | pkg/schema/schema.go:93-94 | any other line is statement text, the line trimmed of white space |
| Schema.TextLine | pkg/schema/schema.go:93-98 | text joins the buffer with one space; a line ending in `;` empties the buffer and hands the statement on; the schema is kept |
| Schema.UnmatchedStatement | pkg/schema/schema.go:96-101 | a statement `CreateTableRegex` does not match leaves the map as it was |
| Schema.MatchedStatement | pkg/schema/schema.go:101-113 | a matched statement adds or replaces exactly the entry under the current schema and backtick-trimmed name |
| Schema.InsertOne | pkg/schema/schema.go:101-113 | inserting a match touches exactly one key, which then holds the table with its parsed columns |
| Schema.AdvanceBuffer | pkg/schema/schema.go:93-98 | one line keeps the buffer empty or ending in a space |
| Schema.BufferShape | pkg/schema/schema.go:79-115 | the buffer is always empty or ends in a space |
| Schema.AdvanceKeys | pkg/schema/schema.go:79-115 | one line never removes a key |
| Schema.KeysGrow | pkg/schema/schema.go:79-115 | scanning never removes a key from the map |
| Schema.UseLineClassified | pkg/schema/schema.go:88-89 | `USE db;` is read as setting the schema to the upper-cased `db` |
| Schema.CreateLineClassified | pkg/schema/schema.go:80-94 | a one-line `CREATE TABLE` statement is statement text |
| Schema.CreateStep | pkg/schema/schema.go:93-112 | a one-line `CREATE TABLE` with an empty buffer registers exactly its table under the current schema and leaves the buffer empty |
| Schema.UseThenCreate | pkg/schema/schema.go:79-115 | `USE db;` followed by a `CREATE TABLE` line loads exactly that table under the upper-cased `db` |
| Schema.StoreAllKeys | pkg/schema/schema.go:60-63 | the JSON tables add one key each, `schema.name`, and keep the old keys |
| Schema.StoreAllLastWins | pkg/schema/schema.go:60-63 | of decoded tables sharing a key, the last one stays |
| Schema.StoreAllOthers | pkg/schema/schema.go:60-63 | keys no decoded table has keep their old entries |
| Schema.SchemaStore.constructor | pkg/schema/schema.go:28 | the map starts empty |
| Schema.SchemaStore.GetTableDef | pkg/schema/schema.go:145-148 | found exactly when `schema.table` is a key, and then its entry |
| Schema.SchemaStore.GetTableDefByKey | pkg/schema/schema.go:145-148 | two lookups whose keys collide return the same definition |
| Schema.SchemaStore.ParseJSONSchema | pkg/schema/schema.go:54-66 | the map after storing the decoded tables in order |
| Schema.SchemaStore.ScanLine | pkg/schema/schema.go:80-114 | one pass of the scanner loop moves the schema, buffer and map on as the classified line says |
| Schema.SchemaStore.AddText | pkg/schema/schema.go:93-114 | statement text into the buffer, and on `;` the statement flushed and registered |
| Schema.SchemaStore.RegisterStatement | pkg/schema/schema.go:101-113 | the map afterwards is the map with the statement's table registered, if it matches |
| Schema.SchemaStore.ParseSQLSchema | pkg/schema/schema.go:68-118 | the map after the loop over all lines, and the scanner's error |
| Schema.SchemaStore.LoadSchemaFile | pkg/schema/schema.go:39-52 | a read error is wrapped and changes nothing; a decoded JSON document is stored; otherwise the SQL reading applies, with its error |
| SqlPatterns.RunEnd | pkg/schema/schema.go:31-32 | a greedy run ends within the string, at the end or at the first character outside the class |
| SqlPatterns.TypeEnd | pkg/schema/schema.go:35 | the column-type group ends on a token character, followed by spaces and then a comma or the end |
| SqlPatterns.ColumnSpanAt | pkg/schema/schema.go:33-36 | a `ColumnDefRegex` match lies within the text; its modifier group is empty and its type starts and ends on token characters |
| SqlPatterns.ColumnMatchAt | pkg/schema/schema.go:33-36 | a match moves strictly forward, and its modifiers are empty |
| SqlPatterns.ColumnMatchShape | pkg/schema/schema.go:33-36 | the name submatch is one token, and the type is tokens separated by white space |
| SqlPatterns.MatchesShape | pkg/schema/schema.go:122 | every match found has such a name and type |
| SqlPatterns.ModifiersAlwaysEmpty | pkg/schema/schema.go:33-36 | the modifier group of every match is empty |
| SqlPatterns.NoMatchInSpace | pkg/schema/schema.go:122 | white space alone has no matches |
| SqlPatterns.ClauseMatch | pkg/schema/schema.go:33-36 | `name type` after spaces, then a comma, the end or trailing spaces, is matched with exactly that name and type |
| SqlPatterns.ClauseThenComma | pkg/schema/schema.go:122 | a clause followed by a comma gives its column, then the matches after the comma |
| SqlPatterns.ClauseThenEnd | pkg/schema/schema.go:122 | a clause followed by spaces only gives exactly its column |
| SqlPatterns.TableRest | pkg/schema/schema.go:32 | a match has a non-empty name without spaces or `(`, column text without `)`, and a `;` after it |
| SqlPatterns.CreateTableAt | pkg/schema/schema.go:31-32 | a match starts with `CREATE TABLE` in any case |
| SqlPatterns.FindCreateTable | pkg/schema/schema.go:101 | a statement is matched only if it contains `CREATE TABLE` somewhere |
| SqlPatterns.NoKeywordNoMatch | pkg/schema/schema.go:101 | a statement without `CREATE TABLE` or without `;` is not matched |
| SqlPatterns.TableRestAt | pkg/schema/schema.go:32 | `name (columns); ` is matched with exactly that name and column text |
| SqlPatterns.UnqualifiedMatch | pkg/schema/schema.go:31-32 | an unqualified `CREATE TABLE name (columns); ` gives back name and columns |
| SqlPatterns.QualifiedMatch | pkg/schema/schema.go:31-32 | `CREATE TABLE db.name (columns); ` gives back name and columns, dropping the qualifier |
| SqlPatterns.CreateTableRoundTrip | pkg/schema/schema.go:31-32 | a statement built from a name and column text is matched back to them |
| Stats.CountsFromUpdate | pkg/stats/stats.go:34-37 | changing one type's count changes the sum over types by the difference |
| Stats.EventTotalUpdate | pkg/stats/stats.go:34-37 | the total over all event types moves by the change of one count |
| Stats.RecordedHit | pkg/stats/stats.go:39-60 | recording creates the entry if needed and adds one operation and the rows to it |
| Stats.RecordedOthers | pkg/stats/stats.go:39-60 | recording leaves every other (database, table, operation) as it was |
| Stats.FreshEmpty | pkg/stats/stats.go:77 | a fresh collector has an empty operation map exactly when no operation was recorded, so the operation section is printed exactly after some recording |
| Stats.Replay | pkg/stats/stats.go:39-60 | from empty, each entry holds the number of calls under its key and the sum of their rows, and exists exactly when there was such a call |
| Stats.SumSorted | pkg/stats/stats.go:81-120 | summing in ascending key order gives the sum over the map |
| Stats.SumMapUpdate | pkg/stats/stats.go:57-59 | replacing one entry changes a map's sum by the difference of the entries |
| Stats.RecordedTotals | pkg/stats/stats.go:39-60 | one recording adds one to the total operations and its rows to the total rows |
| Stats.ReplayTotals | pkg/stats/stats.go:118-127 | from empty, the totals are the number of recordings and the sum of their rows |
| Stats.OpEntries | pkg/stats/stats.go:113-117 | one entry per operation name, in the given order |
| Stats.OpEntriesOrdered | pkg/stats/stats.go:107-113 | operations of one table come out in report order |
| Stats.TableEntriesOrdered | pkg/stats/stats.go:96-113 | the tables of one database come out in report order |
| Stats.DbEntriesOrdered | pkg/stats/stats.go:84-113 | the databases come out in report order |
| Stats.TableEntriesFrom | pkg/stats/stats.go:96-113 | every entry of a database's report names one of its tables and operations |
| Stats.DbEntriesFrom | pkg/stats/stats.go:84-113 | every entry of the report names a recorded database, table and operation |
| Stats.TableEntriesComplete | pkg/stats/stats.go:96-113 | every operation of a listed table appears |
| Stats.DbEntriesComplete | pkg/stats/stats.go:84-113 | every recorded operation of a listed database appears |
| Stats.ReportOrder | pkg/stats/stats.go:83-120 | the report is strictly ordered by database, table and operation, and lists exactly the recorded entries |
| Stats.Statistics.constructor | pkg/stats/stats.go:26-32 | a new collector is empty and its total is the sum of its counts |
| Stats.Statistics.RecordEventType | pkg/stats/stats.go:34-37 | one more event of the type and one more in total; the total stays the sum of the counts |
| Stats.Statistics.RecordOperation | pkg/stats/stats.go:39-60 | the operation map after one recording; the event counts are untouched |
| Stats.Statistics.Summary | pkg/stats/stats.go:77-127 | the entries in printed order are the report, and the totals are the total operations and rows recorded; `PrintStats` prints this section only when the map is not empty, a gate `DumpCli.Execute` applies |
| Stats.DatabaseSummary | pkg/stats/stats.go:90-122 | the loop over databases yields their entries and sums, in the given order |
| Stats.TableSummary | pkg/stats/stats.go:102-121 | the loop over tables yields their entries and sums, in the given order |
| Stats.OpSummary | pkg/stats/stats.go:113-120 | the loop over operations yields their entries, operation counts and row counts |

## Left out

- Files, flags and printing. Opening and reading files, `os.Stat` existence checks, flag parsing, the usage text and exits are not modelled. The outcome datatypes state what is printed, not its format.
- The binlog parser. Event decoding and `ParseFile` are not part of this model: the events it delivers, and its own error, are inputs. `e.Dump` output is represented by the dumped events themselves.
- The table-map dump format. Only the type name and the null-bitmap test of `dumpTableMapEvent` are modelled, not its lines of output. Which events are table-map events is also not modelled: every selected event counts as dumped.
- DumpCli.ColumnNullable: requires the bitmap to cover column `i`; Go would panic on a short bitmap.
- Schema registry calls in `cmd/main.go`. `-schema` and `-verbose` call `NewSchemaRegistry`, `LoadFromFile`, `PrintSummary`, `GetTableInfo` and `PrintWarnings`, which `pkg/schema/schema.go` does not define. They affect only printing and exits, and are not part of this model.
- `listAllLogPositions` in `cmd/main.go` is the same as the one in `main.go`. Both tools use `PositionCli.ListPositions`.
- `json.Unmarshal` is not modelled: its result, the decoded tables or a failure, is an input of `LoadSchemaFile`.
- Line splitting by `bufio.Scanner` is not modelled: the scanned lines and the scanner's error are inputs. So is its 64 KiB line limit.
- Regular expressions in general. Only the two fixed patterns are modelled, as deterministic extractors. `(?i)` and `strings.ToUpper` fold ASCII letters only; Go also folds other Unicode letters.
- Time. `StartTime`, the duration, the per-second rates and the floating-point averages of `PrintStats` are left out, as is the event-type breakdown, which Go prints in random map order.
- Integer widths. Counters and row counts are unbounded integers, so Go `int` overflow is not modelled. The `-offset` and `-logPosition` values are `int64` and modelled as integers, with `uint32(x)` written out for the comparisons.
- `Total Events`. `cmd/main.go` never calls `RecordEventType`, so the count `PrintStats` prints is always 0. The model states that 0 and leaves out the rest of that line.
- Byte order of names. `sort.Strings` compares bytes, and the model compares characters. The two orders agree on valid UTF-8, so database, table and operation names are taken to be valid UTF-8. Go accepts any bytes from `rowsEvent.Table.Schema`.
- Pointer sharing. The map values in Go are pointers (`*TableDef`, `*TableStats`, `*Operation`) and are modelled as values. Nothing in the core aliases them.
- Schema.UseLine: states the new schema and that nothing else changes. That the new schema neither starts nor ends with a trimmed character is stated separately by `GoStrings.TrimEnds`.
