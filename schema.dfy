/**
 The schema loader: table definitions read from a JSON document or from a SQL dump,
 kept in one process-wide map from `schema.table` to the table's definition.
 */
module Schema {
  import opened Results
  import opened GoStrings
  import opened SqlPatterns

  datatype ColumnDef = ColumnDef(name: string, colType: string, nullable: bool)

  datatype TableDef = TableDef(name: string, schema: string, columns: seq<ColumnDef>)

  /** The map key `fmt.Sprintf("%s.%s", schema, table)`. */
  function Key(schema: string, table: string): string {
    schema + "." + table
  }

  /** Two different (schema, table) pairs can share a key: the dot is not escaped. */
  lemma KeyAmbiguous()
    ensures Key("a.b", "c") == Key("a", "b.c")
  {
  }

  // ---------------------------------------------------------------------------
  // parseColumns

  const Backtick: set<char> := {'`'}

  /** A group-1 name the parser treats as a key or constraint clause, not a column. */
  predicate IsKeyClause(name: string) {
    var u := ToUpper(name);
    HasPrefix(u, "PRIMARY") || HasPrefix(u, "KEY") || HasPrefix(u, "INDEX") || HasPrefix(u, "CONSTRAINT")
  }

  /** The column a kept match describes. */
  function ColumnOf(m: ColumnMatch): ColumnDef {
    ColumnDef(Trim(m.name, Backtick), ToUpper(m.colType), !Contains(ToUpper(m.modifiers), "NOT NULL"))
  }

  /** The columns `parseColumns` builds from a list of matches: key clauses dropped, order kept. */
  function KeptColumns(ms: seq<ColumnMatch>): seq<ColumnDef>
    decreases |ms|
  {
    if |ms| == 0 then []
    else if IsKeyClause(ms[0].name) then KeptColumns(ms[1..])
    else [ColumnOf(ms[0])] + KeptColumns(ms[1..])
  }

  /** What `parseColumns` returns for a column text. */
  function Columns(columnDefs: string): seq<ColumnDef> {
    KeptColumns(FindAllColumns(columnDefs))
  }

  /** The columns of a concatenation of match lists are those of each list, in order. */
  lemma {:induction false} KeptConcat(a: seq<ColumnMatch>, b: seq<ColumnMatch>)
    ensures KeptColumns(a + b) == KeptColumns(a) + KeptColumns(b)
    decreases |a|
  {
    if |a| == 0 {
      assert a + b == b;
    } else {
      assert (a + b)[0] == a[0];
      assert (a + b)[1..] == a[1..] + b;
      KeptConcat(a[1..], b);
      if !IsKeyClause(a[0].name) {
        var x := [ColumnOf(a[0])];
        assert x + KeptColumns(a[1..]) + KeptColumns(b) == x + (KeptColumns(a[1..]) + KeptColumns(b));
      }
    }
  }

  /** A single match gives its column, unless its name marks a key clause. */
  lemma KeptSingle(m: ColumnMatch)
    ensures KeptColumns([m]) == if IsKeyClause(m.name) then [] else [ColumnOf(m)]
  {
    assert [m][1..] == [];
  }

  /** Extending a match list by one match extends its columns by that match's column, if any. */
  lemma KeptSnoc(ms: seq<ColumnMatch>, i: nat)
    requires i < |ms|
    ensures KeptColumns(ms[..i + 1])
      == KeptColumns(ms[..i]) + if IsKeyClause(ms[i].name) then [] else [ColumnOf(ms[i])]
  {
    assert ms[..i + 1] == ms[..i] + [ms[i]];
    KeptConcat(ms[..i], [ms[i]]);
    KeptSingle(ms[i]);
  }

  /** Every kept column comes from a match whose name is not a key clause. */
  lemma {:induction false} KeptFromMatches(ms: seq<ColumnMatch>)
    ensures |KeptColumns(ms)| <= |ms|
    ensures forall c :: c in KeptColumns(ms) ==>
      exists m :: m in ms && !IsKeyClause(m.name) && c == ColumnOf(m)
    decreases |ms|
  {
    if |ms| > 0 {
      KeptFromMatches(ms[1..]);
      forall c | c in KeptColumns(ms)
        ensures exists m :: m in ms && !IsKeyClause(m.name) && c == ColumnOf(m)
      {
        if c in KeptColumns(ms[1..]) {
          var m :| m in ms[1..] && !IsKeyClause(m.name) && c == ColumnOf(m);
          assert m in ms;
        } else {
          assert c == ColumnOf(ms[0]);
        }
      }
    }
  }

  /** Every match whose name is not a key clause gives a column. */
  lemma {:induction false} MatchesKept(ms: seq<ColumnMatch>)
    ensures forall m :: m in ms && !IsKeyClause(m.name) ==> ColumnOf(m) in KeptColumns(ms)
    decreases |ms|
  {
    if |ms| > 0 {
      MatchesKept(ms[1..]);
      forall m | m in ms && !IsKeyClause(m.name) ensures ColumnOf(m) in KeptColumns(ms) {
        if m != ms[0] {
          assert m in ms[1..];
        }
      }
    }
  }

  /** A name such as `key_id` is taken for a key clause: the test is a plain prefix test. */
  lemma KeyLikeNameDropped()
    ensures IsKeyClause("key_id")
    ensures KeptColumns([ColumnMatch("key_id", "int", "")]) == []
  {
    assert ToUpper("key_id")[..3] == "KEY";
    KeptSingle(ColumnMatch("key_id", "int", ""));
  }

  /** No match of ColumnDefRegex gives a column that is NOT NULL. */
  lemma {:induction false} KeptAllNullable(ms: seq<ColumnMatch>)
    requires forall m :: m in ms ==> m.modifiers == ""
    ensures forall c :: c in KeptColumns(ms) ==> c.nullable
    decreases |ms|
  {
    if |ms| > 0 {
      KeptAllNullable(ms[1..]);
      assert ToUpper("") == "";
      assert !Contains("", "NOT NULL");
    }
  }

  /** Columns parsed from SQL are always nullable, whatever the column text says. */
  lemma SqlColumnsNullable(columnDefs: string)
    ensures forall c :: c in Columns(columnDefs) ==> c.nullable
  {
    ModifiersAlwaysEmpty(columnDefs, 0);
    KeptAllNullable(FindAllColumns(columnDefs));
  }

  /** Column types come out upper-cased. */
  lemma {:induction false} KeptTypesUpper(ms: seq<ColumnMatch>)
    ensures forall c :: c in KeptColumns(ms) ==> ToUpper(c.colType) == c.colType
    decreases |ms|
  {
    if |ms| > 0 {
      KeptTypesUpper(ms[1..]);
      ToUpperIdempotent(ms[0].colType);
    }
  }

  /** `parseColumns`: one pass over the matches, appending each kept column. */
  method ParseColumns(columnDefs: string) returns (columns: seq<ColumnDef>)
    ensures columns == Columns(columnDefs)
  {
    var matches := FindAllColumns(columnDefs);
    columns := [];
    var i := 0;
    while i < |matches|
      invariant 0 <= i <= |matches|
      invariant columns == KeptColumns(matches[..i])
    {
      var m := matches[i];
      KeptSnoc(matches, i);
      if !IsKeyClause(m.name) {
        columns := columns + [ColumnOf(m)];
      }
      i := i + 1;
    }
    assert matches[..|matches|] == matches;
  }

  // ---------------------------------------------------------------------------
  // parseSQLSchema, one line at a time

  /** What a scanned line is, once trimmed. */
  datatype LineKind =
    | Skip                      // empty, `--` comment or `/*` comment
    | Use(schema: string)       // `USE name`
    | Text(line: string)        // part of a statement

  const UseCut: set<char> := {' ', ';', '`'}

  function Classify(raw: string): LineKind {
    var line := TrimSpace(raw);
    if line == "" || HasPrefix(line, "--") || HasPrefix(line, "/*") then Skip
    else if HasPrefix(ToUpper(line), "USE ") then Use(Trim(TrimPrefix(ToUpper(line), "USE "), UseCut))
    else Text(line)
  }

  /** The loop's state: the schema named by the last `USE`, the statement buffer, the map. */
  datatype LoaderState = LoaderState(currentSchema: string, buffer: string, tables: map<string, TableDef>)

  /** A complete statement registers a table when CreateTableRegex matches it. */
  function Register(tables: map<string, TableDef>, currentSchema: string, sql: string): map<string, TableDef> {
    match MatchCreateTable(sql)
    case None => tables
    case Some(m) => Insert(tables, currentSchema, m)
  }

  /** The table a match describes, stored under the current schema and its backtick-trimmed name. */
  function Insert(tables: map<string, TableDef>, currentSchema: string, m: CreateTableMatch): map<string, TableDef> {
    var name := Trim(m.table, Backtick);
    tables[Key(currentSchema, name) := TableDef(name, currentSchema, Columns(m.columnDefs))]
  }

  /** A complete statement leaves the buffer and goes to the matcher. */
  function Flush(st: LoaderState, sql: string): LoaderState {
    LoaderState(st.currentSchema, "", Register(st.tables, st.currentSchema, sql))
  }

  /** One iteration of the scanner loop, once the line is classified. */
  function Advance(st: LoaderState, k: LineKind): LoaderState {
    match k
    case Skip => st
    case Use(schema) => st.(currentSchema := schema)
    case Text(line) =>
      if HasSuffix(line, ";") then Flush(st, st.buffer + line + " ")
      else st.(buffer := st.buffer + line + " ")
  }

  /** The scanned lines, classified one by one. */
  function Kinds(lines: seq<string>): seq<LineKind> {
    seq(|lines|, i requires 0 <= i < |lines| => Classify(lines[i]))
  }

  /** The state after the loop has handled the classified lines `ks`. */
  function Run(st: LoaderState, ks: seq<LineKind>): LoaderState
    decreases |ks|
  {
    if |ks| == 0 then st else Advance(Run(st, ks[..|ks| - 1]), ks[|ks| - 1])
  }

  /** The state `parseSQLSchema` leaves after reading `lines` into the map `tables`. */
  function LoadLines(tables: map<string, TableDef>, lines: seq<string>): LoaderState {
    Run(LoaderState("", "", tables), Kinds(lines))
  }

  /** Blank lines and comment lines are skipped, and a skipped line changes nothing. */
  lemma SkippedLine(st: LoaderState, raw: string)
    requires var line := TrimSpace(raw); line == "" || HasPrefix(line, "--") || HasPrefix(line, "/*")
    ensures Classify(raw) == Skip
    ensures Advance(st, Classify(raw)) == st
  {
  }

  /** A `USE` line sets the current schema to its upper-cased, trimmed argument and nothing else. */
  lemma UseLine(st: LoaderState, raw: string)
    requires var line := TrimSpace(raw);
      line != "" && !HasPrefix(line, "--") && !HasPrefix(line, "/*") && HasPrefix(ToUpper(line), "USE ")
    ensures TrimPrefix(ToUpper(TrimSpace(raw)), "USE ") == ToUpper(TrimSpace(raw))[4..]
    ensures Classify(raw) == Use(Trim(ToUpper(TrimSpace(raw))[4..], UseCut))
    ensures Advance(st, Classify(raw)).currentSchema == Trim(ToUpper(TrimSpace(raw))[4..], UseCut)
    ensures Advance(st, Classify(raw)).buffer == st.buffer
    ensures Advance(st, Classify(raw)).tables == st.tables
  {
    var u := ToUpper(TrimSpace(raw));
    assert TrimPrefix(u, "USE ") == u[4..];
  }

  /** Every other line is statement text, trimmed of white space. */
  lemma StatementLine(raw: string)
    requires var line := TrimSpace(raw);
      line != "" && !HasPrefix(line, "--") && !HasPrefix(line, "/*") && !HasPrefix(ToUpper(line), "USE ")
    ensures Classify(raw) == Text(TrimSpace(raw))
  {
  }

  /** Statement text goes into the buffer followed by one space; a line ending in `;` flushes it. */
  lemma TextLine(st: LoaderState, line: string)
    ensures var st' := Advance(st, Text(line));
      && st'.currentSchema == st.currentSchema
      && (HasSuffix(line, ";") ==> st' == Flush(st, st.buffer + line + " ") && st'.buffer == "")
      && (!HasSuffix(line, ";") ==> st'.buffer == st.buffer + line + " " && st'.tables == st.tables)
  {
  }

  /** A flushed statement that does not match leaves the map as it was. */
  lemma UnmatchedStatement(st: LoaderState, sql: string)
    requires MatchCreateTable(sql).None?
    ensures Flush(st, sql) == LoaderState(st.currentSchema, "", st.tables)
  {
  }

  /**
   A flushed statement that matches adds or replaces exactly one entry, under the current
   schema and the table name with its backticks trimmed.
   */
  lemma MatchedStatement(st: LoaderState, sql: string)
    requires MatchCreateTable(sql).Some?
    ensures var m, t := MatchCreateTable(sql).value, Flush(st, sql).tables;
      var name := Trim(m.table, Backtick);
      var k := Key(st.currentSchema, name);
      && t.Keys == st.tables.Keys + {k}
      && t[k] == TableDef(name, st.currentSchema, Columns(m.columnDefs))
      && (forall k' :: k' in st.tables && k' != k ==> t[k'] == st.tables[k'])
  {
    InsertOne(st.tables, st.currentSchema, MatchCreateTable(sql).value);
  }

  /** Inserting a match adds or replaces exactly one entry. */
  lemma InsertOne(tables: map<string, TableDef>, currentSchema: string, m: CreateTableMatch)
    ensures var t, name := Insert(tables, currentSchema, m), Trim(m.table, Backtick);
      var k := Key(currentSchema, name);
      && t.Keys == tables.Keys + {k}
      && t[k] == TableDef(name, currentSchema, Columns(m.columnDefs))
      && (forall k' :: k' in tables && k' != k ==> t[k'] == tables[k'])
  {
    var name := Trim(m.table, Backtick);
    Put(tables, Key(currentSchema, name), TableDef(name, currentSchema, Columns(m.columnDefs)));
  }

  lemma Put<K, V>(m: map<K, V>, k: K, v: V)
    ensures m[k := v].Keys == m.Keys + {k} && m[k := v][k] == v
    ensures forall k' :: k' in m && k' != k ==> m[k := v][k'] == m[k']
  {
  }

  /** The buffer stays empty or ending with the space written after a line. */
  lemma AdvanceBuffer(st: LoaderState, k: LineKind)
    requires st.buffer == [] || st.buffer[|st.buffer| - 1] == ' '
    ensures var b := Advance(st, k).buffer; b == [] || b[|b| - 1] == ' '
  {
  }

  /** Entries are only ever added or replaced. */
  lemma AdvanceKeys(st: LoaderState, k: LineKind)
    ensures st.tables.Keys <= Advance(st, k).tables.Keys
  {
  }

  /** The buffer is always empty or ends with the space written after a line. */
  lemma {:induction false} BufferShape(st: LoaderState, ks: seq<LineKind>)
    requires st.buffer == [] || st.buffer[|st.buffer| - 1] == ' '
    ensures var b := Run(st, ks).buffer; b == [] || b[|b| - 1] == ' '
    decreases |ks|
  {
    if |ks| > 0 {
      BufferShape(st, ks[..|ks| - 1]);
      AdvanceBuffer(Run(st, ks[..|ks| - 1]), ks[|ks| - 1]);
    }
  }

  /** Entries are never removed. */
  lemma {:induction false} KeysGrow(st: LoaderState, ks: seq<LineKind>)
    ensures st.tables.Keys <= Run(st, ks).tables.Keys
    decreases |ks|
  {
    if |ks| > 0 {
      KeysGrow(st, ks[..|ks| - 1]);
      AdvanceKeys(Run(st, ks[..|ks| - 1]), ks[|ks| - 1]);
    }
  }

  /** The text of a `USE db;` line and of a one-line `CREATE TABLE name (columns);`. */
  function UseLineText(db: string): string {
    "USE " + db + ";"
  }

  function CreateLineText(name: string, columnDefs: string): string {
    "CREATE TABLE " + name + " (" + columnDefs + ");"
  }

  /** A line that starts and ends with a character that is not white space is not trimmed. */
  lemma Untrimmed(line: string)
    requires line != [] && line[0] !in UnicodeSpaces && line[|line| - 1] !in UnicodeSpaces
    ensures TrimSpace(line) == line
  {
    TrimUntouched(line, UnicodeSpaces);
  }

  /** A line that starts with a letter other than `u` or `U` is statement text. */
  lemma TextByFirstChar(line: string)
    requires line != [] && line[0] !in UnicodeSpaces && line[|line| - 1] !in UnicodeSpaces
    requires line[0] != '-' && line[0] != '/' && UpperChar(line[0]) != 'U'
    ensures Classify(line) == Text(line)
  {
    Untrimmed(line);
    assert ToUpper(line)[0] != 'U';
  }

  lemma UpperUseLine(db: string)
    ensures ToUpper(UseLineText(db)) == "USE " + (ToUpper(db) + ";")
  {
    ToUpperConcat("USE ", db + ";");
    ToUpperConcat(db, ";");
    assert ToUpper("USE ") == "USE ";
    assert ToUpper(";") == ";";
    assert UseLineText(db) == "USE " + (db + ";");
  }

  /** The argument of `USE`, once the `;` is trimmed off again. */
  lemma TrimUseArgument(ud: string)
    requires ud != [] && ud[0] !in UseCut && ud[|ud| - 1] !in UseCut
    ensures Trim(ud + ";", UseCut) == ud
  {
    var x := ud + ";";
    assert TrimLeft(x, UseCut) == x;
    assert x[..|x| - 1] == ud;
    assert TrimRight(ud, UseCut) == ud;
  }

  lemma UpperOutsideCut(c: char)
    requires c !in UseCut
    ensures UpperChar(c) !in UseCut
  {
  }

  /** `USE db;` upper-cased, with `USE ` removed and the cut set trimmed, is `db` upper-cased. */
  lemma UseArgument(db: string)
    requires db != [] && db[0] !in UseCut && db[|db| - 1] !in UseCut
    ensures HasPrefix(ToUpper(UseLineText(db)), "USE ")
    ensures Trim(TrimPrefix(ToUpper(UseLineText(db)), "USE "), UseCut) == ToUpper(db)
  {
    UpperUseLine(db);
    var ud := ToUpper(db);
    assert TrimPrefix(ToUpper(UseLineText(db)), "USE ") == ud + ";";
    assert ud[0] == UpperChar(db[0]);
    assert ud[|ud| - 1] == UpperChar(db[|db| - 1]);
    UpperOutsideCut(db[0]);
    UpperOutsideCut(db[|db| - 1]);
    TrimUseArgument(ud);
  }

  lemma UseLineClassified(db: string)
    requires db != [] && db[0] !in UseCut && db[|db| - 1] !in UseCut
    ensures Classify(UseLineText(db)) == Use(ToUpper(db))
  {
    var line := UseLineText(db);
    assert line[0] == 'U' && line[|line| - 1] == ';';
    Untrimmed(line);
    UseArgument(db);
  }

  lemma CreateLineClassified(name: string, columnDefs: string)
    ensures Classify(CreateLineText(name, columnDefs)) == Text(CreateLineText(name, columnDefs))
  {
    var line := CreateLineText(name, columnDefs);
    assert line == "CREATE TABLE " + (name + " (" + columnDefs + ");");
    assert line[0] == 'C' && line[|line| - 1] == ';';
    TextByFirstChar(line);
  }

  /** The buffer after the `CREATE TABLE` line is the statement text followed by one space. */
  lemma LineIsStatement(name: string, columnDefs: string)
    ensures "" + CreateLineText(name, columnDefs) + " " == CreateStatement("", name, columnDefs)
  {
    var a := "CREATE TABLE " + name + " (" + columnDefs;
    assert CreateLineText(name, columnDefs) == a + ");";
    assert CreateStatement("", name, columnDefs) == a + "); " by {
      assert "CREATE TABLE " + "" == "CREATE TABLE ";
    }
    assert ");" + " " == "); ";
    assert "" + (a + ");") + " " == a + (");" + " ");
  }

  lemma KindsPair(first: string, second: string)
    ensures Kinds([first, second]) == [Classify(first), Classify(second)]
  {
  }

  lemma RunPair(st: LoaderState, first: LineKind, second: LineKind)
    ensures Run(st, [first, second]) == Advance(Advance(st, first), second)
  {
    var ks := [first, second];
    assert ks[..1] == [first];
    assert [first][..0] == [];
    assert Run(st, [first]) == Advance(Run(st, []), first);
    assert ks[|ks| - 1] == second;
  }

  /** A one-line `CREATE TABLE` on an empty buffer registers its table under the current schema. */
  lemma CreateStep(st: LoaderState, name: string, columnDefs: string)
    requires st.buffer == ""
    requires |name| > 0 && AllIn(name, NameChar) && AllIn(name, NotDot)
    requires AllIn(columnDefs, BodyChar) && AllIn(columnDefs, NotDot)
    ensures var tname := Trim(name, Backtick);
      Advance(st, Text(CreateLineText(name, columnDefs))) == LoaderState(st.currentSchema, "",
        st.tables[Key(st.currentSchema, tname) := TableDef(tname, st.currentSchema, Columns(columnDefs))])
  {
    var line := CreateLineText(name, columnDefs);
    assert HasSuffix(line, ";");
    var sql := CreateStatement("", name, columnDefs);
    LineIsStatement(name, columnDefs);
    assert Advance(st, Text(line)) == Flush(st, sql);
    CreateTableRoundTrip("", name, columnDefs);
  }

  /**
   A dump holding `USE db;` and then a one-line `CREATE TABLE name (columns);` defines one
   table, under the upper-cased schema name.
   */
  lemma UseThenCreate(db: string, name: string, columnDefs: string)
    requires db != [] && db[0] !in UseCut && db[|db| - 1] !in UseCut
    requires |name| > 0 && AllIn(name, NameChar) && AllIn(name, NotDot)
    requires AllIn(columnDefs, BodyChar) && AllIn(columnDefs, NotDot)
    ensures var tname := Trim(name, Backtick);
      LoadLines(map[], [UseLineText(db), CreateLineText(name, columnDefs)]).tables
        == map[Key(ToUpper(db), tname) := TableDef(tname, ToUpper(db), Columns(columnDefs))]
  {
    var lines := [UseLineText(db), CreateLineText(name, columnDefs)];
    UseLineClassified(db);
    CreateLineClassified(name, columnDefs);
    KindsPair(lines[0], lines[1]);
    assert lines == [lines[0], lines[1]];
    var st0 := LoaderState("", "", map[]);
    RunPair(st0, Use(ToUpper(db)), Text(CreateLineText(name, columnDefs)));
    CreateStep(LoaderState(ToUpper(db), "", map[]), name, columnDefs);
  }

  // ---------------------------------------------------------------------------
  // parseJSONSchema

  /** The map after the decoded tables are stored in order under `schema.name`. */
  function StoreAll(tables: map<string, TableDef>, decoded: seq<TableDef>): map<string, TableDef>
    decreases |decoded|
  {
    if |decoded| == 0 then tables
    else
      var t := decoded[|decoded| - 1];
      StoreAll(tables, decoded[..|decoded| - 1])[Key(t.schema, t.name) := t]
  }

  /** The keys after storing are the old ones and one per decoded table. */
  lemma {:induction false} StoreAllKeys(tables: map<string, TableDef>, decoded: seq<TableDef>)
    ensures StoreAll(tables, decoded).Keys == tables.Keys + set t | t in decoded :: Key(t.schema, t.name)
    decreases |decoded|
  {
    if |decoded| > 0 {
      var init := decoded[..|decoded| - 1];
      StoreAllKeys(tables, init);
      assert decoded == init + [decoded[|decoded| - 1]];
    }
  }

  /** Of several decoded tables with the same key, the last one stays. */
  lemma {:induction false} StoreAllLastWins(tables: map<string, TableDef>, decoded: seq<TableDef>, i: nat)
    requires i < |decoded|
    requires forall j :: i < j < |decoded| ==>
      Key(decoded[j].schema, decoded[j].name) != Key(decoded[i].schema, decoded[i].name)
    ensures Key(decoded[i].schema, decoded[i].name) in StoreAll(tables, decoded)
    ensures StoreAll(tables, decoded)[Key(decoded[i].schema, decoded[i].name)] == decoded[i]
    decreases |decoded|
  {
    if i < |decoded| - 1 {
      StoreAllLastWins(tables, decoded[..|decoded| - 1], i);
    }
  }

  /** Keys no decoded table has keep their old entry. */
  lemma {:induction false} StoreAllOthers(tables: map<string, TableDef>, decoded: seq<TableDef>, k: string)
    requires forall j :: 0 <= j < |decoded| ==> Key(decoded[j].schema, decoded[j].name) != k
    ensures (k in StoreAll(tables, decoded)) == (k in tables)
    ensures k in tables ==> StoreAll(tables, decoded)[k] == tables[k]
    decreases |decoded|
  {
    if |decoded| > 0 {
      StoreAllOthers(tables, decoded[..|decoded| - 1], k);
    }
  }

  // ---------------------------------------------------------------------------
  // The process-wide map and the operations on it

  /** The schema file as the loader sees it. */
  datatype SchemaFile = SchemaFile(
    lines: seq<string>,              // the lines the scanner delivers
    decoded: Option<seq<TableDef>>,  // what `json.Unmarshal` gives; None when it fails
    scanError: Option<string>)       // an error from re-opening or scanning the file

  const ReadErrorPrefix: string := "failed to read schema file: "

  /** `SchemaDefinitions`. */
  class SchemaStore {
    var definitions: map<string, TableDef>

    constructor()
      ensures definitions == map[]
    {
      definitions := map[];
    }

    /** `GetTableDef`: the entry under `schema.table`, with no normalisation of either part. */
    function GetTableDef(schema: string, table: string): (r: Option<TableDef>)
      reads this
      ensures r.Some? <==> schema + "." + table in definitions
      ensures r.Some? ==> r.value == definitions[schema + "." + table]
    {
      var key := Key(schema, table);
      if key in definitions then Some(definitions[key]) else None
    }

    /** Lookups whose `schema.table` spell the same key return the same entry. */
    lemma GetTableDefByKey(s1: string, t1: string, s2: string, t2: string)
      requires Key(s1, t1) == Key(s2, t2)
      ensures GetTableDef(s1, t1) == GetTableDef(s2, t2)
    {
    }

    /** `parseJSONSchema` once decoding succeeded. */
    method ParseJSONSchema(decoded: seq<TableDef>)
      modifies this
      ensures definitions == StoreAll(old(definitions), decoded)
    {
      var i := 0;
      while i < |decoded|
        invariant 0 <= i <= |decoded|
        invariant definitions == StoreAll(old(definitions), decoded[..i])
      {
        var t := decoded[i];
        assert decoded[..i + 1][..i] == decoded[..i];
        definitions := definitions[Key(t.schema, t.name) := t];
        i := i + 1;
      }
      assert decoded[..|decoded|] == decoded;
    }

    /**
     One pass of the scanner loop of `parseSQLSchema`: the line is trimmed and classified, and
     the current schema, the statement buffer and the map move on as `Advance` says.
     */
    method ScanLine(currentSchema: string, buffer: string, raw: string) returns (nextSchema: string, nextBuffer: string)
      modifies this
      ensures LoaderState(nextSchema, nextBuffer, definitions)
        == Advance(LoaderState(currentSchema, buffer, old(definitions)), Classify(raw))
    {
      ghost var st := LoaderState(currentSchema, buffer, definitions);
      nextSchema, nextBuffer := currentSchema, buffer;
      var line := TrimSpace(raw);
      if line == "" || HasPrefix(line, "--") || HasPrefix(line, "/*") {
        SkippedLine(st, raw);
        return;
      }
      if HasPrefix(ToUpper(line), "USE ") {
        UseLine(st, raw);
        nextSchema := Trim(TrimPrefix(ToUpper(line), "USE "), UseCut);
        return;
      }
      StatementLine(raw);
      nextBuffer := AddText(currentSchema, buffer, line);
    }

    /** Statement text into the buffer; a line ending in `;` completes the statement and flushes it. */
    method AddText(currentSchema: string, buffer: string, line: string) returns (nextBuffer: string)
      modifies this
      ensures LoaderState(currentSchema, nextBuffer, definitions)
        == Advance(LoaderState(currentSchema, buffer, old(definitions)), Text(line))
    {
      TextLine(LoaderState(currentSchema, buffer, definitions), line);
      nextBuffer := buffer + line + " ";
      if HasSuffix(line, ";") {
        var sql := nextBuffer;
        nextBuffer := "";
        RegisterStatement(currentSchema, sql);
      }
    }

    /** A complete statement: CreateTableRegex is matched and a match is stored under the current schema. */
    method RegisterStatement(currentSchema: string, sql: string)
      modifies this
      ensures definitions == Register(old(definitions), currentSchema, sql)
    {
      var found := MatchCreateTable(sql);
      if found.Some? {
        var tableName := Trim(found.value.table, Backtick);
        var columns := ParseColumns(found.value.columnDefs);
        definitions := definitions[Key(currentSchema, tableName) := TableDef(tableName, currentSchema, columns)];
      }
    }

    /** `parseSQLSchema` over the scanned lines; returns the scanner's error, if any. */
    method ParseSQLSchema(lines: seq<string>, scanError: Option<string>) returns (err: Option<string>)
      modifies this
      ensures definitions == LoadLines(old(definitions), lines).tables
      ensures err == scanError
    {
      ghost var ks := Kinds(lines);
      ghost var st0 := LoaderState("", "", definitions);
      var currentSchema := "";
      var buffer := "";
      var i := 0;
      while i < |lines|
        invariant 0 <= i <= |lines|
        invariant LoaderState(currentSchema, buffer, definitions) == Run(st0, ks[..i])
      {
        assert ks[..i + 1][..i] == ks[..i];
        currentSchema, buffer := ScanLine(currentSchema, buffer, lines[i]);
        i := i + 1;
      }
      assert ks[..|lines|] == ks;
      err := scanError;
    }

    /** `LoadSchemaFile`: JSON first; SQL only when the JSON decoding fails. */
    method LoadSchemaFile(file: Result<SchemaFile, string>) returns (err: Option<string>)
      modifies this
      ensures file.Err? ==> err == Some(ReadErrorPrefix + file.error) && definitions == old(definitions)
      ensures file.Ok? && file.value.decoded.Some? ==>
        err.None? && definitions == StoreAll(old(definitions), file.value.decoded.value)
      ensures file.Ok? && file.value.decoded.None? ==>
        err == file.value.scanError
        && definitions == LoadLines(old(definitions), file.value.lines).tables
    {
      if file.Err? {
        return Some(ReadErrorPrefix + file.error);
      }
      if file.value.decoded.Some? {
        ParseJSONSchema(file.value.decoded.value);
        return None;
      }
      err := ParseSQLSchema(file.value.lines, file.value.scanError);
    }
  }
}
