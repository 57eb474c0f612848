/**
 Deterministic extractors for the two regular expressions of pkg/schema/schema.go:

   CreateTableRegex  (?i)CREATE TABLE\s+(?:[^.]+\.)?([^\s(]+)\s*\((.*?)\)[^;]*;
   ColumnDefRegex    \s*([^\s,]+)\s+([^,\s]+(?:\s+[^,\s]+)*)\s*([^,]*),?

 Go's `regexp` reports the submatches of the leftmost match, choosing among the
 matches that start there the one a backtracking matcher would find first. For these
 two patterns that choice can be computed without backtracking: every greedy run
 either takes its maximal extent or the match fails at that start (giving back a
 character only puts a character of the run where the next piece cannot accept it),
 and the only alternatives are the optional `[^.]+\.` prefix (tried first when present)
 and the lazy `.*?`, which ends at the first `)`: if no `;` follows the first `)`,
 none follows any later one either. The functions below follow that reading piece
 by piece.
 */
module SqlPatterns {
  import opened Results
  import opened GoStrings

  /** The character classes the two patterns use. */
  datatype CharClass =
    | Space         // \s
    | Token         // [^\s,]   (also [^,\s])
    | NameChar      // [^\s(]
    | NotDot        // [^.]
    | NotComma      // [^,]
    | BodyChar      // what `.` may cross before the first `)`: anything but `)` and newline
    | NotSemicolon  // [^;]

  predicate InClass(c: char, cls: CharClass) {
    match cls
    case Space => IsRegexSpace(c)
    case Token => !IsRegexSpace(c) && c != ','
    case NameChar => !IsRegexSpace(c) && c != '('
    case NotDot => c != '.'
    case NotComma => c != ','
    case BodyChar => c != ')' && c != '\n'
    case NotSemicolon => c != ';'
  }

  /** The end of the longest run of `cls` characters starting at `i`. */
  function RunEnd(s: string, i: nat, cls: CharClass): (j: nat)
    requires i <= |s|
    ensures i <= j <= |s|
    ensures j == |s| || !InClass(s[j], cls)
    decreases |s| - i
  {
    if i < |s| && InClass(s[i], cls) then RunEnd(s, i + 1, cls) else i
  }

  /** Every character the run covers is in the class. */
  lemma {:induction false} RunEndCovers(s: string, i: nat, cls: CharClass)
    requires i <= |s|
    ensures forall k :: i <= k < RunEnd(s, i, cls) ==> InClass(s[k], cls)
    decreases |s| - i
  {
    if i < |s| && InClass(s[i], cls) {
      RunEndCovers(s, i + 1, cls);
    }
  }

  /** A run that is maximal is the one `RunEnd` finds. */
  lemma {:induction false} RunEndAt(s: string, i: nat, j: nat, cls: CharClass)
    requires i <= j <= |s|
    requires forall k :: i <= k < j ==> InClass(s[k], cls)
    requires j == |s| || !InClass(s[j], cls)
    ensures RunEnd(s, i, cls) == j
    decreases j - i
  {
    if i < j {
      RunEndAt(s, i + 1, j, cls);
    }
  }

  predicate AllIn(t: string, cls: CharClass) {
    forall k :: 0 <= k < |t| ==> InClass(t[k], cls)
  }

  /** A slice of a run of `cls` characters is all `cls` characters. */
  lemma SliceIn(s: string, i: nat, j: nat, cls: CharClass)
    requires i <= j <= |s| && forall k :: i <= k < j ==> InClass(s[k], cls)
    ensures AllIn(s[i..j], cls)
  {
    forall k | 0 <= k < j - i ensures InClass(s[i..j][k], cls) {
      assert s[i..j][k] == s[i + k];
    }
  }

  // ---------------------------------------------------------------------------
  // ColumnDefRegex

  /** The three submatches of one ColumnDefRegex match. */
  datatype ColumnMatch = ColumnMatch(name: string, colType: string, modifiers: string)

  /** A column name as group 1 captures it: a non-empty run without white space or commas. */
  predicate IsToken(t: string) {
    |t| > 0 && forall k :: 0 <= k < |t| ==> InClass(t[k], Token)
  }

  /**
   A declared type as group 2 captures it: tokens separated by white space, with no
   comma, starting and ending with a token character.
   */
  predicate IsTypeText(t: string) {
    && |t| > 0
    && InClass(t[0], Token)
    && InClass(t[|t| - 1], Token)
    && forall k :: 0 <= k < |t| ==> t[k] != ','
  }

  /**
   Group 2, `[^,\s]+(?:\s+[^,\s]+)*`, from a token character at `c`: another iteration
   is taken exactly when the white space after a token is followed by a token character.
   What follows the group, after any white space, is a comma or the end of the text.
   */
  function TypeEnd(s: string, c: nat): (d: nat)
    requires c < |s| && InClass(s[c], Token)
    ensures c < d <= |s|
    ensures InClass(s[d - 1], Token)
    ensures RunEnd(s, d, Space) == |s| || s[RunEnd(s, d, Space)] == ','
    decreases |s| - c
  {
    var t := RunEnd(s, c, Token);
    var w := RunEnd(s, t, Space);
    RunEndCovers(s, c, Token);
    if w > t && w < |s| && InClass(s[w], Token) then TypeEnd(s, w) else t
  }

  /** Group 2 never crosses a comma. */
  lemma {:induction false} TypeEndNoComma(s: string, c: nat)
    requires c < |s| && InClass(s[c], Token)
    ensures forall k :: c <= k < TypeEnd(s, c) ==> s[k] != ','
    decreases |s| - c
  {
    var t := RunEnd(s, c, Token);
    var w := RunEnd(s, t, Space);
    RunEndCovers(s, c, Token);
    RunEndCovers(s, t, Space);
    if w > t && w < |s| && InClass(s[w], Token) {
      TypeEndNoComma(s, w);
    }
  }

  /** Where the pieces of one ColumnDefRegex match lie: groups 1, 2, 3, and the match end. */
  datatype ColumnSpan = ColumnSpan(nameStart: nat, nameEnd: nat, typeStart: nat, typeEnd: nat,
                                   modStart: nat, modEnd: nat, next: nat)

  predicate SpanWithin(sp: ColumnSpan, s: string, i: nat) {
    && i <= sp.nameStart < sp.nameEnd < sp.typeStart < sp.typeEnd <= sp.modStart <= sp.modEnd <= |s|
    && i < sp.next <= |s|
  }

  /** The positions of the ColumnDefRegex match that starts exactly at `i`. */
  function ColumnSpanAt(s: string, i: nat): (r: Option<ColumnSpan>)
    requires i <= |s|
    ensures r.Some? ==> SpanWithin(r.value, s, i)
    ensures r.Some? ==> r.value.modStart == r.value.modEnd
    ensures r.Some? ==> InClass(s[r.value.typeStart], Token) && InClass(s[r.value.typeEnd - 1], Token)
  {
    var a := RunEnd(s, i, Space);
    var b := RunEnd(s, a, Token);
    if b == a then None
    else
      var c := RunEnd(s, b, Space);
      if c == b || c == |s| || !InClass(s[c], Token) then None
      else
        var d := TypeEnd(s, c);
        var e := RunEnd(s, d, Space);
        var f := RunEnd(s, e, NotComma);
        var g := if f < |s| && s[f] == ',' then f + 1 else f;
        Some(ColumnSpan(a, b, c, d, e, f, g))
  }

  /** Group 1 is a token; group 2 holds no comma. */
  lemma SpanCovers(s: string, i: nat)
    requires i <= |s| && ColumnSpanAt(s, i).Some?
    ensures var sp := ColumnSpanAt(s, i).value;
      && (forall k :: sp.nameStart <= k < sp.nameEnd ==> InClass(s[k], Token))
      && (forall k :: sp.typeStart <= k < sp.typeEnd ==> s[k] != ',')
  {
    var a := RunEnd(s, i, Space);
    RunEndCovers(s, a, Token);
    TypeEndNoComma(s, ColumnSpanAt(s, i).value.typeStart);
  }

  /** The ColumnDefRegex match that starts exactly at `i`, with the position after it. */
  function ColumnMatchAt(s: string, i: nat): (r: Option<(ColumnMatch, nat)>)
    requires i <= |s|
    ensures r.Some? ==> i < r.value.1 <= |s|
    ensures r.Some? ==> r.value.0.modifiers == ""
  {
    match ColumnSpanAt(s, i)
    case None => None
    case Some(sp) =>
      Some((ColumnMatch(s[sp.nameStart..sp.nameEnd], s[sp.typeStart..sp.typeEnd], s[sp.modStart..sp.modEnd]), sp.next))
  }

  /** Group 1 of a match is a column name, group 2 a type text. */
  lemma ColumnMatchShape(s: string, i: nat)
    requires i <= |s| && ColumnMatchAt(s, i).Some?
    ensures IsToken(ColumnMatchAt(s, i).value.0.name)
    ensures IsTypeText(ColumnMatchAt(s, i).value.0.colType)
  {
    var sp := ColumnSpanAt(s, i).value;
    SpanCovers(s, i);
    SliceIn(s, sp.nameStart, sp.nameEnd, Token);
    var t := s[sp.typeStart..sp.typeEnd];
    assert t[0] == s[sp.typeStart] && t[|t| - 1] == s[sp.typeEnd - 1];
    forall k | 0 <= k < |t| ensures t[k] != ',' {
      assert t[k] == s[sp.typeStart + k];
    }
  }

  /**
   `FindAllStringSubmatch(s[i..], -1)`: the leftmost match at or after `i`, then the
   matches after its end. No match is empty, so the search resumes where a match ends.
   */
  function AllColumnMatches(s: string, i: nat): (ms: seq<ColumnMatch>)
    requires i <= |s|
    decreases |s| - i
  {
    if i == |s| then []
    else
      match ColumnMatchAt(s, i)
      case Some((m, next)) => [m] + AllColumnMatches(s, next)
      case None => AllColumnMatches(s, i + 1)
  }

  /** Every match has a column name and a type text. */
  lemma {:induction false} MatchesShape(s: string, i: nat)
    requires i <= |s|
    ensures forall m :: m in AllColumnMatches(s, i) ==> IsToken(m.name) && IsTypeText(m.colType)
    decreases |s| - i
  {
    if i < |s| {
      match ColumnMatchAt(s, i)
      case Some((m, next)) =>
        ColumnMatchShape(s, i);
        MatchesShape(s, next);
      case None =>
        MatchesShape(s, i + 1);
    }
  }

  /** All ColumnDefRegex matches in `s`, in order. */
  function FindAllColumns(s: string): seq<ColumnMatch> {
    AllColumnMatches(s, 0)
  }

  /**
   The modifiers group never captures anything: group 2 runs up to the white space
   before a comma or the end, so `([^,]*)` starts at a comma or at the end.
   */
  lemma {:induction false} ModifiersAlwaysEmpty(s: string, i: nat)
    requires i <= |s|
    ensures forall m :: m in AllColumnMatches(s, i) ==> m.modifiers == ""
    decreases |s| - i
  {
    if i < |s| {
      match ColumnMatchAt(s, i)
      case Some((m, next)) => ModifiersAlwaysEmpty(s, next);
      case None => ModifiersAlwaysEmpty(s, i + 1);
    }
  }

  // ---------------------------------------------------------------------------
  // ColumnDefRegex on well-formed column lists

  /** One `name type` clause as a schema dump writes it. */
  datatype ColumnText = ColumnText(name: string, colType: string)

  function ClauseText(c: ColumnText): string {
    c.name + " " + c.colType
  }

  predicate AllSpace(s: string, i: nat, j: nat)
    requires i <= j <= |s|
  {
    forall k :: i <= k < j ==> IsRegexSpace(s[k])
  }

  /** A run of white space holds no match. */
  lemma {:induction false} NoMatchInSpace(s: string, i: nat)
    requires i <= |s| && AllSpace(s, i, |s|)
    ensures AllColumnMatches(s, i) == []
    decreases |s| - i
  {
    if i < |s| {
      assert RunEnd(s, i, Space) == |s|;
      NoMatchInSpace(s, i + 1);
    }
  }

  /** Group 2 ends where a type text ends, when only white space and then a comma or the end follow. */
  lemma {:induction false} TypeEndAt(s: string, c: nat, d: nat)
    requires c < d <= |s| && IsTypeText(s[c..d])
    requires RunEnd(s, d, Space) == |s| || s[RunEnd(s, d, Space)] == ','
    ensures TypeEnd(s, c) == d
    decreases d - c
  {
    assert s[c..d][0] == s[c];
    assert InClass(s[d - 1], Token) by { assert s[c..d][d - 1 - c] == s[d - 1]; }
    assert forall k :: c <= k < d ==> s[k] != ',' by {
      forall k | c <= k < d ensures s[k] != ',' { assert s[c..d][k - c] == s[k]; }
    }
    var t := RunEnd(s, c, Token);
    var w := RunEnd(s, t, Space);
    RunEndCovers(s, c, Token);
    RunEndCovers(s, t, Space);
    if t < d {
      assert IsRegexSpace(s[t]);
      assert w < d;
      assert InClass(s[w], Token);
      assert s[w..d] == s[c..d][w - c..];
      TypeEndAt(s, w, d);
    } else {
      assert t == d;
    }
  }

  /** Name characters at `[j, m)`, one space, a type text at `[m + 1, e)`: one match. */
  lemma SpanAt(s: string, i: nat, j: nat, m: nat, e: nat)
    requires i <= j < m && m + 1 < e <= |s| && AllSpace(s, i, j)
    requires forall k :: j <= k < m ==> InClass(s[k], Token)
    requires s[m] == ' ' && IsTypeText(s[m + 1..e])
    requires e == |s| || s[e] == ',' || AllSpace(s, e, |s|)
    ensures var after := if e < |s| && s[e] == ',' then e else |s|;
      ColumnSpanAt(s, i) == Some(ColumnSpan(j, m, m + 1, e, after, after,
        if e < |s| && s[e] == ',' then e + 1 else |s|))
  {
    assert s[m + 1] == s[m + 1..e][0];
    RunEndAt(s, i, j, Space);
    RunEndAt(s, j, m, Token);
    RunEndAt(s, m, m + 1, Space);
    if e < |s| && s[e] == ',' {
      RunEndAt(s, e, e, Space);
      RunEndAt(s, e, e, NotComma);
    } else {
      RunEndAt(s, e, |s|, Space);
      RunEndAt(s, |s|, |s|, NotComma);
    }
    TypeEndAt(s, m + 1, e);
  }

  /** The position after a clause that ends at `e`: past its comma, or the end of the text. */
  function NextAfter(s: string, e: nat): nat
    requires e <= |s|
  {
    if e < |s| && s[e] == ',' then e + 1 else |s|
  }

  /** One clause followed by a comma or by trailing white space is one match. */
  lemma ClauseSpan(s: string, i: nat, j: nat, c: ColumnText) returns (sp: ColumnSpan)
    requires i <= j <= |s| && AllSpace(s, i, j)
    requires IsToken(c.name) && IsTypeText(c.colType)
    requires j + |ClauseText(c)| <= |s| && s[j..j + |ClauseText(c)|] == ClauseText(c)
    requires var e := j + |ClauseText(c)|; e == |s| || s[e] == ',' || AllSpace(s, e, |s|)
    ensures ColumnSpanAt(s, i) == Some(sp)
    ensures s[sp.nameStart..sp.nameEnd] == c.name && s[sp.typeStart..sp.typeEnd] == c.colType
    ensures sp.modStart == sp.modEnd && sp.next == NextAfter(s, j + |ClauseText(c)|)
  {
    var n, t := |c.name|, |c.colType|;
    var e := j + n + 1 + t;
    var txt := ClauseText(c);
    assert s[j..e] == txt;
    forall k | j <= k < j + n ensures InClass(s[k], Token) {
      assert s[k] == s[j..e][k - j] == txt[k - j] == c.name[k - j];
    }
    assert s[j + n] == ' ' by { assert s[j..e][n] == txt[n]; }
    assert s[j + n + 1..e] == c.colType by {
      assert s[j + n + 1..e] == s[j..e][n + 1..];
    }
    assert s[j..j + n] == c.name by {
      assert s[j..j + n] == s[j..e][..n];
    }
    SpanAt(s, i, j, j + n, e);
    var after := if e < |s| && s[e] == ',' then e else |s|;
    sp := ColumnSpan(j, j + n, j + n + 1, e, after, after, NextAfter(s, e));
  }

  /** The match at `i` is read off its span. */
  lemma MatchFromSpan(s: string, i: nat, sp: ColumnSpan, m: ColumnMatch)
    requires i <= |s| && ColumnSpanAt(s, i) == Some(sp)
    requires s[sp.nameStart..sp.nameEnd] == m.name && s[sp.typeStart..sp.typeEnd] == m.colType
    requires s[sp.modStart..sp.modEnd] == m.modifiers
    ensures ColumnMatchAt(s, i) == Some((m, sp.next))
  {
  }

  lemma ClauseMatch(s: string, i: nat, j: nat, c: ColumnText)
    requires i <= j <= |s| && AllSpace(s, i, j)
    requires IsToken(c.name) && IsTypeText(c.colType)
    requires j + |ClauseText(c)| <= |s| && s[j..j + |ClauseText(c)|] == ClauseText(c)
    requires var e := j + |ClauseText(c)|; e == |s| || s[e] == ',' || AllSpace(s, e, |s|)
    ensures ColumnMatchAt(s, i) == Some((ColumnMatch(c.name, c.colType, ""), NextAfter(s, j + |ClauseText(c)|)))
  {
    var sp := ClauseSpan(s, i, j, c);
    assert s[sp.modStart..sp.modEnd] == "";
    MatchFromSpan(s, i, sp, ColumnMatch(c.name, c.colType, ""));
  }

  /** A match at `i` is the first of the matches from `i`. */
  lemma MatchesStep(s: string, i: nat, m: ColumnMatch, next: nat)
    requires i < |s| && ColumnMatchAt(s, i) == Some((m, next))
    ensures AllColumnMatches(s, i) == [m] + AllColumnMatches(s, next)
  {
  }

  /** A clause after white space and before a comma: its match, then the matches after the comma. */
  lemma ClauseThenComma(s: string, i: nat, j: nat, c: ColumnText)
    requires i <= j <= |s| && AllSpace(s, i, j)
    requires IsToken(c.name) && IsTypeText(c.colType)
    requires j + |ClauseText(c)| < |s| && s[j..j + |ClauseText(c)|] == ClauseText(c)
    requires s[j + |ClauseText(c)|] == ','
    ensures AllColumnMatches(s, i) ==
      [ColumnMatch(c.name, c.colType, "")] + AllColumnMatches(s, j + |ClauseText(c)| + 1)
  {
    ClauseMatch(s, i, j, c);
    MatchesStep(s, i, ColumnMatch(c.name, c.colType, ""), NextAfter(s, j + |ClauseText(c)|));
  }

  /** A clause after white space and before trailing white space: the only match. */
  lemma ClauseThenEnd(s: string, i: nat, j: nat, c: ColumnText)
    requires i <= j <= |s| && AllSpace(s, i, j)
    requires IsToken(c.name) && IsTypeText(c.colType)
    requires j + |ClauseText(c)| <= |s| && s[j..j + |ClauseText(c)|] == ClauseText(c)
    requires AllSpace(s, j + |ClauseText(c)|, |s|)
    ensures AllColumnMatches(s, i) == [ColumnMatch(c.name, c.colType, "")]
  {
    ClauseMatch(s, i, j, c);
    MatchesStep(s, i, ColumnMatch(c.name, c.colType, ""), NextAfter(s, j + |ClauseText(c)|));
    assert AllColumnMatches(s, |s|) == [];
  }

  // ---------------------------------------------------------------------------
  // CreateTableRegex

  /** Submatches 1 (the table name) and 2 (the text between `(` and the first `)`). */
  datatype CreateTableMatch = CreateTableMatch(table: string, columnDefs: string)

  const CreateTableKeyword: string := "CREATE TABLE"

  /** `(?i)CREATE TABLE` at `i`: the letters compare without regard to case, the space exactly. */
  predicate KeywordAt(s: string, i: nat) {
    i + |CreateTableKeyword| <= |s| && ToUpper(s[i..i + |CreateTableKeyword|]) == CreateTableKeyword
  }

  /** `([^\s(]+)\s*\((.*?)\)[^;]*;` from `q`. */
  function TableRest(s: string, q: nat): (r: Option<CreateTableMatch>)
    requires q <= |s|
    ensures r.Some? ==> |r.value.table| > 0 && AllIn(r.value.table, NameChar)
    ensures r.Some? ==> AllIn(r.value.columnDefs, BodyChar)
    ensures r.Some? ==> exists k :: q < k < |s| && s[k] == ';'
  {
    var n := RunEnd(s, q, NameChar);
    if n == q then None
    else
      var w := RunEnd(s, n, Space);
      if w == |s| || s[w] != '(' then None
      else
        var e := RunEnd(s, w + 1, BodyChar);
        if e == |s| || s[e] != ')' then None
        else
          var f := RunEnd(s, e + 1, NotSemicolon);
          if f == |s| then None
          else
            RunEndCovers(s, q, NameChar);
            RunEndCovers(s, w + 1, BodyChar);
            SliceIn(s, q, n, NameChar);
            SliceIn(s, w + 1, e, BodyChar);
            Some(CreateTableMatch(s[q..n], s[w + 1..e]))
  }

  /** The CreateTableRegex match that starts exactly at `i`. */
  function CreateTableAt(s: string, i: nat): (r: Option<CreateTableMatch>)
    requires i <= |s|
    ensures r.Some? ==> KeywordAt(s, i)
  {
    if !KeywordAt(s, i) then None
    else
      var p0 := i + |CreateTableKeyword|;
      var p := RunEnd(s, p0, Space);
      if p == p0 then None
      else
        // the optional `(?:[^.]+\.)` can only end at the first dot after `p`
        var d := RunEnd(s, p, NotDot);
        var qualified := if p < d < |s| then TableRest(s, d + 1) else None;
        if qualified.Some? then qualified else TableRest(s, p)
  }

  /** The leftmost CreateTableRegex match at or after `i`. */
  function FindCreateTable(s: string, i: nat): (r: Option<CreateTableMatch>)
    requires i <= |s|
    ensures r.Some? ==> exists k :: i <= k < |s| && KeywordAt(s, k)
    decreases |s| - i
  {
    match CreateTableAt(s, i)
    case Some(m) => Some(m)
    case None => if i == |s| then None else FindCreateTable(s, i + 1)
  }

  /** `CreateTableRegex.FindStringSubmatch(sql)`, reduced to submatches 1 and 2. */
  function MatchCreateTable(sql: string): Option<CreateTableMatch> {
    FindCreateTable(sql, 0)
  }

  /**
   A statement that nowhere contains `CREATE TABLE` (in any case) or contains no `;`
   is not matched.
   */
  lemma {:induction false} NoKeywordNoMatch(s: string, i: nat)
    requires i <= |s|
    requires (forall k :: i <= k < |s| ==> !KeywordAt(s, k)) || (forall k :: i <= k < |s| ==> s[k] != ';')
    ensures FindCreateTable(s, i).None?
    decreases |s| - i
  {
    if i < |s| {
      NoKeywordNoMatch(s, i + 1);
    }
  }

  // ---------------------------------------------------------------------------
  // CreateTableRegex on a plain one-line statement

  /** The statement text the buffer holds for `CREATE TABLE [db.]name (columns);`. */
  function CreateStatement(db: string, name: string, columnDefs: string): string {
    "CREATE TABLE " + (if db == "" then "" else db + ".") + name + " (" + columnDefs + "); "
  }

  /** What follows the optional qualifier: `name (columns); `. */
  function TableTail(name: string, columnDefs: string): string {
    name + " (" + columnDefs + "); "
  }

  /** `s` holds `t` from position `j` on, character by character. */
  predicate SpellsAt(s: string, j: nat, t: string) {
    j + |t| <= |s| && forall k :: 0 <= k < |t| ==> s[j + k] == t[k]
  }

  /** The characters of `name (columns); `. */
  lemma TableTailLayout(name: string, columnDefs: string)
    ensures var t, n, e := TableTail(name, columnDefs), |name|, |name| + 2 + |columnDefs|;
      && |t| == e + 3
      && t[..n] == name && t[n] == ' ' && t[n + 1] == '('
      && t[n + 2..e] == columnDefs && t[e] == ')' && t[e + 1] == ';' && t[e + 2] == ' '
  {
    var t, n, e := TableTail(name, columnDefs), |name|, |name| + 2 + |columnDefs|;
    assert t == name + (" (" + (columnDefs + "); "));
    assert t[..n] == name;
    assert t[n..] == " (" + (columnDefs + "); ");
    assert t[n + 2..] == columnDefs + "); ";
    assert t[n + 2..e] == columnDefs;
    assert t[e..] == "); ";
  }

  /** `name (columns); ` at `q` is matched by the rest of the pattern from `q`. */
  lemma TableRestAt(s: string, q: nat, name: string, columnDefs: string)
    requires |name| > 0 && AllIn(name, NameChar) && AllIn(columnDefs, BodyChar)
    requires SpellsAt(s, q, TableTail(name, columnDefs))
    ensures TableRest(s, q) == Some(CreateTableMatch(name, columnDefs))
  {
    var t := TableTail(name, columnDefs);
    var n, e := q + |name|, q + |name| + 2 + |columnDefs|;
    TableTailLayout(name, columnDefs);
    assert s[q..q + |t|] == t;
    assert s[q..n] == name by { assert s[q..n] == t[..|name|]; }
    assert s[n + 2..e] == columnDefs by { assert s[n + 2..e] == t[|name| + 2..|name| + 2 + |columnDefs|]; }
    assert s[n] == t[|name|] && s[n + 1] == t[|name| + 1];
    assert s[e] == t[e - q] && s[e + 1] == t[e + 1 - q];
    forall k | q <= k < n ensures InClass(s[k], NameChar) {
      assert s[k] == name[k - q];
    }
    forall k | n + 2 <= k < e ensures InClass(s[k], BodyChar) {
      assert s[k] == columnDefs[k - n - 2];
    }
    RunEndAt(s, q, n, NameChar);
    RunEndAt(s, n, n + 1, Space);
    RunEndAt(s, n + 2, e, BodyChar);
    RunEndAt(s, e + 1, e + 1, NotSemicolon);
    TableRestShape(s, q, n, e);
  }

  /** The runs of the rest of the pattern, once their ends are known, give the match. */
  lemma TableRestShape(s: string, q: nat, n: nat, e: nat)
    requires q < n && n + 2 <= e && e + 1 < |s|
    requires RunEnd(s, q, NameChar) == n && RunEnd(s, n, Space) == n + 1 && s[n + 1] == '('
    requires RunEnd(s, n + 2, BodyChar) == e && s[e] == ')' && RunEnd(s, e + 1, NotSemicolon) == e + 1
    ensures TableRest(s, q) == Some(CreateTableMatch(s[q..n], s[n + 2..e]))
  {
  }

  /** The statement begins with the keyword, a space, and then the qualifier and the tail. */
  lemma StatementLayout(db: string, name: string, columnDefs: string)
    ensures var s, qual := CreateStatement(db, name, columnDefs), if db == "" then "" else db + ".";
      && KeywordAt(s, 0) && s[|CreateTableKeyword|] == ' '
      && SpellsAt(s, |CreateTableKeyword| + 1, qual)
      && SpellsAt(s, |CreateTableKeyword| + 1 + |qual|, TableTail(name, columnDefs))
      && |s| == |CreateTableKeyword| + 1 + |qual| + |TableTail(name, columnDefs)|
  {
    var s, qual := CreateStatement(db, name, columnDefs), if db == "" then "" else db + ".";
    var kw, t := CreateTableKeyword, TableTail(name, columnDefs);
    assert s == kw + (" " + (qual + t));
    ThreeParts(s, kw, qual, t);
    KeywordUpper();
  }

  lemma KeywordUpper()
    ensures ToUpper(CreateTableKeyword) == CreateTableKeyword
  {
  }

  /** Where the pieces of `a + (" " + (b + c))` sit. */
  lemma ThreeParts(s: string, a: string, b: string, c: string)
    requires s == a + (" " + (b + c))
    ensures s[..|a|] == a && s[|a|] == ' '
    ensures SpellsAt(s, |a| + 1, b) && SpellsAt(s, |a| + 1 + |b|, c)
    ensures |s| == |a| + 1 + |b| + |c|
  {
    forall k | 0 <= k < |b| ensures s[|a| + 1 + k] == b[k] {
    }
    forall k | 0 <= k < |c| ensures s[|a| + 1 + |b| + k] == c[k] {
    }
  }

  /** A text spelled at `j` whose characters are all in `cls` puts `cls` characters there. */
  lemma SpellsIn(s: string, j: nat, t: string, cls: CharClass)
    requires SpellsAt(s, j, t) && AllIn(t, cls)
    ensures forall k :: j <= k < j + |t| ==> InClass(s[k], cls)
  {
    forall k | j <= k < j + |t| ensures InClass(s[k], cls) {
      assert s[k] == t[k - j];
    }
  }

  /** `name (columns); ` has no character outside a class that holds the name, the columns and the punctuation. */
  lemma TailIn(name: string, columnDefs: string, cls: CharClass)
    requires AllIn(name, cls) && AllIn(columnDefs, cls)
    requires InClass(' ', cls) && InClass('(', cls) && InClass(')', cls) && InClass(';', cls)
    ensures AllIn(TableTail(name, columnDefs), cls)
  {
    var t, n := TableTail(name, columnDefs), |name|;
    TableTailLayout(name, columnDefs);
    forall k | 0 <= k < |t| ensures InClass(t[k], cls) {
      if k < n {
        assert t[k] == t[..n][k];
      } else if n + 2 <= k < n + 2 + |columnDefs| {
        assert t[k] == t[n + 2..n + 2 + |columnDefs|][k - n - 2];
      }
    }
  }

  /** Without a qualifier and without dots, the table name is found right after the keyword. */
  lemma UnqualifiedMatch(name: string, columnDefs: string)
    requires |name| > 0 && AllIn(name, NameChar) && AllIn(columnDefs, BodyChar)
    requires AllIn(name, NotDot) && AllIn(columnDefs, NotDot)
    ensures CreateTableAt(CreateStatement("", name, columnDefs), 0) == Some(CreateTableMatch(name, columnDefs))
  {
    var s := CreateStatement("", name, columnDefs);
    var t := TableTail(name, columnDefs);
    StatementLayout("", name, columnDefs);
    TableTailLayout(name, columnDefs);
    assert SpellsAt(s, 13, t);
    assert InClass(s[13], NameChar) by { assert s[13] == t[0] == name[0]; }
    RunEndAt(s, 12, 13, Space);
    TailIn(name, columnDefs, NotDot);
    SpellsIn(s, 13, t, NotDot);
    RunEndAt(s, 13, |s|, NotDot);
    TableRestAt(s, 13, name, columnDefs);
  }

  /** A dot-free token followed by a dot at `j`: the first dot after `j` ends it. */
  lemma QualifierAt(s: string, j: nat, db: string)
    requires db != "" && AllIn(db, NotDot) && AllIn(db, Token)
    requires SpellsAt(s, j, db + ".")
    ensures !IsRegexSpace(s[j]) && RunEnd(s, j, NotDot) == j + |db| < |s|
  {
    var qual := db + ".";
    forall k | j <= k < j + |db| ensures InClass(s[k], NotDot) {
      assert s[k] == qual[k - j] == db[k - j];
    }
    assert s[j + |db|] == qual[|db|] == '.';
    assert InClass(s[j], Token) by { assert s[j] == qual[0] == db[0]; }
    RunEndAt(s, j, j + |db|, NotDot);
  }

  /** With a qualifier free of dots, the optional group takes it and the name follows the dot. */
  lemma QualifiedMatch(db: string, name: string, columnDefs: string)
    requires db != "" && AllIn(db, NotDot) && AllIn(db, Token)
    requires |name| > 0 && AllIn(name, NameChar) && AllIn(columnDefs, BodyChar)
    ensures CreateTableAt(CreateStatement(db, name, columnDefs), 0) == Some(CreateTableMatch(name, columnDefs))
  {
    var s := CreateStatement(db, name, columnDefs);
    StatementLayout(db, name, columnDefs);
    QualifierAt(s, 13, db);
    RunEndAt(s, 12, 13, Space);
    var d := RunEnd(s, 13, NotDot);
    TableRestAt(s, d + 1, name, columnDefs);
    QualifiedAt(s, d, CreateTableMatch(name, columnDefs));
  }

  /** After the keyword and one space, a dot ending a dot-free run, then the rest of the pattern. */
  lemma QualifiedAt(s: string, d: nat, m: CreateTableMatch)
    requires KeywordAt(s, 0) && 12 < |s| && RunEnd(s, 12, Space) == 13
    requires d == RunEnd(s, 13, NotDot) && 13 < d < |s|
    requires TableRest(s, d + 1) == Some(m)
    ensures CreateTableAt(s, 0) == Some(m)
  {
  }

  /**
   A one-line `CREATE TABLE [db.]name (columns);` statement yields its table name and its
   column text, provided the qualifier is a dot-free token and, without a qualifier, the
   name and the column text hold no dot.
   */
  lemma CreateTableRoundTrip(db: string, name: string, columnDefs: string)
    requires AllIn(db, NotDot) && AllIn(db, Token)
    requires |name| > 0 && AllIn(name, NameChar) && AllIn(columnDefs, BodyChar)
    requires db == "" ==> AllIn(name, NotDot) && AllIn(columnDefs, NotDot)
    ensures MatchCreateTable(CreateStatement(db, name, columnDefs)) == Some(CreateTableMatch(name, columnDefs))
  {
    if db == "" {
      UnqualifiedMatch(name, columnDefs);
    } else {
      QualifiedMatch(db, name, columnDefs);
    }
  }
}
