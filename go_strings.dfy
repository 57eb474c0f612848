/** The small result types shared by every module of the model. */
module Results {
  datatype Option<T> = None | Some(value: T)

  /** An operation that either yields a value or fails with an error. */
  datatype Result<T, E> = Ok(value: T) | Err(error: E)
}

/**
 The pieces of Go's `strings`, `strconv` and `sort` packages that the tool relies on,
 written over `string` (a sequence of Unicode scalar values).
 */
module GoStrings {
  import opened Results

  /** The characters of RE2's `\s` class: tab, newline, form feed, carriage return, space. */
  predicate IsRegexSpace(c: char) {
    c == '\t' || c == '\n' || c == '\U{0C}' || c == '\r' || c == ' '
  }

  /** The characters `unicode.IsSpace` accepts, which `strings.TrimSpace` removes. */
  const UnicodeSpaces: set<char> := {
    '\t', '\n', '\U{0B}', '\U{0C}', '\r', ' ', '\U{85}', '\U{A0}', '\U{1680}',
    '\U{2000}', '\U{2001}', '\U{2002}', '\U{2003}', '\U{2004}', '\U{2005}',
    '\U{2006}', '\U{2007}', '\U{2008}', '\U{2009}', '\U{200A}',
    '\U{2028}', '\U{2029}', '\U{202F}', '\U{205F}', '\U{3000}'
  }

  predicate IsLowerAscii(c: char) { 'a' <= c <= 'z' }

  function UpperChar(c: char): (u: char)
    ensures !IsLowerAscii(u)
    ensures IsLowerAscii(c) ==> u as int == c as int - 32
    ensures !IsLowerAscii(c) ==> u == c
  {
    if IsLowerAscii(c) then (c as int - 32) as char else c
  }

  /** `strings.ToUpper`, on the ASCII letters. */
  function ToUpper(s: string): (r: string)
    ensures |r| == |s|
    ensures forall i :: 0 <= i < |r| ==> r[i] == UpperChar(s[i])
  {
    seq(|s|, i requires 0 <= i < |s| => UpperChar(s[i]))
  }

  /** Upper-casing twice is upper-casing once. */
  lemma ToUpperIdempotent(s: string)
    ensures ToUpper(ToUpper(s)) == ToUpper(s)
  {
    assert forall i :: 0 <= i < |s| ==> ToUpper(ToUpper(s))[i] == ToUpper(s)[i];
  }

  lemma ToUpperConcat(a: string, b: string)
    ensures ToUpper(a + b) == ToUpper(a) + ToUpper(b)
  {
    assert forall i :: 0 <= i < |a + b| ==> ToUpper(a + b)[i] == (ToUpper(a) + ToUpper(b))[i];
  }

  predicate HasPrefix(s: string, p: string) { p <= s }

  predicate HasSuffix(s: string, p: string) {
    |p| <= |s| && s[|s| - |p|..] == p
  }

  function TrimPrefix(s: string, p: string): (r: string)
    ensures HasPrefix(s, p) ==> s == p + r
    ensures !HasPrefix(s, p) ==> r == s
  {
    if HasPrefix(s, p) then s[|p|..] else s
  }

  /** `strings.Contains`: `sub` occurs somewhere in `s`. */
  predicate Contains(s: string, sub: string) {
    exists i :: 0 <= i <= |s| - |sub| && sub <= s[i..]
  }

  /** Leading characters in `cut` removed (the left half of `strings.Trim`). */
  function TrimLeft(s: string, cut: set<char>): (r: string)
    ensures |r| <= |s| && r == s[|s| - |r|..]
    ensures r == [] || r[0] !in cut
  {
    if |s| > 0 && s[0] in cut then TrimLeft(s[1..], cut) else s
  }

  /** What `TrimLeft` removes is all in `cut`. */
  lemma {:induction false} TrimLeftRemovesCut(s: string, cut: set<char>)
    ensures forall k :: 0 <= k < |s| - |TrimLeft(s, cut)| ==> s[k] in cut
  {
    if |s| > 0 && s[0] in cut {
      TrimLeftRemovesCut(s[1..], cut);
      assert forall k :: 1 <= k < |s| ==> s[k] == s[1..][k - 1];
    }
  }

  /** Trailing characters in `cut` removed (the right half of `strings.Trim`). */
  function TrimRight(s: string, cut: set<char>): (r: string)
    ensures |r| <= |s| && r == s[..|r|]
    ensures r == [] || r[|r| - 1] !in cut
  {
    if |s| > 0 && s[|s| - 1] in cut then TrimRight(s[..|s| - 1], cut) else s
  }

  /** What `TrimRight` removes is all in `cut`. */
  lemma {:induction false} TrimRightRemovesCut(s: string, cut: set<char>)
    ensures forall k :: |TrimRight(s, cut)| <= k < |s| ==> s[k] in cut
  {
    if |s| > 0 && s[|s| - 1] in cut {
      TrimRightRemovesCut(s[..|s| - 1], cut);
    }
  }

  /** `strings.Trim(s, cutset)`. */
  function Trim(s: string, cut: set<char>): string {
    TrimRight(TrimLeft(s, cut), cut)
  }

  /** `Trim` leaves neither end in `cut`. */
  lemma TrimEnds(s: string, cut: set<char>)
    ensures var r := Trim(s, cut);
      r == [] || (r[0] !in cut && r[|r| - 1] !in cut)
  {
    var l := TrimLeft(s, cut);
    var r := TrimRight(l, cut);
    if r != [] {
      assert r[0] == l[0];
    }
  }

  /** `strings.TrimSpace`. */
  function TrimSpace(s: string): string {
    Trim(s, UnicodeSpaces)
  }

  /** A string that neither starts nor ends with a character of `cut` is left alone by `Trim`. */
  lemma TrimUntouched(s: string, cut: set<char>)
    requires s == [] || (s[0] !in cut && s[|s| - 1] !in cut)
    ensures Trim(s, cut) == s
  {
  }

  // ---------------------------------------------------------------------------
  // Decimal formatting (`%d`) and its inverse

  predicate IsDigit(c: char) { '0' <= c <= '9' }

  function DigitChar(d: nat): (c: char)
    requires d < 10
    ensures IsDigit(c)
  {
    ('0' as int + d) as char
  }

  function DigitValue(c: char): nat
    requires IsDigit(c)
  {
    c as int - '0' as int
  }

  /** The decimal digits of `n`, most significant first, as `%d` prints them. */
  function NatToString(n: nat): (r: string)
    ensures |r| >= 1
    ensures forall i :: 0 <= i < |r| ==> IsDigit(r[i])
    decreases n
  {
    if n < 10 then [DigitChar(n)] else NatToString(n / 10) + [DigitChar(n % 10)]
  }

  /** `%d` of a signed integer. */
  function IntToString(i: int): (r: string)
    ensures |r| >= 1
    ensures (i < 0) == (r[0] == '-')
  {
    if i < 0 then "-" + NatToString(-i) else NatToString(i)
  }

  function DigitsValue(s: string): nat
    requires forall i :: 0 <= i < |s| ==> IsDigit(s[i])
  {
    if |s| == 0 then 0 else 10 * DigitsValue(s[..|s| - 1]) + DigitValue(s[|s| - 1])
  }

  /** The number a non-empty run of decimal digits denotes; `None` for anything else. */
  function ParseNat(s: string): (r: Option<nat>)
    ensures r.Some? <==> |s| >= 1 && forall i :: 0 <= i < |s| ==> IsDigit(s[i])
  {
    if |s| >= 1 && forall i :: 0 <= i < |s| ==> IsDigit(s[i]) then Some(DigitsValue(s)) else None
  }

  /** Decimal formatting loses nothing: parsing the digits gives the number back. */
  lemma {:induction false} ParseNatRoundTrip(n: nat)
    ensures ParseNat(NatToString(n)) == Some(n)
    decreases n
  {
    var s := NatToString(n);
    if n < 10 {
      assert s[..0] == [];
      assert DigitsValue(s[..0]) == 0;
      assert DigitValue(s[0]) == n;
    } else {
      ParseNatRoundTrip(n / 10);
      var a := NatToString(n / 10);
      assert s == a + [DigitChar(n % 10)];
      assert s[..|s| - 1] == a;
    }
  }

  // ---------------------------------------------------------------------------
  // Byte-wise string order (`<` on Go strings, which `sort.Strings` uses)

  /**
   Lexicographic order by code point. On valid UTF-8 this is the same order as Go's
   byte-wise comparison of strings.
   */
  predicate LexLess(a: string, b: string) {
    if |a| == 0 then |b| > 0
    else if |b| == 0 then false
    else if a[0] != b[0] then a[0] < b[0]
    else LexLess(a[1..], b[1..])
  }

  lemma {:induction false} LexIrreflexive(a: string)
    ensures !LexLess(a, a)
  {
    if |a| > 0 {
      LexIrreflexive(a[1..]);
    }
  }

  lemma {:induction false} LexTransitive(a: string, b: string, c: string)
    requires LexLess(a, b) && LexLess(b, c)
    ensures LexLess(a, c)
  {
    if |a| > 0 && |b| > 0 && |c| > 0 && a[0] == b[0] && b[0] == c[0] {
      LexTransitive(a[1..], b[1..], c[1..]);
    }
  }

  lemma {:induction false} LexTotal(a: string, b: string)
    ensures a == b || LexLess(a, b) || LexLess(b, a)
  {
    if |a| > 0 && |b| > 0 && a[0] == b[0] {
      LexTotal(a[1..], b[1..]);
      if a[1..] == b[1..] {
        assert a == [a[0]] + a[1..] && b == [b[0]] + b[1..];
      }
    }
  }

  lemma LexAsymmetric(a: string, b: string)
    requires LexLess(a, b)
    ensures !LexLess(b, a)
  {
    if LexLess(b, a) {
      LexTransitive(a, b, a);
      LexIrreflexive(a);
    }
  }

  predicate StrictlySorted(s: seq<string>) {
    forall i, j :: 0 <= i < j < |s| ==> LexLess(s[i], s[j])
  }

  predicate IsLeast(m: string, keys: set<string>) {
    forall k :: k in keys ==> k == m || LexLess(m, k)
  }

  lemma {:induction false} LeastExists(keys: set<string>)
    requires keys != {}
    ensures exists m :: m in keys && IsLeast(m, keys)
    decreases |keys|
  {
    var x :| x in keys;
    var rest := keys - {x};
    if rest == {} {
      assert keys == {x};
      assert IsLeast(x, keys);
    } else {
      LeastExists(rest);
      var m :| m in rest && IsLeast(m, rest);
      LexTotal(x, m);
      if LexLess(x, m) {
        forall k | k in keys ensures k == x || LexLess(x, k) {
          if k != x && k != m {
            LexTransitive(x, m, k);
          }
        }
      } else {
        assert IsLeast(m, keys);
      }
    }
  }

  lemma LeastUnique(keys: set<string>)
    ensures forall m, n :: m in keys && IsLeast(m, keys) && n in keys && IsLeast(n, keys) ==> m == n
  {
    forall m, n | m in keys && IsLeast(m, keys) && n in keys && IsLeast(n, keys)
      ensures m == n
    {
      if m != n {
        LexAsymmetric(m, n);
      }
    }
  }

  /** The least of a non-empty set of strings. */
  function Least(keys: set<string>): (m: string)
    requires keys != {}
    ensures m in keys && IsLeast(m, keys)
  {
    LeastExists(keys);
    LeastUnique(keys);
    var m :| m in keys && IsLeast(m, keys);
    m
  }

  /** A member below all the others is the least. */
  lemma LeastIs(keys: set<string>, m: string)
    requires m in keys && IsLeast(m, keys)
    ensures Least(keys) == m
  {
    LeastUnique(keys);
  }

  /** The keys of a Go map collected into a slice and passed to `sort.Strings`. */
  function SortedKeys(keys: set<string>): (r: seq<string>)
    ensures StrictlySorted(r)
    ensures forall k :: k in r <==> k in keys
    ensures |r| == |keys|
    decreases |keys|
  {
    if keys == {} then []
    else
      var m := Least(keys);
      var rest := SortedKeys(keys - {m});
      assert forall k :: k in rest ==> LexLess(m, k);
      [m] + rest
  }
}
