/** The JavaScript string built-ins the search engine relies on, written out
    over `seq<char>`: lower-casing, `trim`, `split`, the line split on `\r?\n`,
    the collapse of line-break runs, decimal rendering of numbers, spreadsheet
    column names, `join` and the default `sort` of an array of strings. */
module Text {

  // ---------------------------------------------------------------------------
  // Characters

  /** Length-preserving lower-casing of one character: ASCII letters and the
      upper-case letters of Latin-1 (À..Þ, except the multiplication sign). */
  function LowerChar(c: char): (r: char)
    ensures 'A' <= c <= 'Z' ==> r as int == c as int + 32
    ensures !('A' <= c <= 'Z') && !('À' <= c <= 'Þ') ==> r == c
  {
    if 'A' <= c <= 'Z' || ('À' <= c <= 'Þ' && c != '×') then
      (c as int + 32) as char
    else
      c
  }

  /** `toLowerCase`, character by character, so positions are kept. */
  function Lower(s: string): (r: string)
    ensures |r| == |s|
    ensures forall i :: 0 <= i < |s| ==> r[i] == LowerChar(s[i])
  {
    seq(|s|, i requires 0 <= i < |s| => LowerChar(s[i]))
  }

  /** Lower-casing commutes with taking a slice. */
  lemma LowerSlice(s: string, i: nat, j: nat)
    requires i <= j <= |s|
    ensures Lower(s[i..j]) == Lower(s)[i..j]
  {
  }

  /** The characters `String.prototype.trim` removes: white space and line
      terminators. */
  predicate IsSpace(c: char) {
    c == '\t' || c == '\n' || c == '\U{000B}' || c == '\U{000C}' || c == '\r' || c == ' '
    || c == '\U{00A0}' || c == '\U{1680}' || ('\U{2000}' <= c <= '\U{200A}')
    || c == '\U{2028}' || c == '\U{2029}' || c == '\U{202F}' || c == '\U{205F}'
    || c == '\U{3000}' || c == '\U{FEFF}'
  }

  predicate IsBreak(c: char) {
    c == '\r' || c == '\n'
  }

  predicate NoBreaks(s: string) {
    forall i :: 0 <= i < |s| ==> !IsBreak(s[i])
  }

  /** A string is blank when `trim` leaves nothing of it. */
  predicate IsBlank(s: string) {
    forall i :: 0 <= i < |s| ==> IsSpace(s[i])
  }

  predicate StartsWith(s: string, p: string) {
    |p| <= |s| && s[..|p|] == p
  }

  // ---------------------------------------------------------------------------
  // trim

  function LeadingSpaces(s: string): (n: nat)
    ensures n <= |s|
    ensures forall i :: 0 <= i < n ==> IsSpace(s[i])
    ensures n < |s| ==> !IsSpace(s[n])
  {
    if s == [] || !IsSpace(s[0]) then 0 else 1 + LeadingSpaces(s[1..])
  }

  function TrailingSpaces(s: string): (n: nat)
    ensures n <= |s|
    ensures forall i :: |s| - n <= i < |s| ==> IsSpace(s[i])
    ensures n < |s| ==> !IsSpace(s[|s| - 1 - n])
  {
    if s == [] || !IsSpace(s[|s| - 1]) then 0 else 1 + TrailingSpaces(s[..|s| - 1])
  }

  /** `trim`: the slice of `s` between its leading and its trailing white
      space. */
  function Trim(s: string): string
  {
    var t := s[LeadingSpaces(s)..];
    t[..|t| - TrailingSpaces(t)]
  }

  /** What `trim` leaves: a slice of the string, empty exactly when the string
      is blank, and otherwise beginning and ending with a character that is not
      white space. */
  lemma TrimFacts(s: string)
    ensures |Trim(s)| <= |s|
    ensures Trim(s) == [] <==> IsBlank(s)
    ensures Trim(s) != [] ==> !IsSpace(Trim(s)[0]) && !IsSpace(Trim(s)[|Trim(s)| - 1])
    ensures LeadingSpaces(s) + |Trim(s)| <= |s|
    ensures Trim(s) == s[LeadingSpaces(s)..LeadingSpaces(s) + |Trim(s)|]
  {
    TrimSlice(s);
    TrimEnds(s);
  }

  lemma TrimSlice(s: string)
    ensures LeadingSpaces(s) + |Trim(s)| <= |s|
    ensures Trim(s) == s[LeadingSpaces(s)..LeadingSpaces(s) + |Trim(s)|]
  {
    var a := LeadingSpaces(s);
    var t := s[a..];
    var r := t[..|t| - TrailingSpaces(t)];
    assert Trim(s) == r;
    assert r == s[a..a + |r|];
  }

  lemma TrimEnds(s: string)
    ensures Trim(s) == [] <==> IsBlank(s)
    ensures Trim(s) != [] ==> !IsSpace(Trim(s)[0]) && !IsSpace(Trim(s)[|Trim(s)| - 1])
  {
    var a := LeadingSpaces(s);
    var t := s[a..];
    var b := TrailingSpaces(t);
    var r := t[..|t| - b];
    assert Trim(s) == r;
    if a == |s| {
      assert r == [];
      assert IsBlank(s);
    } else {
      assert !IsSpace(t[0]);
      assert b < |t|;
      assert r[0] == t[0] && r[|r| - 1] == t[|t| - 1 - b];
      assert !IsSpace(s[a]);
    }
  }

  /** Trimming twice is trimming once. */
  lemma TrimIdempotent(s: string)
    ensures Trim(Trim(s)) == Trim(s)
  {
    TrimFacts(s);
    var r := Trim(s);
    if r != [] {
      assert LeadingSpaces(r) == 0;
      assert TrailingSpaces(r[0..]) == 0 by { assert r[0..] == r; }
    }
  }

  // ---------------------------------------------------------------------------
  // replace(/[\r\n]+/g, ' ')

  function DropBreaks(s: string): (r: string)
    ensures |r| <= |s| && r == s[|s| - |r|..]
    ensures r == [] || !IsBreak(r[0])
    ensures s != [] && !IsBreak(s[|s| - 1]) ==> r != [] && r[|r| - 1] == s[|s| - 1]
  {
    if s != [] && IsBreak(s[0]) then DropBreaks(s[1..]) else s
  }

  /** Every maximal run of `\r`/`\n` characters replaced by one space. */
  function Collapse(s: string): string
    decreases |s|
  {
    if s == [] then []
    else if IsBreak(s[0]) then [' '] + Collapse(DropBreaks(s[1..]))
    else [s[0]] + Collapse(s[1..])
  }

  /** The collapse leaves no line break and is no longer than its input. */
  lemma {:induction false} CollapseNoBreaks(s: string)
    decreases |s|
    ensures NoBreaks(Collapse(s)) && |Collapse(s)| <= |s|
  {
    if s == [] {
    } else if IsBreak(s[0]) {
      CollapseNoBreaks(DropBreaks(s[1..]));
    } else {
      CollapseNoBreaks(s[1..]);
    }
  }

  /** A string without line breaks is left as it is. */
  lemma {:induction false} CollapseIdentity(s: string)
    requires NoBreaks(s)
    decreases |s|
    ensures Collapse(s) == s
  {
    if s != [] {
      CollapseIdentity(s[1..]);
    }
  }

  /** A last character that is not a line break stays last. */
  lemma {:induction false} CollapseLast(s: string)
    requires s != [] && !IsBreak(s[|s| - 1])
    decreases |s|
    ensures Collapse(s) != [] && Collapse(s)[|Collapse(s)| - 1] == s[|s| - 1]
  {
    var t := s[1..];
    if IsBreak(s[0]) {
      var d := DropBreaks(t);
      assert t != [] && t[|t| - 1] == s[|s| - 1];
      CollapseLast(d);
    } else if t != [] {
      assert t[|t| - 1] == s[|s| - 1];
      CollapseLast(t);
    }
  }

  // ---------------------------------------------------------------------------
  // split and join

  /** The parts with `sep` between each two of them, as `Array.prototype.join` builds
      them. */
  function Join(parts: seq<string>, sep: string): string
  {
    if |parts| == 0 then ""
    else if |parts| == 1 then parts[0]
    else parts[0] + sep + Join(parts[1..], sep)
  }

  /** `s.split(d)` for a one-character separator `d`: the pieces between the
      separators, in order, empty pieces included. */
  function Split(s: string, d: char): (r: seq<string>)
    ensures |r| >= 1
    ensures forall i :: 0 <= i < |r| ==> d !in r[i]
  {
    if s == [] then [""]
    else if s[0] == d then [""] + Split(s[1..], d)
    else
      var rest := Split(s[1..], d);
      [[s[0]] + rest[0]] + rest[1..]
  }

  /** Joining the pieces of a split with the separator gives the string back. */
  lemma {:induction false} SplitJoin(s: string, d: char)
    ensures Join(Split(s, d), [d]) == s
  {
    if s == [] {
    } else if s[0] == d {
      SplitJoin(s[1..], d);
      var rest := Split(s[1..], d);
      assert Split(s, d) == [""] + rest;
      assert ([""] + rest)[1..] == rest;
    } else {
      SplitJoin(s[1..], d);
      var rest := Split(s[1..], d);
      var r := Split(s, d);
      assert r == [[s[0]] + rest[0]] + rest[1..];
      if |rest| == 1 {
        assert Join(r, [d]) == [s[0]] + rest[0];
      } else {
        assert r[1..] == rest[1..];
        assert Join(r, [d]) == [s[0]] + rest[0] + [d] + Join(rest[1..], [d]);
      }
    }
  }

  /** A string without the separator is one piece. */
  lemma {:induction false} SplitPlain(a: string, d: char)
    requires d !in a
    ensures Split(a, d) == [a]
  {
    if a != [] {
      SplitPlain(a[1..], d);
      assert [a[0]] + a[1..] == a;
    }
  }

  /** A piece without the separator, then the separator, splits off first. */
  lemma {:induction false} SplitPrefix(a: string, d: char, s: string)
    requires d !in a
    ensures Split(a + [d] + s, d) == [a] + Split(s, d)
  {
    var x := a + [d] + s;
    if a == [] {
      assert x == [d] + s && x[1..] == s;
    } else {
      SplitPrefix(a[1..], d, s);
      assert x[1..] == a[1..] + [d] + s;
      var rest := Split(x[1..], d);
      assert rest[0] == a[1..] && rest[1..] == Split(s, d);
      assert [a[0]] + a[1..] == a;
    }
  }

  /** Splitting a join of pieces without the separator gives the pieces back. */
  lemma {:induction false} JoinSplit(ps: seq<string>, d: char)
    requires |ps| >= 1
    requires forall i :: 0 <= i < |ps| ==> d !in ps[i]
    ensures Split(Join(ps, [d]), d) == ps
    decreases |ps|
  {
    if |ps| == 1 {
      SplitPlain(ps[0], d);
    } else {
      JoinSplit(ps[1..], d);
      SplitPrefix(ps[0], d, Join(ps[1..], [d]));
      assert ps == [ps[0]] + ps[1..];
    }
  }

  /** `s.split(/\r?\n/)`: the pieces between line feeds, each losing one
      carriage return that stood just before its line feed. */
  function SplitLines(s: string): (r: seq<string>)
    ensures |r| == |Split(s, '\n')| && |r| >= 1
    ensures forall i :: 0 <= i < |r| ==> '\n' !in r[i]
    ensures forall i :: 0 <= i < |r| - 1 ==>
      r[i] == var p := Split(s, '\n')[i]; if p != [] && p[|p| - 1] == '\r' then p[..|p| - 1] else p
    ensures r[|r| - 1] == Split(s, '\n')[|r| - 1]
  {
    var ps := Split(s, '\n');
    seq(|ps|, i requires 0 <= i < |ps| =>
      if i < |ps| - 1 && ps[i] != [] && ps[i][|ps[i]| - 1] == '\r' then ps[i][..|ps[i]| - 1] else ps[i])
  }

  // ---------------------------------------------------------------------------
  // Decimal numbers

  function Digit(d: nat): (c: char)
    requires d < 10
    ensures '0' <= c <= '9' && c as int - '0' as int == d
  {
    ('0' as int + d) as char
  }

  predicate AllDigits(s: string) {
    forall i :: 0 <= i < |s| ==> '0' <= s[i] <= '9'
  }

  /** The decimal rendering of a number, as a template literal prints it. */
  function NatToString(n: nat): (r: string)
    ensures |r| >= 1 && AllDigits(r)
    ensures |r| > 1 ==> r[0] != '0'
  {
    if n < 10 then [Digit(n)] else NatToString(n / 10) + [Digit(n % 10)]
  }

  /** The value of a string of decimal digits. */
  function DigitsValue(s: string): nat
    requires AllDigits(s)
  {
    if s == [] then 0 else DigitsValue(s[..|s| - 1]) * 10 + (s[|s| - 1] as int - '0' as int)
  }

  /** Rendering a number in decimal loses nothing. */
  lemma {:induction false} DecimalRoundTrip(n: nat)
    ensures DigitsValue(NatToString(n)) == n
  {
    if n >= 10 {
      DecimalRoundTrip(n / 10);
      var r := NatToString(n);
      assert r[..|r| - 1] == NatToString(n / 10);
    }
  }

  /** Different numbers are rendered differently. */
  lemma DecimalInjective(m: nat, n: nat)
    requires NatToString(m) == NatToString(n)
    ensures m == n
  {
    DecimalRoundTrip(m);
    DecimalRoundTrip(n);
  }

  // ---------------------------------------------------------------------------
  // Spreadsheet column names

  function Letter(d: nat): (c: char)
    requires d < 26
    ensures 'A' <= c <= 'Z' && c as int - 'A' as int == d
  {
    ('A' as int + d) as char
  }

  predicate AllLetters(s: string) {
    forall i :: 0 <= i < |s| ==> 'A' <= s[i] <= 'Z'
  }

  /** The column name of a zero-based column index in bijective base 26:
      A..Z, AA..AZ, BA, ... */
  function ColumnName(col: nat): (r: string)
    ensures |r| >= 1 && AllLetters(r)
  {
    if col < 26 then [Letter(col)] else ColumnName(col / 26 - 1) + [Letter(col % 26)]
  }

  /** The zero-based column index a column name stands for. */
  function ColumnIndex(s: string): nat
    requires |s| >= 1 && AllLetters(s)
  {
    var last := s[|s| - 1] as int - 'A' as int;
    if |s| == 1 then last else (ColumnIndex(s[..|s| - 1]) + 1) * 26 + last
  }

  lemma DivMod26(q: nat, d: nat)
    requires d < 26
    ensures (q * 26 + d) / 26 == q && (q * 26 + d) % 26 == d
  {
  }

  /** A column name decodes to the index it was made from. */
  lemma {:induction false} ColumnNameRoundTrip(col: nat)
    ensures ColumnIndex(ColumnName(col)) == col
  {
    if col >= 26 {
      var q := col / 26 - 1;
      ColumnNameRoundTrip(q);
      var r := ColumnName(col);
      assert r[..|r| - 1] == ColumnName(q);
    }
  }

  /** Every non-empty string of capital letters is the name of exactly the
      column it decodes to, so column names and indices are in bijection. */
  lemma {:induction false} ColumnIndexRoundTrip(s: string)
    requires |s| >= 1 && AllLetters(s)
    ensures ColumnName(ColumnIndex(s)) == s
  {
    var last := s[|s| - 1] as int - 'A' as int;
    assert Letter(last) == s[|s| - 1];
    if |s| > 1 {
      var p := s[..|s| - 1];
      assert AllLetters(p);
      ColumnIndexRoundTrip(p);
      var col := (ColumnIndex(p) + 1) * 26 + last;
      assert ColumnIndex(s) == col;
      DivMod26(ColumnIndex(p) + 1, last);
      assert ColumnName(col) == ColumnName(ColumnIndex(p)) + [Letter(last)];
      assert s == p + [s[|s| - 1]];
    }
  }

  // ---------------------------------------------------------------------------
  // The default sort of an array of strings (UTF-16 code-unit order)

  /** The UTF-16 encoding of one character: itself below U+10000, otherwise a
      high surrogate followed by a low surrogate. */
  function CodeUnits(c: char): (r: seq<int>)
    ensures 1 <= |r| <= 2
  {
    if c as int < 0x1_0000 then [c as int]
    else [0xD800 + (c as int - 0x1_0000) / 0x400, 0xDC00 + (c as int - 0x1_0000) % 0x400]
  }

  /** The sequence of UTF-16 code units JavaScript sees for a string. */
  function Utf16(s: string): (r: seq<int>)
    ensures |r| >= |s|
  {
    if s == [] then [] else CodeUnits(s[0]) + Utf16(s[1..])
  }

  /** JavaScript's comparison of strings: lexicographic over code units, a
      proper prefix first. */
  predicate UnitsLe(a: seq<int>, b: seq<int>)
    decreases |a|
  {
    a == [] || (b != [] && (a[0] < b[0] || (a[0] == b[0] && UnitsLe(a[1..], b[1..]))))
  }

  /** A key whose order on characters is the order of their first code units:
      characters from U+E000 to U+FFFF come after every surrogate pair. */
  function UnitKey(c: char): (k: int)
    ensures UnitKey(c) == c as int || UnitKey(c) == c as int + 0x11_0000
  {
    if 0xE000 <= c as int <= 0xFFFF then c as int + 0x11_0000 else c as int
  }

  /** String order by characters, compared through `UnitKey`. */
  predicate LexLe(a: string, b: string)
    decreases |a|
  {
    a == [] || (b != [] && (UnitKey(a[0]) < UnitKey(b[0]) || (a[0] == b[0] && LexLe(a[1..], b[1..]))))
  }

  lemma UnitKeyInjective(x: char, y: char)
    requires x != y
    ensures UnitKey(x) != UnitKey(y)
  {
  }

  lemma {:induction false} UnitsLeCommonPrefix(p: seq<int>, a: seq<int>, b: seq<int>)
    ensures UnitsLe(p + a, p + b) == UnitsLe(a, b)
    decreases |p|
  {
    if p != [] {
      assert (p + a)[1..] == p[1..] + a;
      assert (p + b)[1..] == p[1..] + b;
      UnitsLeCommonPrefix(p[1..], a, b);
    } else {
      assert p + a == a && p + b == b;
    }
  }

  /** Two different characters: their code units decide the comparison, in
      the order of their keys, whatever follows them. */
  lemma CodeUnitsOrder(x: char, y: char, a: seq<int>, b: seq<int>)
    requires x != y
    ensures UnitsLe(CodeUnits(x) + a, CodeUnits(y) + b) == (UnitKey(x) < UnitKey(y))
  {
    var u, v := CodeUnits(x) + a, CodeUnits(y) + b;
    if x as int >= 0x1_0000 && y as int >= 0x1_0000 && u[0] == v[0] {
      var dx, dy := x as int - 0x1_0000, y as int - 0x1_0000;
      assert dx == 0x400 * (dx / 0x400) + dx % 0x400;
      assert dy == 0x400 * (dy / 0x400) + dy % 0x400;
      assert u[1] != v[1];
      assert UnitsLe(u, v) == (u[1] < v[1]);
    } else {
      assert x as int >= 0x1_0000 ==> 0xD800 <= u[0] <= 0xDBFF;
      assert y as int >= 0x1_0000 ==> 0xD800 <= v[0] <= 0xDBFF;
      assert u[0] != v[0];
    }
  }

  /** The key order on strings is JavaScript's code-unit order. */
  lemma {:induction false} LexLeUtf16(a: string, b: string)
    ensures LexLe(a, b) == UnitsLe(Utf16(a), Utf16(b))
    decreases |a|
  {
    if a != [] && b != [] {
      if a[0] == b[0] {
        LexLeUtf16(a[1..], b[1..]);
        UnitsLeCommonPrefix(CodeUnits(a[0]), Utf16(a[1..]), Utf16(b[1..]));
      } else {
        CodeUnitsOrder(a[0], b[0], Utf16(a[1..]), Utf16(b[1..]));
      }
    }
  }

  lemma {:induction false} LexLeTotal(a: string, b: string)
    ensures LexLe(a, b) || LexLe(b, a)
    decreases |a|
  {
    if a != [] && b != [] {
      if a[0] == b[0] {
        LexLeTotal(a[1..], b[1..]);
      } else {
        UnitKeyInjective(a[0], b[0]);
      }
    }
  }

  lemma {:induction false} LexLeTransitive(a: string, b: string, c: string)
    requires LexLe(a, b) && LexLe(b, c)
    ensures LexLe(a, c)
    decreases |a|
  {
    if a != [] && a[0] == b[0] && b[0] == c[0] {
      LexLeTransitive(a[1..], b[1..], c[1..]);
    }
  }

  predicate Sorted(s: seq<string>) {
    forall i, j :: 0 <= i < j < |s| ==> LexLe(s[i], s[j])
  }

  function Insert(x: string, s: seq<string>): (r: seq<string>)
    requires Sorted(s)
    ensures Sorted(r)
    ensures multiset(r) == multiset(s) + multiset{x}
  {
    if s == [] then [x]
    else if LexLe(x, s[0]) then
      assert forall j :: 0 < j < |s| ==> LexLe(x, s[j]) by {
        forall j | 0 < j < |s| ensures LexLe(x, s[j]) {
          LexLeTransitive(x, s[0], s[j]);
        }
      }
      [x] + s
    else
      LexLeTotal(x, s[0]);
      var t := Insert(x, s[1..]);
      assert s == [s[0]] + s[1..];
      assert forall j :: 0 <= j < |t| ==> LexLe(s[0], t[j]) by {
        forall j | 0 <= j < |t| ensures LexLe(s[0], t[j]) {
          assert t[j] in multiset(t);
          assert t[j] in multiset(s[1..]) || t[j] == x;
          if t[j] != x {
            var k :| 0 <= k < |s[1..]| && s[1..][k] == t[j];
            assert LexLe(s[0], s[k + 1]);
          }
        }
      }
      [s[0]] + t
  }

  /** `Array.prototype.sort` with no comparator on strings: a sorted
      rearrangement of the same names. */
  function SortStrings(s: seq<string>): (r: seq<string>)
    ensures Sorted(r)
    ensures multiset(r) == multiset(s)
    ensures |r| == |s|
  {
    if s == [] then []
    else
      var r := Insert(s[|s| - 1], SortStrings(s[..|s| - 1]));
      assert s == s[..|s| - 1] + [s[|s| - 1]];
      assert |r| == |multiset(r)|;
      r
  }
}
