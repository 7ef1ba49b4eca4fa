/** The context-snippet finder `_getContextSnippets`: every non-overlapping,
    case-insensitive, left-to-right literal match of a search string in a text,
    each turned into a snippet (the bare match between `>>>` and `<<<`, or a
    window of context around it with every occurrence of the search string
    marked), optionally labelled with a page number. */
module ContextSearch {
  import opened Wrappers
  import opened Text

  // ---------------------------------------------------------------------------
  // The scan

  /** `pat` occurs in `text` at offset `p`. */
  predicate MatchAt(text: string, pat: string, p: nat) {
    p + |pat| <= |text| && text[p..p + |pat|] == pat
  }

  /** The comparison a literal regular expression makes at offset `p`, from
      the `k`-th character of `pat` on. */
  predicate SameFrom(text: string, pat: string, p: nat, k: nat)
    requires p + |pat| <= |text| && k <= |pat|
    decreases |pat| - k
  {
    k == |pat| || (text[p + k] == pat[k] && SameFrom(text, pat, p, k + 1))
  }

  /** The comparison succeeds exactly on an occurrence. */
  lemma {:induction false} SameFromMatch(text: string, pat: string, p: nat, k: nat)
    requires p + |pat| <= |text| && k <= |pat|
    decreases |pat| - k
    ensures SameFrom(text, pat, p, k) <==> text[p + k..p + |pat|] == pat[k..]
  {
    if k < |pat| {
      SameFromMatch(text, pat, p, k + 1);
      assert text[p + k..p + |pat|] == [text[p + k]] + text[p + k + 1..p + |pat|];
      assert pat[k..] == [pat[k]] + pat[k + 1..];
    }
  }

  /** One `exec` of the global regular expression whose `lastIndex` is `from`:
      the first offset at or after `from` where `pat` occurs. */
  function NextMatch(text: string, pat: string, from: nat): (r: Option<nat>)
    decreases |text| - from
    ensures r.Some? ==> from <= r.value && r.value + |pat| <= |text|
  {
    if from + |pat| > |text| then None
    else if SameFrom(text, pat, from, 0) then Some(from)
    else NextMatch(text, pat, from + 1)
  }

  /** `exec` finds the leftmost occurrence at or after `from`, and reports
      none exactly when there is none. */
  lemma {:induction false} NextMatchLeftmost(text: string, pat: string, from: nat)
    decreases |text| - from
    ensures var r := NextMatch(text, pat, from);
      (r.Some? ==> MatchAt(text, pat, r.value)) &&
      (r.Some? ==> forall q :: from <= q < r.value ==> !MatchAt(text, pat, q)) &&
      (r.None? ==> forall q :: from <= q ==> !MatchAt(text, pat, q))
  {
    if from + |pat| <= |text| {
      SameFromMatch(text, pat, from, 0);
      if !SameFrom(text, pat, from, 0) {
        NextMatchLeftmost(text, pat, from + 1);
      }
    }
  }

  /** The offsets the scan reports from `from` on: each search resumes where
      the previous match ended, so matches never overlap. */
  function Matches(text: string, pat: string, from: nat): (ps: seq<nat>)
    requires |pat| > 0 && from <= |text|
    decreases |text| - from
    ensures forall i :: 0 <= i < |ps| ==> from <= ps[i] && ps[i] + |pat| <= |text|
  {
    match NextMatch(text, pat, from)
    case None => []
    case Some(p) => [p] + Matches(text, pat, p + |pat|)
  }

  /** Every reported offset is an occurrence of `pat`. */
  lemma {:induction false} MatchesSound(text: string, pat: string, from: nat, i: nat)
    requires |pat| > 0 && from <= |text|
    requires i < |Matches(text, pat, from)|
    ensures MatchAt(text, pat, Matches(text, pat, from)[i])
    decreases |text| - from
  {
    match NextMatch(text, pat, from)
    case None =>
    case Some(p) =>
      if i > 0 {
        MatchesSound(text, pat, p + |pat|, i - 1);
      } else {
        NextMatchLeftmost(text, pat, from);
      }
  }

  /** Reported matches come in increasing order and never overlap. */
  lemma {:induction false} MatchesDisjoint(text: string, pat: string, from: nat, i: nat, j: nat)
    requires |pat| > 0 && from <= |text|
    requires i < j < |Matches(text, pat, from)|
    ensures Matches(text, pat, from)[i] + |pat| <= Matches(text, pat, from)[j]
    decreases |text| - from
  {
    match NextMatch(text, pat, from)
    case None =>
    case Some(p) =>
      var ps, rest := Matches(text, pat, from), Matches(text, pat, p + |pat|);
      assert ps == [p] + rest;
      assert ps[i] == if i == 0 then p else rest[i - 1];
      assert ps[j] == rest[j - 1];
      if i > 0 {
        MatchesDisjoint(text, pat, p + |pat|, i - 1, j - 1);
      }
  }

  /** Some reported match starts at or before `q` and covers it. */
  ghost predicate Covered(ps: seq<nat>, len: nat, q: nat) {
    exists i :: 0 <= i < |ps| && ps[i] <= q < ps[i] + len
  }

  /** The scan is greedy from the left: every occurrence of `pat` after `from`
      is either reported or overlaps a reported match that starts before it. */
  lemma {:induction false} MatchesComplete(text: string, pat: string, from: nat, q: nat)
    requires |pat| > 0 && from <= |text|
    requires from <= q && MatchAt(text, pat, q)
    ensures Covered(Matches(text, pat, from), |pat|, q)
    decreases |text| - from
  {
    var ps := Matches(text, pat, from);
    match NextMatch(text, pat, from)
    case None =>
      NextMatchLeftmost(text, pat, from);
    case Some(p) =>
      var rest := Matches(text, pat, p + |pat|);
      assert ps == [p] + rest;
      if q < p + |pat| {
        NextMatchLeftmost(text, pat, from);
        assert 0 < |ps| && ps[0] <= q < ps[0] + |pat|;
      } else {
        MatchesComplete(text, pat, p + |pat|, q);
        var i :| 0 <= i < |rest| && rest[i] <= q < rest[i] + |pat|;
        assert i + 1 < |ps| && ps[i + 1] <= q < ps[i + 1] + |pat|;
      }
  }

  /** The number of snippets a search produces. */
  function MatchCount(text: string, term: string): nat
    requires term != []
  {
    |Matches(Lower(text), Lower(term), 0)|
  }

  /** Matches never overlap: `"aa"` occurs twice in `"aaaa"`, at 0 and 2. */
  lemma NonOverlappingExample()
    ensures Matches("aaaa", "aa", 0) == [0, 2]
    ensures MatchCount("aaaa", "aa") == 2
  {
    assert NextMatch("aaaa", "aa", 0) == Some(0);
    assert NextMatch("aaaa", "aa", 2) == Some(2);
    assert NextMatch("aaaa", "aa", 4) == None;
    assert Lower("aaaa") == "aaaa";
    assert Lower("aa") == "aa";
  }

  // ---------------------------------------------------------------------------
  // Marking the occurrences inside a snippet

  /** The marks put around each occurrence. */
  const Open := ">>>"
  const Close := "<<<"

  /** Offsets that can be marked one after another in a text of length
      `len`: each at or after the end of the previous one (or `from`), each
      leaving room for `n` characters. */
  predicate Spaced(ps: seq<nat>, n: nat, from: nat, len: nat)
    decreases |ps|
  {
    ps == [] || (from <= ps[0] && ps[0] + n <= len && Spaced(ps[1..], n, ps[0] + n, len))
  }

  /** The text from `from` up to a match at `p`, then the match between the
      marks. */
  function Lead(s: string, from: nat, p: nat, n: nat): (r: string)
    requires from <= p && p + n <= |s|
    ensures |r| == p - from + n + 6
  {
    s[from..p] + Open + s[p..p + n] + Close
  }

  /** The text from `from` on with the `n` characters at each offset of `ps`
      put between `>>>` and `<<<` and everything else copied unchanged. */
  function MarkAll(s: string, ps: seq<nat>, n: nat, from: nat): string
    requires from <= |s| && Spaced(ps, n, from, |s|)
    decreases |ps|
  {
    if ps == [] then s[from..]
    else Lead(s, from, ps[0], n) + MarkAll(s, ps[1..], n, ps[0] + n)
  }

  /** The scan's matches can be marked one after another. */
  lemma {:induction false} MatchesSpaced(text: string, pat: string, from: nat)
    requires |pat| > 0 && from <= |text|
    decreases |text| - from
    ensures Spaced(Matches(text, pat, from), |pat|, from, |text|)
  {
    match NextMatch(text, pat, from)
    case None =>
    case Some(p) =>
      MatchesSpaced(text, pat, p + |pat|);
      assert Matches(text, pat, from)[1..] == Matches(text, pat, p + |pat|);
  }

  /** `s.replace(/term/gi, '>>>$&<<<')`. As `replace` does with a global
      expression, the matches are collected first (the same scan as the
      search's, over the lower-cased snippet and term) and the result is then
      built from them. */
  function Highlight(s: string, term: string): string
    requires term != []
  {
    MatchesSpaced(Lower(s), Lower(term), 0);
    MarkAll(s, Matches(Lower(s), Lower(term), 0), |term|, 0)
  }

  /** Marking adds six characters per offset. */
  lemma {:induction false} MarkAllLength(s: string, ps: seq<nat>, n: nat, from: nat)
    requires from <= |s| && Spaced(ps, n, from, |s|)
    decreases |ps|
    ensures |MarkAll(s, ps, n, from)| == |s| - from + 6 * |ps|
  {
    if ps != [] {
      MarkAllLength(s, ps[1..], n, ps[0] + n);
    }
  }

  lemma NoBreaksConcat(a: string, b: string)
    requires NoBreaks(a) && NoBreaks(b)
    ensures NoBreaks(a + b)
  {
    assert forall i :: 0 <= i < |a + b| ==> (a + b)[i] == if i < |a| then a[i] else b[i - |a|];
  }

  /** Marking brings in no line break. */
  lemma {:induction false} MarkAllNoBreaks(s: string, ps: seq<nat>, n: nat, from: nat)
    requires from <= |s| && Spaced(ps, n, from, |s|) && NoBreaks(s)
    decreases |ps|
    ensures NoBreaks(MarkAll(s, ps, n, from))
  {
    if ps == [] {
      NoBreaksSlice(s, from, |s|);
    } else {
      MarkAllNoBreaks(s, ps[1..], n, ps[0] + n);
      NoBreaksSlice(s, from, ps[0]);
      NoBreaksSlice(s, ps[0], ps[0] + n);
      NoBreaksConcat(Lead(s, from, ps[0], n), MarkAll(s, ps[1..], n, ps[0] + n));
    }
  }

  /** Text before the first offset is copied to the front. */
  lemma MarkAllPrefix(s: string, ps: seq<nat>, n: nat, from: nat, k: nat)
    requires from <= k <= |s| && Spaced(ps, n, from, |s|)
    requires ps != [] ==> k <= ps[0]
    ensures var h := MarkAll(s, ps, n, from);
      k - from <= |h| && h[..k - from] == s[from..k]
  {
  }

  lemma SuffixOfConcat(a: string, r: string, k: nat)
    requires k <= |r|
    ensures (a + r)[|a + r| - k..] == r[|r| - k..]
  {
  }

  /** Text after the last marked stretch is copied to the end. */
  lemma {:induction false} MarkAllSuffix(s: string, ps: seq<nat>, n: nat, from: nat, k: nat)
    requires from + k <= |s| && Spaced(ps, n, from, |s|)
    requires forall i :: 0 <= i < |ps| ==> ps[i] + n + k <= |s|
    decreases |ps|
    ensures var h := MarkAll(s, ps, n, from);
      k <= |h| && h[|h| - k..] == s[|s| - k..]
  {
    if ps != [] {
      assert ps[0] + n + k <= |s|;
      MarkAllSuffix(s, ps[1..], n, ps[0] + n, k);
      SuffixOfConcat(Lead(s, from, ps[0], n), MarkAll(s, ps[1..], n, ps[0] + n), k);
    }
  }

  /** Highlighting adds the six characters `>>>` and `<<<` for each match of
      the term in the snippet. */
  lemma HighlightLength(s: string, term: string)
    requires term != []
    ensures |Highlight(s, term)| == |s| + 6 * MatchCount(s, term)
  {
    MatchesSpaced(Lower(s), Lower(term), 0);
    MarkAllLength(s, Matches(Lower(s), Lower(term), 0), |term|, 0);
  }

  /** Highlighting brings in no line break. */
  lemma HighlightNoBreaks(s: string, term: string)
    requires term != [] && NoBreaks(s)
    ensures NoBreaks(Highlight(s, term))
  {
    MatchesSpaced(Lower(s), Lower(term), 0);
    MarkAllNoBreaks(s, Matches(Lower(s), Lower(term), 0), |term|, 0);
  }

  /** Characters that, lower-cased, do not occur in the lower-cased term
      cannot be part of a match: such a leading stretch of the snippet is
      copied to the front of the highlighted text. */
  lemma HighlightKeepsPrefix(s: string, term: string, k: nat)
    requires term != [] && k <= |s|
    requires forall j :: 0 <= j < k ==> Lower(s)[j] !in Lower(term)
    ensures var h := Highlight(s, term);
      k <= |h| && h[..k] == s[..k]
  {
    var ls, lt := Lower(s), Lower(term);
    var ps := Matches(ls, lt, 0);
    MatchesSpaced(ls, lt, 0);
    if ps != [] {
      MatchesSound(ls, lt, 0, 0);
      assert ls[ps[0]] == lt[0];
    }
    MarkAllPrefix(s, ps, |term|, 0, k);
  }

  /** ... and such a trailing stretch is copied to its end. */
  lemma HighlightKeepsSuffix(s: string, term: string, k: nat)
    requires term != [] && k <= |s|
    requires forall j :: |s| - k <= j < |s| ==> Lower(s)[j] !in Lower(term)
    ensures var h := Highlight(s, term);
      k <= |h| && h[|h| - k..] == s[|s| - k..]
  {
    var ls, lt := Lower(s), Lower(term);
    var ps := Matches(ls, lt, 0);
    MatchesSpaced(ls, lt, 0);
    forall i | 0 <= i < |ps| ensures ps[i] + |term| + k <= |s| {
      MatchesSound(ls, lt, 0, i);
      assert ls[ps[i] + |lt| - 1] == lt[|lt| - 1];
    }
    MarkAllSuffix(s, ps, |term|, 0, k);
  }

  // ---------------------------------------------------------------------------
  // The context window

  /** `Math.max(0, pos - c)`: at most `c` characters before the match, and
      exactly `c` unless the text begins first. */
  function WindowStart(pos: nat, c: nat): (s: nat)
    ensures s <= pos && pos - s <= c
    ensures s > 0 ==> pos - s == c
    ensures s == 0 ==> pos <= c
  {
    if pos >= c then pos - c else 0
  }

  /** `Math.min(len, pos + tlen + c)`: at most `c` characters after the match,
      and exactly `c` unless the text ends first. */
  function WindowEnd(len: nat, pos: nat, tlen: nat, c: nat): (e: nat)
    requires pos + tlen <= len
    ensures pos + tlen <= e <= len && e - (pos + tlen) <= c
    ensures e < len ==> e - (pos + tlen) == c
    ensures e == len ==> len - (pos + tlen) <= c
  {
    if pos + tlen + c <= len then pos + tlen + c else len
  }

  function Ellipsis(clamped: bool): string {
    if clamped then "..." else ""
  }

  /** The text between the window's ends, line breaks collapsed and trimmed. */
  function WindowText(text: string, pos: nat, tlen: nat, c: nat): string
    requires pos + tlen <= |text|
  {
    Trim(Collapse(text[WindowStart(pos, c)..WindowEnd(|text|, pos, tlen, c)]))
  }

  /** The window around a match with `...` on each side where the window
      stops short of the text's end. */
  function Framed(text: string, pos: nat, tlen: nat, c: nat): string
    requires pos + tlen <= |text|
  {
    Ellipsis(WindowStart(pos, c) > 0) + WindowText(text, pos, tlen, c)
      + Ellipsis(WindowEnd(|text|, pos, tlen, c) < |text|)
  }

  function PagePrefix(n: nat): string {
    "[Página " + NatToString(n) + "] "
  }

  /** The snippet reported for the match of `term` at offset `pos`. */
  function FormatSnippet(text: string, term: string, c: nat, page: Option<nat>, pos: nat): string
    requires term != [] && pos + |term| <= |text|
  {
    var body :=
      if c > 0 then Highlight(Framed(text, pos, |term|, c), term)
      else Open + text[pos..pos + |term|] + Close;
    if page.Some? then PagePrefix(page.value) + body else body
  }

  /** The snippet of the match at an offset, as a function of the offset. */
  function SnippetOf(text: string, term: string, c: nat, page: Option<nat>): nat -> string {
    (p: nat) => if term != [] && p + |term| <= |text| then FormatSnippet(text, term, c, page, p) else ""
  }

  /** What the scan pushes from `from` on: the snippet of each match it
      reports, in order, where `tl` and `pl` are the lower-cased text and
      term. */
  function Pushed(tl: string, pl: string, from: nat, snippet: nat -> string): seq<string>
    requires |pl| > 0 && from <= |tl|
    decreases |tl| - from
  {
    match NextMatch(tl, pl, from)
    case None => []
    case Some(p) => [snippet(p)] + Pushed(tl, pl, p + |pl|, snippet)
  }

  /** The snippets of a search: one per match the scan reports, in order. */
  function Snippets(text: string, term: string, c: nat, page: Option<nat>): seq<string>
    requires term != []
  {
    var ps := Matches(Lower(text), Lower(term), 0);
    seq(|ps|, i requires 0 <= i < |ps| => FormatSnippet(text, term, c, page, ps[i]))
  }

  /** The scan pushes one snippet per reported match, and the `i`-th is that
      of the `i`-th match. */
  lemma {:induction false} PushedMatches(tl: string, pl: string, from: nat, snippet: nat -> string)
    requires |pl| > 0 && from <= |tl|
    decreases |tl| - from
    ensures var ps := Matches(tl, pl, from);
      var sn := Pushed(tl, pl, from, snippet);
      |sn| == |ps| && forall i :: 0 <= i < |ps| ==> sn[i] == snippet(ps[i])
  {
    match NextMatch(tl, pl, from)
    case None =>
    case Some(p) =>
      PushedMatches(tl, pl, p + |pl|, snippet);
  }

  // ---------------------------------------------------------------------------
  // _getContextSnippets

  /** `_getContextSnippets`: lower-case the text and the search string, then
      scan. */
  method ContextSnippets(fullText: string, searchString: string, contextChars: nat, pageNumber: Option<nat>)
    returns (snippets: seq<string>)
    requires searchString != []
    ensures snippets == Snippets(fullText, searchString, contextChars, pageNumber)
    ensures |snippets| == MatchCount(fullText, searchString)
  {
    var textLower := Lower(fullText);
    var searchLower := Lower(searchString);
    var snippet := SnippetOf(fullText, searchString, contextChars, pageNumber);
    snippets := Scan(textLower, searchLower, snippet);
    PushedMatches(textLower, searchLower, 0, snippet);
    assert snippets == Snippets(fullText, searchString, contextChars, pageNumber);
  }

  /** The `exec` loop of `_getContextSnippets`: a regular-expression cursor
      over the lower-cased text that pushes one snippet per match, where
      `snippet` builds the snippet of the match at an offset (the formatting
      of buscador-core.js:54-75, which `SnippetOf` gives). */
  method Scan(textLower: string, searchLower: string, snippet: nat -> string)
    returns (snippets: seq<string>)
    requires |searchLower| > 0
    ensures snippets == Pushed(textLower, searchLower, 0, snippet)
  {
    var lastIndex: nat := 0;
    snippets := [];
    ghost var all := Pushed(textLower, searchLower, 0, snippet);
    var m := NextMatch(textLower, searchLower, lastIndex);
    while m.Some?
      invariant lastIndex <= |textLower|
      invariant m == NextMatch(textLower, searchLower, lastIndex)
      invariant all == snippets + Pushed(textLower, searchLower, lastIndex, snippet)
      decreases |textLower| - lastIndex
    {
      var pos := m.value;
      ScanStep(textLower, searchLower, lastIndex, snippet, all, snippets);
      var s := snippet(pos);
      var next := pos + |searchLower|;
      snippets, lastIndex := snippets + [s], next;
      m := NextMatch(textLower, searchLower, lastIndex);
    }
    assert snippets + [] == snippets;
  }

  /** One step of the scan: the snippet of the next match is pushed, and the
      scan resumes at that match's end. */
  lemma ScanStep(tl: string, pl: string, from: nat, snippet: nat -> string, all: seq<string>, done: seq<string>)
    requires |pl| > 0 && from <= |tl|
    requires NextMatch(tl, pl, from).Some?
    requires all == done + Pushed(tl, pl, from, snippet)
    ensures var p := NextMatch(tl, pl, from).value;
      all == (done + [snippet(p)]) + Pushed(tl, pl, p + |pl|, snippet)
  {
    var p := NextMatch(tl, pl, from).value;
    var rest := Pushed(tl, pl, p + |pl|, snippet);
    assert Pushed(tl, pl, from, snippet) == [snippet(p)] + rest;
    assert (done + [snippet(p)]) + rest == done + ([snippet(p)] + rest);
  }

  // ---------------------------------------------------------------------------
  // What a snippet looks like

  /** Searching ignores case: every reported match is a slice of the text
      that equals the term once both are lower-cased. */
  lemma MatchesIgnoreCase(text: string, term: string, i: nat)
    requires term != []
    requires i < MatchCount(text, term)
    ensures var p := Matches(Lower(text), Lower(term), 0)[i];
      p + |term| <= |text| && Lower(text[p..p + |term|]) == Lower(term)
  {
    var p := Matches(Lower(text), Lower(term), 0)[i];
    MatchesSound(Lower(text), Lower(term), 0, i);
    LowerSlice(text, p, p + |term|);
  }

  /** A snippet quotes the text in its own case: with no context, each
      snippet is exactly the matched slice of the original text between the
      markers. */
  lemma ZeroWidthSnippets(text: string, term: string, i: nat)
    requires term != []
    requires i < MatchCount(text, term)
    ensures |Snippets(text, term, 0, None)| == MatchCount(text, term)
    ensures var p := Matches(Lower(text), Lower(term), 0)[i];
      p + |term| <= |text| &&
      Snippets(text, term, 0, None)[i] == Open + text[p..p + |term|] + Close
  {
  }

  /** A page number, when given, is prefixed to every snippet as
      `[Página N] `; otherwise nothing is added. */
  lemma PageLabels(text: string, term: string, c: nat, n: nat, i: nat)
    requires term != []
    requires i < MatchCount(text, term)
    ensures |Snippets(text, term, c, Some(n))| == |Snippets(text, term, c, None)| == MatchCount(text, term)
    ensures Snippets(text, term, c, Some(n))[i] == PagePrefix(n) + Snippets(text, term, c, None)[i]
    ensures StartsWith(Snippets(text, term, c, Some(n))[i], "[Página ")
  {
  }

  /** Collapsing and trimming leaves no line break and does not lengthen. */
  lemma CleanNoBreaks(w: string)
    ensures NoBreaks(Trim(Collapse(w))) && |Trim(Collapse(w))| <= |w|
  {
    var cw := Collapse(w);
    CollapseNoBreaks(w);
    TrimFacts(cw);
    var a := LeadingSpaces(cw);
    NoBreaksSlice(cw, a, a + |Trim(cw)|);
  }

  lemma NoBreaksSlice(s: string, i: nat, j: nat)
    requires NoBreaks(s) && i <= j <= |s|
    ensures NoBreaks(s[i..j])
  {
  }

  /** Collapsing and trimming keeps a first character that is not white space. */
  lemma CleanFirst(w: string)
    requires w != [] && !IsSpace(w[0])
    ensures Trim(Collapse(w)) != [] && Trim(Collapse(w))[0] == w[0]
  {
    var cw := Collapse(w);
    assert cw[0] == w[0];
    assert LeadingSpaces(cw) == 0;
    TrimFacts(cw);
  }

  /** Collapsing and trimming keeps a last character that is not white space. */
  lemma CleanLast(w: string)
    requires w != [] && !IsSpace(w[|w| - 1])
    ensures Trim(Collapse(w)) != [] && Trim(Collapse(w))[|Trim(Collapse(w))| - 1] == w[|w| - 1]
  {
    CollapseLast(w);
    TrimTail(Collapse(w));
  }

  /** The windowed text holds no line break and is no longer than the
      window. */
  lemma WindowNoBreaks(text: string, pos: nat, tlen: nat, c: nat)
    requires pos + tlen <= |text|
    ensures NoBreaks(WindowText(text, pos, tlen, c))
    ensures |WindowText(text, pos, tlen, c)| <= WindowEnd(|text|, pos, tlen, c) - WindowStart(pos, c)
  {
    CleanNoBreaks(text[WindowStart(pos, c)..WindowEnd(|text|, pos, tlen, c)]);
  }

  /** The windowed text starts with the window's first character when that
      is not white space. */
  lemma WindowFirst(text: string, pos: nat, tlen: nat, c: nat)
    requires pos + tlen <= |text|
    requires WindowStart(pos, c) < WindowEnd(|text|, pos, tlen, c)
    requires !IsSpace(text[WindowStart(pos, c)])
    ensures WindowText(text, pos, tlen, c) != []
    ensures WindowText(text, pos, tlen, c)[0] == text[WindowStart(pos, c)]
  {
    CleanFirst(text[WindowStart(pos, c)..WindowEnd(|text|, pos, tlen, c)]);
  }

  /** The windowed text ends with the window's last character when that is
      not white space. */
  lemma WindowLast(text: string, pos: nat, tlen: nat, c: nat)
    requires pos + tlen <= |text|
    requires WindowStart(pos, c) < WindowEnd(|text|, pos, tlen, c)
    requires !IsSpace(text[WindowEnd(|text|, pos, tlen, c) - 1])
    ensures var t := WindowText(text, pos, tlen, c);
      t != [] && t[|t| - 1] == text[WindowEnd(|text|, pos, tlen, c) - 1]
  {
    var w := text[WindowStart(pos, c)..WindowEnd(|text|, pos, tlen, c)];
    assert w[|w| - 1] == text[WindowEnd(|text|, pos, tlen, c) - 1];
    CleanLast(w);
  }

  /** The framed window holds no line break. */
  lemma FramedNoBreaks(text: string, pos: nat, tlen: nat, c: nat)
    requires pos + tlen <= |text|
    ensures NoBreaks(Framed(text, pos, tlen, c))
  {
    WindowNoBreaks(text, pos, tlen, c);
  }

  /** With context, a snippet holds no line break, and it is the framed window
      with the occurrences of the term marked, which is six characters longer
      per occurrence. */
  lemma ContextSnippetShape(text: string, term: string, c: nat, pos: nat)
    requires term != [] && c > 0 && pos + |term| <= |text|
    ensures NoBreaks(FormatSnippet(text, term, c, None, pos))
    ensures var f := Framed(text, pos, |term|, c);
      |FormatSnippet(text, term, c, None, pos)| == |f| + 6 * MatchCount(f, term)
  {
    var f := Framed(text, pos, |term|, c);
    assert FormatSnippet(text, term, c, None, pos) == Highlight(f, term);
    FramedNoBreaks(text, pos, |term|, c);
    HighlightLength(f, term);
    HighlightNoBreaks(f, term);
  }

  /** The framed window is marked with `...` on a side exactly where it was
      clamped, and never exceeds the term plus `c` characters each side plus
      the two markers. */
  lemma FramedEllipses(text: string, pos: nat, tlen: nat, c: nat)
    requires pos + tlen <= |text|
    ensures var f := Framed(text, pos, tlen, c);
      var s := WindowStart(pos, c);
      var e := WindowEnd(|text|, pos, tlen, c);
      |f| <= tlen + 2 * c + 6 &&
      (s > 0 ==> StartsWith(f, "...")) &&
      (e < |text| ==> |f| >= 3 && f[|f| - 3..] == "...")
  {
    WindowNoBreaks(text, pos, tlen, c);
  }

  /** On a side where the window reaches the text's end, the framed window
      begins (ends) with the text's own first (last) character whenever that
      is not white space. */
  lemma FramedEnds(text: string, pos: nat, tlen: nat, c: nat)
    requires tlen > 0 && pos + tlen <= |text|
    ensures var f := Framed(text, pos, tlen, c);
      (WindowStart(pos, c) == 0 && !IsSpace(text[0]) ==> f != [] && f[0] == text[0]) &&
      (WindowEnd(|text|, pos, tlen, c) == |text| && !IsSpace(text[|text| - 1]) ==>
        f != [] && f[|f| - 1] == text[|text| - 1])
  {
    if WindowStart(pos, c) == 0 && !IsSpace(text[0]) {
      WindowFirst(text, pos, tlen, c);
    }
    if WindowEnd(|text|, pos, tlen, c) == |text| && !IsSpace(text[|text| - 1]) {
      WindowLast(text, pos, tlen, c);
    }
  }

  /** Lower-casing produces a full stop only from a full stop. */
  lemma LowerNoDot(term: string)
    requires '.' !in term
    ensures '.' !in Lower(term)
  {
    forall i | 0 <= i < |term| ensures Lower(term)[i] != '.' {
      assert term[i] != '.';
    }
  }

  /** Marking keeps a leading and a trailing `...` when the term has no full
      stop: no match can overlap them. */
  lemma HighlightEllipses(f: string, term: string)
    requires term != [] && '.' !in term
    ensures StartsWith(f, "...") ==> StartsWith(Highlight(f, term), "...")
    ensures |f| >= 3 && f[|f| - 3..] == "..." ==>
      var h := Highlight(f, term);
      |h| >= 3 && h[|h| - 3..] == "..."
  {
    var lf, lt := Lower(f), Lower(term);
    LowerNoDot(term);
    if StartsWith(f, "...") {
      assert forall j :: 0 <= j < 3 ==> f[j] == '.';
      HighlightKeepsPrefix(f, term, 3);
    }
    if |f| >= 3 && f[|f| - 3..] == "..." {
      assert forall j :: |f| - 3 <= j < |f| ==> f[j] == '.';
      HighlightKeepsSuffix(f, term, 3);
    }
  }

  /** Marking keeps the first (last) character of the text when, lower-cased,
      it does not occur in the lower-cased term. */
  lemma HighlightEnds(f: string, term: string)
    requires term != []
    ensures f != [] && LowerChar(f[0]) !in Lower(term) ==>
      Highlight(f, term) != [] && Highlight(f, term)[0] == f[0]
    ensures f != [] && LowerChar(f[|f| - 1]) !in Lower(term) ==>
      var h := Highlight(f, term);
      h != [] && h[|h| - 1] == f[|f| - 1]
  {
    var lf, lt := Lower(f), Lower(term);
    if f != [] && LowerChar(f[0]) !in lt {
      HighlightKeepsPrefix(f, term, 1);
    }
    if f != [] && LowerChar(f[|f| - 1]) !in lt {
      HighlightKeepsSuffix(f, term, 1);
    }
  }

  /** With context, the snippet of a term without a full stop opens with
      `...` where the window was clamped at the start and closes with `...`
      where it was clamped at the end: the marks never split an ellipsis. */
  lemma ContextSnippetEllipses(text: string, term: string, c: nat, pos: nat)
    requires term != [] && c > 0 && pos + |term| <= |text| && '.' !in term
    ensures var sn := FormatSnippet(text, term, c, None, pos);
      (WindowStart(pos, c) > 0 ==> StartsWith(sn, "...")) &&
      (WindowEnd(|text|, pos, |term|, c) < |text| ==> |sn| >= 3 && sn[|sn| - 3..] == "...")
  {
    var f := Framed(text, pos, |term|, c);
    assert FormatSnippet(text, term, c, None, pos) == Highlight(f, term);
    FramedEllipses(text, pos, |term|, c);
    HighlightEllipses(f, term);
  }

  /** With context, where the window reaches the start (end) of the text and
      the text's first (last) character is neither white space nor, once
      lower-cased, a character of the lower-cased term, the snippet begins
      (ends) with that character. */
  lemma ContextSnippetEnds(text: string, term: string, c: nat, pos: nat)
    requires term != [] && c > 0 && pos + |term| <= |text|
    ensures var sn := FormatSnippet(text, term, c, None, pos);
      var lt, first, last := Lower(term), text[0], text[|text| - 1];
      (WindowStart(pos, c) == 0 && !IsSpace(first) && LowerChar(first) !in lt ==>
        sn != [] && sn[0] == first) &&
      (WindowEnd(|text|, pos, |term|, c) == |text| && !IsSpace(last) && LowerChar(last) !in lt ==>
        sn != [] && sn[|sn| - 1] == last)
  {
    var f := Framed(text, pos, |term|, c);
    assert FormatSnippet(text, term, c, None, pos) == Highlight(f, term);
    FramedEnds(text, pos, |term|, c);
    HighlightEnds(f, term);
  }

  /** `trim` keeps the last character of a string that does not end in white
      space. */
  lemma TrimTail(s: string)
    requires s != [] && !IsSpace(s[|s| - 1])
    ensures Trim(s) != [] && Trim(s)[|Trim(s)| - 1] == s[|s| - 1]
  {
    var a := LeadingSpaces(s);
    var t := s[a..];
    assert a < |s|;
    assert t[|t| - 1] == s[|s| - 1];
    assert TrailingSpaces(t) == 0;
    assert Trim(s) == t;
  }
}
