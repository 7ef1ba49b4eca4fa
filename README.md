# Contextual search over uploaded files — a Dafny model

This project models the search engine of a small web tool. The user uploads PDF, DOCX,
Excel and plain-text files, types one or more search strings separated by `;` and picks a
context width. The tool then writes a report that lists every occurrence with the text
around it, the files it could not read, the files it ignored, and a set of counters. It
also builds a JSON summary that holds the counters and the per-file results.

The model follows the code of `buscador-core.js` and the `/buscar` route of `server.js`:

- `wrappers.dfy` (module `Wrappers`) holds `Option` and `Result`. A `Result` is either a
  value or an error message. A decoder yields one: the decoded value, or the failure
  message the `catch` blocks print. So do the directory listing and `generarInforme` (the
  report, or the thrown error).
- `text.dfy` (module `Text`) holds the JavaScript string built-ins the core uses:
  - `toLowerCase`, `trim`, `split` on one character and `split(/\r?\n/)`;
  - `replace(/[\r\n]+/g, ' ')` and `join`;
  - number-to-decimal rendering, `xlsx.utils.encode_col`, and `Array.prototype.sort` on
    strings.
- `snippets.dfy` (module `ContextSearch`) holds `_getContextSnippets`:
  - the global, case-insensitive `exec` scan;
  - the context window with its `...` marks;
  - the `>>>`/`<<<` highlighting and the page label.
- `results.dfy` (module `Results`) holds the per-file result records:
  - the `coincidencias` entries with their find-or-create update;
  - the per-term dictionary `hallazgosPorString` (a `map<string, nat>`);
  - the bookkeeping every processor keeps.
- `processors.dfy` (module `Processors`) holds `procesarPdf`, `procesarDocx`,
  `procesarExcel` and `procesarTxt`, each after its decoder has run.
- `informe.dfy` (module `Aggregator`) holds `generarInforme`:
  - the walk over the directory and the dispatch on the file extension;
  - the counters, the text report and the filtered result list.
- `server.dfy` (module `Server`) holds the request normalisation of `/buscar`:
  - the `;`-separated search strings and the `context_chars` default and clamp;
  - the guards that turn requests away, and the error redirection.

The imperative JavaScript (loops that push to arrays and bump counters) is modelled by
methods with `while` loops. Each is proved equal to a specification function: for
example, `ProcesarTxt` returns exactly `Txt(...)` and `Scan` returns `Pushed(...)`. The
properties the code promises are then lemmas about those functions:

- the dictionary rises by exactly the hits of each term;
- each report holds one `  └─ ` line per hit;
- the counters add up;
- only the right results are filtered out;
- the scan finds leftmost, non-overlapping occurrences;
- `;`-joined clean terms parse back.

The dictionary `hallazgosPorString`, which the JavaScript mutates through a shared
object, is passed into each processor and returned from it.

Where the code and its documentation disagree, the model follows the code. The scan
resumes its search at the end of each match (`exec` with the `g` flag), so overlapping
occurrences are not counted: `"aa"` occurs twice in `"aaaa"`, not three times
(`ContextSearch.NonOverlappingExample`).

## Model

| member | source | states |
|---|---|---|
| Text.Lower | buscador-core.js:45-46 | lower-casing keeps the length and maps each character by itself, so positions in the lowered text are positions in the original |
| Text.LowerSlice | buscador-core.js:45-53 | lowering a slice is slicing the lowered text, so a match found in the lowered text names the same characters of the original |
| Text.Trim | buscador-core.js:61 | definition of `trim` (also used at server.js:79): the string without its leading and trailing white space; its properties are the two rows below |
| Text.TrimFacts | buscador-core.js:61 | `trim` gives a slice of the string with no white space at either end; the result is empty exactly when the string is blank |
| Text.TrimSlice | buscador-core.js:61 | `trim` returns a contiguous slice of the string, starting after its leading white space |
| Text.TrimEnds | buscador-core.js:61 | `trim` returns the empty string exactly for a blank string, and otherwise a string that neither begins nor ends with white space |
| Text.TrimIdempotent | server.js:79 | trimming twice is trimming once |
| Text.Collapse | buscador-core.js:61 | definition of `replace(/[\r\n]+/g, ' ')`: each maximal run of `\r`/`\n` becomes one space; its properties are the rows below |
| Text.CollapseNoBreaks | buscador-core.js:61 | replacing every run of `\r`/`\n` by one space leaves no line break and never lengthens the text |
| Text.CollapseIdentity | buscador-core.js:61 | a text without line breaks is left as it is |
| Text.CollapseLast | buscador-core.js:61 | a last character that is not a line break stays last |
| Text.Split | server.js:79 | `split(';')` gives at least one piece and no piece holds the separator |
| Text.Join | buscador-core.js:396 | definition of `Array.prototype.join`: the parts with the separator between each two of them, as used for the report text and for the lists at buscador-core.js:356 and 358; `Text.SplitJoin` and `Text.JoinSplit` state its meaning |
| Text.SplitJoin | server.js:79 | joining the pieces of `split(';')` with `;` gives the input back |
| Text.JoinSplit | server.js:79 | splitting a `;`-join of pieces that hold no `;` gives the pieces back |
| Text.SplitPrefix | server.js:79 | a piece without the separator, then the separator, comes off as the first piece |
| Text.SplitLines | buscador-core.js:248 | `split(/\r?\n/)` gives the pieces between line feeds, each losing one carriage return just before its line feed, and no piece holds a line feed |
| Text.NatToString | buscador-core.js:255 | the decimal rendering has at least one digit and no leading zero |
| Text.DecimalRoundTrip | buscador-core.js:384-392 | the decimal rendering of a counter reads back as that counter |
| Text.DecimalInjective | buscador-core.js:384-392 | different counters are rendered differently |
| Text.ColumnName | buscador-core.js:206 | `encode_col` gives a non-empty name made only of the letters `A`–`Z` |
| Text.ColumnNameRoundTrip | buscador-core.js:206 | `encode_col` gives a name that decodes to the column index |
| Text.ColumnIndexRoundTrip | buscador-core.js:206 | every name of capital letters is the name of the column it decodes to, so names and indices are in bijection |
| Text.LexLe | buscador-core.js:378 | definition of the string comparison of the default sort, through a per-character key that orders characters by their first UTF-16 code unit; its meaning is the next row |
| Text.LexLeUtf16 | buscador-core.js:378 | for every pair of strings the comparison is JavaScript's: lexicographic over the UTF-16 code units, a proper prefix first, so a character from U+E000 to U+FFFF sorts after any character above U+FFFF |
| Text.LexLeTotal | buscador-core.js:378 | any two strings are comparable |
| Text.LexLeTransitive | buscador-core.js:378 | the comparison is transitive |
| Text.SortStrings | buscador-core.js:378 | the ignored names, sorted, are in ascending UTF-16 code-unit order (`Text.LexLeUtf16`) and are a permutation of the input |
| ContextSearch.NextMatch | buscador-core.js:51 | one `exec` from `lastIndex` reports an offset at or after it where the term fits in the text |
| ContextSearch.NextMatchLeftmost | buscador-core.js:48-51 | `exec` reports the leftmost occurrence at or after `lastIndex`, and none exactly when there is none |
| ContextSearch.SameFromMatch | buscador-core.js:51 | the character-by-character comparison succeeds exactly on an occurrence |
| ContextSearch.Matches | buscador-core.js:51-52 | the offsets of the `exec` loop each lie at or after the start of the search and leave room for the term |
| ContextSearch.MatchesSpaced | buscador-core.js:51-52 | the offsets come in order, each at or after the end of the previous match, so they can be marked one after another |
| ContextSearch.MatchesSound | buscador-core.js:51-52 | every offset the scan reports is an occurrence of the lowered term in the lowered text |
| ContextSearch.MatchesDisjoint | buscador-core.js:51 | the offsets come in increasing order and the matches never overlap |
| ContextSearch.MatchesComplete | buscador-core.js:51 | the scan is greedy from the left: every occurrence is reported or overlaps a reported match that starts before it |
| ContextSearch.NonOverlappingExample | buscador-core.js:51 | `"aa"` is found twice in `"aaaa"`, at 0 and at 2 |
| ContextSearch.MatchesIgnoreCase | buscador-core.js:45-48 | each reported match is a slice of the original text that equals the term once both are lowered |
| ContextSearch.WindowStart | buscador-core.js:57 | the window starts at most `c` characters before the match, and exactly `c` unless the text begins first |
| ContextSearch.WindowEnd | buscador-core.js:58 | the window ends at most `c` characters after the match, and exactly `c` unless the text ends first |
| ContextSearch.WindowNoBreaks | buscador-core.js:60-61 | the cleaned window holds no line break and is no longer than the window |
| ContextSearch.WindowFirst | buscador-core.js:60-61 | the cleaned window starts with the window's first character when that is not white space |
| ContextSearch.WindowLast | buscador-core.js:60-61 | the cleaned window ends with the window's last character when that is not white space |
| ContextSearch.CleanNoBreaks | buscador-core.js:61 | collapsing line breaks and trimming leaves no line break and does not lengthen |
| ContextSearch.CleanFirst | buscador-core.js:61 | collapsing and trimming keeps a first character that is not white space |
| ContextSearch.CleanLast | buscador-core.js:61 | collapsing and trimming keeps a last character that is not white space |
| ContextSearch.TrimTail | buscador-core.js:61 | `trim` keeps the last character of a string that does not end in white space |
| ContextSearch.WindowText | buscador-core.js:57-61 | definition of the cleaned window: the text between `WindowStart` and `WindowEnd` with line breaks collapsed and trimmed; its meaning is in the `Window*` rows |
| ContextSearch.Framed | buscador-core.js:56-64 | definition of the window with `...` on each side where it stops short of the text's end; its meaning is in the `Framed*` rows |
| ContextSearch.FramedEllipses | buscador-core.js:63-64 | the framed window is at most `tlen + 2c + 6` long, starts with `...` when text was cut before and ends with `...` when text was cut after |
| ContextSearch.FramedEnds | buscador-core.js:57-64 | when nothing is cut at one end and the text does not begin (end) with white space, the framed window begins (ends) with the text's own first (last) character |
| ContextSearch.FramedNoBreaks | buscador-core.js:60-64 | the framed window holds no line break |
| ContextSearch.Highlight | buscador-core.js:66 | definition of `replace(/term/gi, '>>>$&<<<')`: as `replace` does with a global expression, the matches are collected first (the scan of the lowered snippet for the lowered term) and then marked with `ContextSearch.MarkAll`, whose lemmas below state the result |
| ContextSearch.MarkAll | buscador-core.js:66 | reference definition of the result of `replace` once its matches are known: each matched stretch between `>>>` and `<<<`, the text before, between and after the matches copied unchanged |
| ContextSearch.MarkAllLength | buscador-core.js:66 | marking adds exactly six characters per match to the text it copies |
| ContextSearch.MarkAllNoBreaks | buscador-core.js:66 | marking a text without line breaks brings in none |
| ContextSearch.MarkAllPrefix | buscador-core.js:66 | the text before the first match comes through unchanged at the start of the result |
| ContextSearch.MarkAllSuffix | buscador-core.js:66 | the text after the last match comes through unchanged at the end of the result |
| ContextSearch.HighlightKeepsPrefix | buscador-core.js:66 | a leading stretch of characters that, lower-cased, do not occur in the lowered term comes through the highlighting unchanged |
| ContextSearch.HighlightKeepsSuffix | buscador-core.js:66 | so does such a trailing stretch |
| ContextSearch.LowerNoDot | buscador-core.js:45-48 | lower-casing a term without `.` brings in no `.` |
| ContextSearch.HighlightEllipses | buscador-core.js:63-66 | for a term without `.`, a leading or trailing `...` survives the highlighting |
| ContextSearch.HighlightEnds | buscador-core.js:66 | the first (last) character survives the highlighting when, lower-cased, it does not occur in the lowered term |
| ContextSearch.HighlightLength | buscador-core.js:66 | highlighting adds exactly the six characters `>>>` `<<<` for each case-insensitive match |
| ContextSearch.HighlightNoBreaks | buscador-core.js:66 | highlighting brings in no line break |
| ContextSearch.ContextSnippetShape | buscador-core.js:56-66 | a snippet with context holds no line break and is the framed window plus six characters per match of the term in it |
| ContextSearch.ContextSnippetEllipses | buscador-core.js:56-66 | a snippet with context of a term without `.` starts with `...` when the window was clamped at the start of the text and ends with `...` when it was clamped at the end |
| ContextSearch.ContextSnippetEnds | buscador-core.js:56-66 | where the window reaches an end of the text, the snippet begins (ends) with the text's own first (last) character when that is not white space and, lower-cased, does not occur in the lowered term |
| ContextSearch.ZeroWidthSnippets | buscador-core.js:68-70 | with no context, the `i`-th snippet is the matched original text between `>>>` and `<<<` |
| ContextSearch.PagePrefix | buscador-core.js:73-75 | definition of the `[Página N] ` label put before a page's snippets; `ContextSearch.PageLabels` states its use |
| ContextSearch.PageLabels | buscador-core.js:72-75 | with a page number each snippet is the unlabelled one prefixed by `[Página N] `; there are as many as matches |
| ContextSearch.FormatSnippet | buscador-core.js:55-75 | definition of one snippet: the marked window with context, or the bare marked match without, behind the page label when there is a page |
| ContextSearch.Snippets | buscador-core.js:43-80 | definition of the snippets of a search: one per match the scan reports, in order; `ContextSearch.ContextSnippets` is proved to return it |
| ContextSearch.PushedMatches | buscador-core.js:51-77 | the scan pushes one snippet per reported match, the `i`-th being that of the `i`-th match |
| ContextSearch.ScanStep | buscador-core.js:51-77 | one step of the loop pushes the next match's snippet and resumes at that match's end |
| ContextSearch.Scan | buscador-core.js:50-78 | the `while (exec)` loop returns the snippets of all matches, in order |
| ContextSearch.ContextSnippets | buscador-core.js:43-80 | `_getContextSnippets` returns one snippet per non-overlapping case-insensitive match, each formatted from its position |
| Results.Get | buscador-core.js:392 | definition of `hallazgosPorString[k] || 0` (also at buscador-core.js:124): the term's count, or 0 when the dictionary has no entry for it; `Results.Add` states how counting uses it |
| Results.Add | buscador-core.js:124 | `(d[k] \|\| 0) + n` raises key `k` by `n`, adds it to the keys and leaves every other key alone |
| Results.BulletsCounted | buscador-core.js:116 | `snippets.map(s => '  └─ ' + s)` adds one snippet line per snippet |
| Results.BulletCountAppend | buscador-core.js:324 | the snippet lines of two line lists add up when the lists are concatenated |
| Results.BlockCount | buscador-core.js:158-160 | a header, the snippet lines and a blank line hold one snippet line per snippet |
| Results.HeaderNotBullet | buscador-core.js:115 | a header line, which begins with a line feed, is not a snippet line |
| Results.Upsert | buscador-core.js:212-218 | find-or-create leaves the entry list as long as it was, or one longer |
| Results.UpsertCounts | buscador-core.js:212-219 | find-or-create with `f` adds `\|f\|` to the total and to the hits of `t`, and nothing to any other term |
| Results.UpsertTexts | buscador-core.js:212-216 | the list of terms changes only by appending `t` when it had no entry yet |
| Results.UpsertWellFormed | buscador-core.js:217-218 | each entry's `cantidad` stays equal to its number of fragments |
| Results.UpsertDistinct | buscador-core.js:212-216 | there is never more than one entry per term |
| Results.UpsertShape | buscador-core.js:212-218 | entries stay well formed, one per term, and about the search terms |
| Results.UpsertFrags | buscador-core.js:218 | the fragments of `t` gain `f` at the end and those of every other term are unchanged |
| Results.FragsAbsent | buscador-core.js:212 | a term with no entry has no fragments |
| Results.HitsFrags | buscador-core.js:127-131 | in well-formed entries a term's hits are its fragments |
| Results.PushEntry | buscador-core.js:127-132 | pushing a fresh entry keeps the entries well formed, raises the total by its count and appends its term |
| Results.PushHits | buscador-core.js:127-132 | pushing a fresh entry for `t` raises the hits of `t` alone |
| Results.StartGood | buscador-core.js:88 | a fresh file result keeps the bookkeeping |
| Results.RecordUpsertGood | buscador-core.js:207-219 | recording a hit block through find-or-create keeps the bookkeeping: the total counts the entries, the dictionary rises by the hits, and there is one snippet line per hit |
| Results.RecordPushGood | buscador-core.js:120-133 | recording a term's pages through a new entry keeps the bookkeeping |
| Processors.ErrorLine | buscador-core.js:137 | definition of the problem line of a file the decoder could not read, the same for every processor (also 172, 231 and 272) |
| Processors.WarningLine | buscador-core.js:96 | definition of the problem line of a file with nothing to search, the same shape for every processor (also 151, 188, 227 and 245) |
| Processors.Errored | buscador-core.js:136-139 | definition of the `catch` exit: no findings, the one error line, `estado: 'error'` with the message; `Processors.ErroredConsistent` states what it keeps |
| Processors.Warned | buscador-core.js:95-97 | definition of an `advertencia` exit from the findings so far, with one warning line and the detail text; `Processors.WarnedConsistent` states what it keeps |
| Processors.Finished | buscador-core.js:140 | definition of the normal exit, `estado: 'exito'`, from the findings so far; `Processors.FinishedConsistent` states what it keeps |
| Processors.FinishedConsistent | buscador-core.js:140 | a finished file result keeps the bookkeeping |
| Processors.WarnedConsistent | buscador-core.js:96-97 | a warned file result keeps the bookkeeping |
| Processors.ErroredConsistent | buscador-core.js:137-138 | an errored file result reports nothing and leaves the dictionary alone |
| Processors.Record | buscador-core.js:254-268 | definition of recording one term's snippets in a line or cell: header, bullets and blank line reported, the labelled snippets added to the term's entry (found or created), the hits added to the total and the dictionary (the cell case is 205-220); the `UnitTerm*` rows state its meaning |
| Processors.UnitTerm | buscador-core.js:252-253 | definition of searching one term in one line or cell; `Processors.UnitTermGood` and `Processors.UnitTermFrags` state its meaning |
| Processors.TermsAcc | buscador-core.js:252-269 | definition of the loop over the search terms for one line or cell; `Processors.TermsAccGood` and `Processors.TermsAccFrags` state its meaning |
| Processors.UnitAcc | buscador-core.js:251-269 | definition of one line or cell: skipped when blank, otherwise searched for every term (the cell case is 202-221) |
| Processors.UnitsAcc | buscador-core.js:249-270 | definition of the loop over the lines of a text file, and over the cells of a workbook (199-224); the `UnitsAcc*` rows state its meaning |
| Processors.UnitsFrags | buscador-core.js:266 | reference definition of the fragments a term gets over a sequence of lines or cells: the location-labelled snippets of each non-blank one, in order; `Processors.UnitsAccFrags` ties the loop to it |
| Processors.SearchUnit | buscador-core.js:252-269 | the loop over the terms for one text unit equals its specification `UnitAcc` |
| Processors.UnitsAccGood | buscador-core.js:249-270 | searching a sequence of units keeps the bookkeeping and one entry per term |
| Processors.TermsAccGood | buscador-core.js:252-269 | searching one unit for each term keeps the bookkeeping |
| Processors.UnitTermGood | buscador-core.js:253-268 | searching one unit for one term keeps the bookkeeping |
| Processors.UnitsAccBlank | buscador-core.js:251 | blank units are skipped: they leave the state unchanged |
| Processors.UnitsAccFrags | buscador-core.js:249-270 | a term's fragments gain exactly that term's labelled snippets over the units |
| Processors.TermsAccFrags | buscador-core.js:252-269 | a term's fragments gain exactly that term's labelled snippets in the unit |
| Processors.UnitTermFrags | buscador-core.js:253-268 | searching for `t` adds the labelled snippets to `t`'s fragments and to no other term's |
| Processors.UnitsAccAppend | buscador-core.js:192-225 | searching units `x` and then `y` is searching `x + y` |
| Processors.UnitsAccDistinct | buscador-core.js:212-216 | the search of units keeps one entry per term |
| Processors.LineUnits | buscador-core.js:249-255 | the `i`-th line becomes the unit labelled `Línea: i+1` |
| Processors.SearchLines | buscador-core.js:249-270 | the loop over the lines equals the specification over the line units |
| Processors.ProcesarTxt | buscador-core.js:237-276 | `procesarTxt` returns exactly `Txt`, the result and the new dictionary |
| Processors.Txt | buscador-core.js:237-276 | definition of the result of `procesarTxt` after decoding; `Processors.ProcesarTxt` is proved to return it |
| Processors.TxtConsistent | buscador-core.js:237-276 | every result of `procesarTxt` keeps the bookkeeping |
| Processors.TxtExits | buscador-core.js:243-275 | a warning exactly for a blank file; an error exactly for a read failure, with its message; either way nothing is found, the dictionary is unchanged and one problem line is written; success writes no problem line |
| Processors.TxtFrags | buscador-core.js:248-268 | for a non-blank file each term's fragments are its labelled snippets line by line, and the dictionary rises by exactly their number |
| Processors.CellUnits | buscador-core.js:200-206 | the `k`-th cell of row `r` becomes the unit labelled with its sheet and cell reference |
| Processors.CellLabelExample | buscador-core.js:206-218 | cell `(0,0)` of sheet `Datos` is `A1`, cell `(9,27)` is `AB10` |
| Processors.NoDataAll | buscador-core.js:185-197 | `hojasVacias` stays true exactly when no sheet holds a non-blank cell |
| Processors.SearchRow | buscador-core.js:200-223 | the loop over a row's cells equals the specification over its cell units |
| Processors.SearchSheet | buscador-core.js:199-224 | the loop over a sheet's rows equals the specification over its row units |
| Processors.SheetStep | buscador-core.js:192-198 | one more sheet appends its row units to those of the earlier sheets and clears `hojasVacias` exactly when it has data |
| Processors.SearchSheets | buscador-core.js:192-225 | the loop over the sheets equals the specification, and `hojasVacias` tells whether no sheet has data |
| Processors.ProcesarExcel | buscador-core.js:178-235 | `procesarExcel` returns exactly `Excel`, the result and the new dictionary |
| Processors.Excel | buscador-core.js:178-235 | definition of the result of `procesarExcel` after decoding; `Processors.ProcesarExcel` is proved to return it |
| Processors.ExcelConsistent | buscador-core.js:178-235 | every result of `procesarExcel` keeps the bookkeeping |
| Processors.ExcelExits | buscador-core.js:184-234 | a warning exactly when no sheet has data, which includes a book with no sheets; an error exactly for a read failure, with its message; either way nothing is found and the dictionary is unchanged |
| Processors.ExcelFrags | buscador-core.js:192-225 | for a book with sheets each term's fragments are its labelled snippets cell by cell, and the dictionary rises by exactly their number |
| Processors.RowUnitsBlank | buscador-core.js:196-202 | a sheet without data yields only blank cell units |
| Processors.SheetUnitsBlank | buscador-core.js:196-202 | a book without data yields only blank cell units |
| Processors.ProcesarDocx | buscador-core.js:143-176 | `procesarDocx` returns exactly `Docx`, the result and the new dictionary |
| Processors.Docx | buscador-core.js:143-176 | definition of the result of `procesarDocx` after decoding; `Processors.ProcesarDocx` is proved to return it |
| Processors.DocxConsistent | buscador-core.js:143-176 | every result of `procesarDocx` keeps the bookkeeping |
| Processors.DocxTerm | buscador-core.js:156-169 | definition of one term over a document: with hits, header, bullets and blank line reported, a new entry pushed, the hits added to the total and the dictionary |
| Processors.DocxTerms | buscador-core.js:155-170 | definition of the loop over the search terms of a document; `Processors.DocxTermsGood` and `Processors.DocxTermsFrags` state its meaning |
| Processors.DocxFound | buscador-core.js:155-170 | reference definition of the fragments a term gets from a document: its snippets, once per search term equal to it; `Processors.DocxTermsFrags` ties the loop to it |
| Processors.DocxTermGood | buscador-core.js:156-169 | one term's search of the document keeps the bookkeeping |
| Processors.DocxTermsGood | buscador-core.js:155-170 | the loop over the terms keeps the bookkeeping |
| Processors.DocxTermFrags | buscador-core.js:163-167 | a term found in the document gets its snippets as fragments, and no other term changes |
| Processors.DocxTermsFrags | buscador-core.js:155-170 | each term's fragments are exactly its snippets in the document |
| Processors.DocxExits | buscador-core.js:149-175 | a warning exactly for a blank document; an error exactly when extraction fails, with its message; either way nothing is found and the dictionary is unchanged |
| Processors.DocxFrags | buscador-core.js:155-170 | for a non-blank document each term's fragments are its snippets, and the dictionary rises by exactly their number |
| Processors.PageStep | buscador-core.js:106-117 | definition of one page for one term: a blank page is skipped; with hits, a header with the page number and one bullet per snippet are reported and the snippets collected |
| Processors.PagesScan | buscador-core.js:105-118 | definition of the loop over the pages for one term, pages numbered from 1; the `PagesScan*` rows state its meaning |
| Processors.PdfTerm | buscador-core.js:100-134 | definition of one term over all pages: after the page loop, when found, a blank line, one new entry with all its fragments, and the hits added to the total and the dictionary |
| Processors.PdfTerms | buscador-core.js:100-134 | definition of the loop over the search terms of a PDF; `Processors.PdfTermsGood` and `Processors.PdfTermsFrags` state its meaning |
| Processors.PdfFound | buscador-core.js:100-134 | reference definition of the fragments a term gets from a PDF: the page-labelled snippets of every page in order, once per search term equal to it; `Processors.PdfTermsFrags` ties the loop to it |
| Processors.PageStepFrags | buscador-core.js:105-117 | a page adds its labelled snippets to the term's fragments, and a blank page adds none |
| Processors.PageStepCount | buscador-core.js:110-117 | a page adds one snippet line per fragment it adds |
| Processors.PagesScanCount | buscador-core.js:105-118 | the loop over the pages adds one snippet line per fragment |
| Processors.PagesScanFrags | buscador-core.js:105-118 | the pages loop collects each non-blank page's snippets in page order |
| Processors.ScanPages | buscador-core.js:101-118 | the loop over the pages equals its specification, and `coincidenciasPorTermino` is the number of fragments collected |
| Processors.SearchPages | buscador-core.js:100-134 | the search of one term over all pages equals the specification `PdfTerm` |
| Processors.PdfTermGood | buscador-core.js:100-134 | one term's search over the pages keeps the bookkeeping |
| Processors.PdfTermsGood | buscador-core.js:100-134 | the loop over the terms keeps the bookkeeping |
| Processors.PdfTermFrags | buscador-core.js:120-133 | a term found on some page gets the page-labelled snippets as fragments, and no other term changes |
| Processors.PdfTermsFrags | buscador-core.js:100-134 | each term's fragments are exactly its page-labelled snippets over the pages |
| Processors.ProcesarPdf | buscador-core.js:84-141 | `procesarPdf` returns exactly `Pdf`, the result and the new dictionary |
| Processors.Pdf | buscador-core.js:84-141 | definition of the result of `procesarPdf` after decoding; `Processors.ProcesarPdf` is proved to return it |
| Processors.PdfConsistent | buscador-core.js:84-141 | every result of `procesarPdf` keeps the bookkeeping |
| Processors.PdfExits | buscador-core.js:91-140 | a warning exactly when every page is blank; an error exactly when extraction fails, with the wrapped message of buscador-core.js:38; either way nothing is found and the dictionary is unchanged |
| Processors.PdfFrags | buscador-core.js:100-134 | for a PDF with text each term's fragments are its page-labelled snippets, and the dictionary rises by exactly their number |
| Aggregator.LastDot | buscador-core.js:309 | finds the last `.` of a name, or reports that it has none |
| Aggregator.Extname | buscador-core.js:309 | definition of `path.extname` on a file name; its meaning is the next rows |
| Aggregator.ExtnameShape | buscador-core.js:309 | `path.extname` is empty or a proper suffix that starts with its only dot; it is empty exactly when no dot follows the first character, or the name is `..` |
| Aggregator.ExtnameExamples | buscador-core.js:309 | `acta.PDF` has extension `.PDF`; `.txt` and `notas` have none |
| Aggregator.FormatOf | buscador-core.js:311-322 | definition of the dispatch on the lowered extension: `.pdf`, `.docx`, `.xlsx` or `.xls`, `.txt`, or no processor; `Aggregator.FormatOfSupported` states its meaning |
| Aggregator.FormatOfSupported | buscador-core.js:292-322 | a lowered extension has a processor exactly when it is one of the five supported ones |
| Aggregator.Process | buscador-core.js:313-322 | definition of calling the processor for a format on the file's decoded content; `Aggregator.ProcessFacts` states its meaning |
| Aggregator.ProcessFacts | buscador-core.js:314-322 | every processor's result names the file and its type and keeps the bookkeeping |
| Aggregator.PdfFacts | buscador-core.js:84-141 | the PDF result names the file with type `PDF` and keeps the bookkeeping |
| Aggregator.DocxFacts | buscador-core.js:143-176 | the DOCX result names the file with type `DOCX` and keeps the bookkeeping |
| Aggregator.ExcelFacts | buscador-core.js:178-235 | the Excel result names the file with type `Excel` and keeps the bookkeeping |
| Aggregator.TxtFacts | buscador-core.js:237-276 | the TXT result names the file with type `TXT` and keeps the bookkeeping |
| Aggregator.PdfProblems | buscador-core.js:95-138 | the problem lines of a PDF are not snippet lines |
| Aggregator.DocxProblems | buscador-core.js:150-173 | the problem lines of a DOCX are not snippet lines |
| Aggregator.ExcelProblems | buscador-core.js:187-232 | the problem lines of a workbook are not snippet lines |
| Aggregator.TxtProblems | buscador-core.js:244-273 | the problem lines of a text file are not snippet lines |
| Aggregator.InitialCounts | buscador-core.js:289-290 | the dictionary starts with exactly the search terms, each at 0 |
| Aggregator.ZeroCounts | buscador-core.js:290 | the `forEach` loop builds the initial dictionary |
| Aggregator.Dispatch | buscador-core.js:314-322 | the call to the processor of the file's format returns what that processor returns |
| Aggregator.Visit | buscador-core.js:305-349 | definition of one step of the directory loop: skip a non-file, count an ignored name, or process and tally a supported file |
| Aggregator.VisitEntry | buscador-core.js:305-349 | one step of the directory loop equals its specification `Visit` |
| Aggregator.VisitDispatch | buscador-core.js:308-348 | a non-file adds nothing; an unsupported file is appended to the ignored list; a supported file appends one result with its name and type |
| Aggregator.WalkDirectory | buscador-core.js:304-350 | the loop over the directory equals its specification `WalkAll` |
| Aggregator.VisitBooks | buscador-core.js:305-349 | each step keeps the books: processed plus errored plus ignored is the number of regular files so far, one result per processed or errored file, the total and error counters equal to the results', one snippet line per hit and none among the problems, and each term's count equal to its hits in the results |
| Aggregator.Tally | buscador-core.js:324-333 | definition of how a processed result is added to the report parts and the counters |
| Aggregator.TallyBooks | buscador-core.js:324-333 | adding a processed result keeps those books |
| Aggregator.WalkAll | buscador-core.js:304-350 | definition of the whole directory loop, entry by entry in listing order |
| Aggregator.WalkBooks | buscador-core.js:304-350 | the whole walk keeps those books |
| Aggregator.FileCountBound | buscador-core.js:302-308 | the regular files among the listed names are at most as many as the names, and as many exactly when every entry is a file |
| Aggregator.Visible | buscador-core.js:411 | the filter keeps exactly the results with hits, errors or warnings, in order |
| Aggregator.FilterResults | buscador-core.js:411 | the filter loop equals `Visible` |
| Aggregator.VisibleHits | buscador-core.js:411 | a result the filter hides found nothing and had no error, so the shown results carry every hit and error |
| Aggregator.HitsBelowSum | buscador-core.js:132 | a term's hits in a file are at most the file's total |
| Aggregator.HitsTexts | buscador-core.js:127-131 | a term with hits has an entry |
| Aggregator.WalkCounters | buscador-core.js:302-350 | processed plus errored plus ignored is at most the listed names, with equality exactly when all are files; the total and the error count are those of the shown results; each term's count is its hits among them; the dictionary holds exactly the terms |
| Aggregator.PushListed | buscador-core.js:378 | the loop pushes `- name` for each sorted ignored name |
| Aggregator.ListedSnoc | buscador-core.js:378 | one more name pushes one more line |
| Aggregator.PushTermLines | buscador-core.js:391-393 | the loop pushes one `  - 't': n` line per term |
| Aggregator.TermLinesSnoc | buscador-core.js:391-393 | one more term pushes one more line |
| Aggregator.ReportLines | buscador-core.js:353-394 | definition of the whole text report, line by line: heading, findings, problems, ignored files, totals, one line per term and the closing rule; the `*Plain`, `FindingsCount` and `ReportHits` rows state its meaning |
| Aggregator.WriteReport | buscador-core.js:353-394 | the sequence of pushes builds exactly the report lines |
| Aggregator.HeadingPlain | buscador-core.js:354-359 | the opening block has no snippet line |
| Aggregator.FindingsCount | buscador-core.js:361-373 | the findings and problems blocks hold exactly the snippet lines of the findings and problems |
| Aggregator.IgnoredPlain | buscador-core.js:375-381 | the ignored block has no snippet line |
| Aggregator.TotalsPlain | buscador-core.js:383-394 | the summary block has no snippet line |
| Aggregator.ReportLinesCount | buscador-core.js:353-394 | the report's snippet lines are those of the findings and the problems |
| Aggregator.ReportBullets | buscador-core.js:353-394 | a walk with one snippet line per hit and none among the problems gives a report with one snippet line per hit |
| Aggregator.ReportHits | buscador-core.js:304-394 | the report holds exactly as many snippet lines as `totalHallazgosGlobal` |
| Aggregator.Assemble | buscador-core.js:396-412 | definition of the answer: the report lines joined by line breaks, the JSON summary and the shown results; `Aggregator.AssembleParts` states its meaning |
| Aggregator.Finish | buscador-core.js:353-412 | writing the report and building the JSON response give exactly `Assemble` |
| Aggregator.AssembleParts | buscador-core.js:399-412 | the JSON summary holds the walk's counters, the context width, the supported extensions and the search terms; the results are the filtered ones |
| Aggregator.GenerateReport | buscador-core.js:279-425 | definition of `generarInforme`: the thrown error when the directory cannot be read, otherwise the report, the summary and the filtered results; `Aggregator.GenerarInforme` is proved to return it |
| Aggregator.GenerarInforme | buscador-core.js:279-425 | `generarInforme` returns exactly `GenerateReport`: an error message when the directory cannot be listed, the report otherwise |
| Aggregator.InformeCounters | buscador-core.js:295-412 | a report exists exactly when the directory can be listed, and the error carries the listing's message otherwise; the summary's counters add up and agree with the shown results |
| Server.TrimAll | server.js:79 | `.map(s => s.trim())` trims each piece in place |
| Server.DropEmpty | server.js:79 | `.filter(s => s)` keeps exactly the non-empty pieces and never adds one |
| Server.KeepAll | server.js:79 | the filter changes nothing when no piece is empty |
| Server.DropAllEmpty | server.js:79 | the filter leaves nothing when every piece is empty |
| Server.TrimmedPiece | server.js:79 | trimming a piece with no `;` gives a trimmed piece with no `;` |
| Server.SplitPieces | server.js:79 | every character of a split piece comes from the input |
| Server.ParseTerms | server.js:79 | definition of `split(';').map(s => s.trim()).filter(s => s)`; its properties are the rows around it |
| Server.ParsedTermsClean | server.js:79 | every parsed term is non-empty, trimmed and free of `;`, as the search engine needs |
| Server.ParseJoined | server.js:79 | clean terms joined by `;` parse back to the same terms in the same order |
| Server.BlankParsesEmpty | server.js:74-79 | a blank input parses to no terms, which is why the guard turns it away |
| Server.ContextWidth | server.js:61-67 | a parsed width in [0, 1000] is kept; a missing, negative or too large one becomes 240 |
| Server.Buscar | server.js:58-90 | definition of the answer to `/buscar`: a redirection with its message or the rendered report |
| Server.BuscarOutcome | server.js:58-90 | the report is rendered exactly when files were sent, a non-blank search text was typed and the directory could be read; each other case redirects with its own message; the rendered report searched the parsed terms with the normalised width |
| Server.GuardsSkipSearch | server.js:69-77 | with no file or no search text the answer does not depend on the directory or the clock |

## Left out

- Decoding. Reading files, `pdfjs-dist`, `mammoth` and `xlsx` are not modelled. Each
  decoder's outcome is an input (`Decoded`): the pages of a PDF, the raw text of a DOCX,
  the sheets of a workbook as rows of cell strings, the content of a text file, or the
  failure message.
  - `getPdfTextByPage` is not part of this model, except for the message wrapper of
    buscador-core.js:38.
  - The `String(cell)` conversion of non-string cell values is taken as already done.
  - A decoder fails only before any search starts. In the source, `sheet_to_json`
    (buscador-core.js:194) can throw after earlier sheets were searched; the `catch` at
    buscador-core.js:230-232 then keeps the matches found so far, so an `error` result
    may carry some, and the per-term counters keep their increments. The model does not
    capture this, and `Processors.ExcelExits`, which says an `error` result found nothing
    and left the counters alone, rests on that choice.
- The file system. `fs.readdir` and `fs.stat` are inputs: the listing or its error
  message, and an `isFile` flag for each entry. A failing `fs.stat`, which would reject
  `generarInforme`, is not modelled.
- `path.join` and `path.basename` are not modelled: the listed name is the file name.
  `Extname` models `path.extname` on a plain file name; names containing `/` are not
  considered.
- Asynchrony and concurrency. Within one call of `generarInforme` every `await` finishes
  before the next step, so there is no interleaving. Concurrent requests, and the
  `Date.now()`-named upload directory they may share (server.js:33-39), belong to the
  upload plumbing that is left out. `Server.Buscar` takes the directory listing as an
  input independent of `files`.
- The clock. The report's date line takes `new Date().toLocaleString()` as a parameter
  (`fecha`).
- Aggregator.GenerarInforme: the per-file `catch` at buscador-core.js:334-345 is not
  modelled.
  - Every processor catches its own errors and returns a value, so in this model that
    `catch` can never be reached.
  - The console message of buscador-core.js:298 is also not modelled.
- Aggregator.GenerarInforme: the result is the report text, the JSON summary and the
  filtered results. The duplicate counter fields of buscador-core.js:417-423 repeat the
  summary and are not modelled.
- ContextSearch.ContextSnippets requires a non-empty search string. The empty string is
  ruled out by the `.filter(s => s)` of server.js:79 (`Server.ParsedTermsClean`). With an
  empty pattern, `exec` would match without advancing `lastIndex`.
- Regular expressions. The term is escaped before it becomes a regular expression, so the
  regex matches the literal text. The model compares characters directly, which is what
  the escaping achieves.
- Text.Lower: lower-casing covers ASCII and the Latin-1 capitals (`À`–`Þ`, except `×`),
  without the full Unicode case mapping. Outside that range a character is left as it is,
  which keeps lengths equal as the positions in buscador-core.js:52-53 assume. The `gi`
  highlight of buscador-core.js:66 folds case by upper-casing; within the range above the
  two foldings agree.
- ContextSearch.ContextSnippets: lengths and offsets (`match.index`, `substring`,
  `pos - contextChars`, `pos + searchString.length + contextChars`, `fullText.length`)
  count characters, where JavaScript counts UTF-16 code units. The two agree on text with
  no character above U+FFFF. Such a character has length 1 here and 2 in JavaScript (for
  example U+1F600), so near one the window of a snippet here may differ from the source's.
- Aggregator.GenerarInforme: the per-term counters are a `map`. The source keeps them in a
  plain object (buscador-core.js:289-290), where a term spelled `__proto__` is not an own
  key: setting it to `0` and the later increments are lost, the report prints the
  inherited value and the JSON summary lacks the key. The model counts such a term like
  any other.
- Text.Trim: the white space set is the one `String.prototype.trim` uses. No Unicode
  normalisation is done.
- Server.ContextWidth: `parseInt(value, 10)` is taken as already done. Its input is the
  parsed number, or `None` for `NaN`; the prefix parsing of strings such as `"12abc"` is
  not modelled.
- The `/buscar` plumbing is not modelled, apart from what `Server.Buscar` returns:
  - `multer`, the session messages, the temporary directory and its removal;
  - the log line of the error path;
  - that the `resultados` view shows the report while the route also stores it in the
    session.
- The other routes of server.js (the form, the download of the report, the static files)
  are not modelled.
