/** The per-format file processors `procesarTxt`, `procesarExcel`,
    `procesarDocx` and `procesarPdf`, from the point where the decoder has
    produced the document's text (or failed with a message). Each processor
    takes the shared dictionary `hallazgosPorString` as a value and returns
    its new value beside the processor's result. */
module Processors {
  import opened Wrappers
  import opened Text
  import opened ContextSearch
  import opened Results

  /** Every search term is non-empty: the scan of `_getContextSnippets` does
      not advance on an empty term, and the request parser drops them. */
  predicate ValidTerms(terms: seq<string>) {
    forall i :: 0 <= i < |terms| ==> terms[i] != []
  }

  /** The snippets of a search. An empty term, which the processors are never
      given, finds nothing. */
  function Search(text: string, t: string, c: nat, page: Option<nat>): seq<string> {
    if t == [] then [] else Snippets(text, t, c, page)
  }

  // ---------------------------------------------------------------------------
  // Exits shared by every processor

  /** The problem line of a document the decoder could not read. */
  function ErrorLine(name: string, tipo: string, msg: string): string {
    "Archivo: '" + name + "' -> ERROR: No se pudo procesar como " + tipo + ". Razón: " + msg
  }

  /** The problem line of an empty document. */
  function WarningLine(name: string, tipo: string, what: string): string {
    "Archivo: '" + name + "' (" + tipo + ") -> Advertencia: " + what
  }

  /** The `catch` exit: nothing found, one problem line, `estado: 'error'`. */
  function Errored(name: string, tipo: string, msg: string): Processed {
    Processed([], [ErrorLine(name, tipo, msg)], FileResult(name, tipo, 0, [], Error, Some(msg)))
  }

  /** An `estado: 'advertencia'` exit from the state `a`. */
  function Warned(name: string, tipo: string, a: Acc, what: string, detail: string): Processed {
    Processed(a.hallazgos, [WarningLine(name, tipo, what)],
              FileResult(name, tipo, a.total, a.entries, Advertencia, Some(detail)))
  }

  /** The normal exit from the state `a`: `estado: 'exito'`. */
  function Finished(name: string, tipo: string, a: Acc): Processed {
    Processed(a.hallazgos, [], FileResult(name, tipo, a.total, a.entries, Exito, None))
  }

  /** What every processor's result satisfies, with `c0` and `c1` the
      dictionary before and after: entries well formed and about the search
      terms, the total their sum, the dictionary raised by exactly the hits
      of each term, and one snippet line per hit in the report lines. */
  ghost predicate Consistent(p: Processed, c0: map<string, nat>, c1: map<string, nat>, terms: seq<string>) {
    var r := p.archivoResult;
    WellFormed(r.coincidencias) && TextsIn(r.coincidencias, terms) &&
    r.totalCoincidencias == Sum(r.coincidencias) &&
    Tallied(c0, c1, r.coincidencias) &&
    BulletCount(p.hallazgosTexto) == r.totalCoincidencias
  }

  lemma FinishedConsistent(name: string, tipo: string, a: Acc, c0: map<string, nat>, terms: seq<string>)
    requires Good(a, c0, terms)
    ensures Consistent(Finished(name, tipo, a), c0, a.counts, terms)
  {
  }

  lemma WarnedConsistent(name: string, tipo: string, a: Acc, what: string, detail: string,
                         c0: map<string, nat>, terms: seq<string>)
    requires Good(a, c0, terms)
    ensures Consistent(Warned(name, tipo, a, what, detail), c0, a.counts, terms)
  {
  }

  lemma ErroredConsistent(name: string, tipo: string, msg: string, c0: map<string, nat>, terms: seq<string>)
    ensures Consistent(Errored(name, tipo, msg), c0, c0, terms)
  {
  }

  // ---------------------------------------------------------------------------
  // Located text units: the lines of a text file and the cells of a workbook

  /** A piece of text searched on its own, with the location label its
      report lines and fragments carry (`Línea: 3`, `Hoja: 'S', Celda: B2`). */
  datatype Unit = Unit(where: string, text: string)

  /** The report header of a hit in a unit. */
  function UnitHeader(name: string, where: string, t: string): string {
    "\nArchivo: '" + name + "', " + where + " -> Encontrado: '" + t + "'"
  }

  /** Recording the snippets `sn` of term `t` found in unit `u`: with hits,
      a header, one bullet line per snippet and a blank line are reported,
      the snippets labelled with the location are added to the term's entry
      (created when missing), and the hits are added to the total and to the
      dictionary. */
  function Record(a: Acc, name: string, u: Unit, t: string, sn: seq<string>): Acc {
    if sn == [] then a
    else Acc(a.hallazgos + ([UnitHeader(name, u.where, t)] + Bullets(sn) + [""]),
             Upsert(a.entries, t, Prefixed(u.where + " - ", sn)),
             a.total + |sn|, Add(a.counts, t, |sn|))
  }

  /** One search term in one unit. */
  function UnitTerm(a: Acc, name: string, u: Unit, t: string, c: nat): Acc {
    Record(a, name, u, t, Search(u.text, t, c, None))
  }

  /** The search terms `terms`, in order, in one unit. */
  function TermsAcc(a: Acc, name: string, u: Unit, terms: seq<string>, c: nat): Acc
    decreases |terms|
  {
    if terms == [] then a else TermsAcc(UnitTerm(a, name, u, terms[0], c), name, u, terms[1..], c)
  }

  /** One unit: a blank one is skipped, otherwise every term is searched. */
  function UnitAcc(a: Acc, name: string, u: Unit, terms: seq<string>, c: nat): Acc {
    if IsBlank(u.text) then a else TermsAcc(a, name, u, terms, c)
  }

  /** The units `us`, in order. */
  function UnitsAcc(a: Acc, name: string, us: seq<Unit>, terms: seq<string>, c: nat): Acc {
    if us == [] then a
    else UnitAcc(UnitsAcc(a, name, us[..|us| - 1], terms, c), name, us[|us| - 1], terms, c)
  }

  lemma UnitsAccSnoc(a: Acc, name: string, us: seq<Unit>, u: Unit, terms: seq<string>, c: nat)
    ensures UnitsAcc(a, name, us + [u], terms, c) == UnitAcc(UnitsAcc(a, name, us, terms, c), name, u, terms, c)
  {
    assert (us + [u])[..|us|] == us;
  }

  /** The inner loop over the search terms for one unit
      (buscador-core.js:202-221 and 251-269). */
  method SearchUnit(a: Acc, name: string, u: Unit, terms: seq<string>, c: nat) returns (b: Acc)
    requires ValidTerms(terms)
    ensures b == UnitAcc(a, name, u, terms, c)
  {
    b := a;
    if !IsBlank(u.text) {
      var j := 0;
      while j < |terms|
        invariant j <= |terms|
        invariant TermsAcc(b, name, u, terms[j..], c) == TermsAcc(a, name, u, terms, c)
      {
        var t := terms[j];
        TermsAccStep(b, name, u, terms, j, c);
        var snippets := ContextSnippets(u.text, t, c, None);
        ghost var next := Record(b, name, u, t, snippets);
        if |snippets| > 0 {
          b := Acc(b.hallazgos + ([UnitHeader(name, u.where, t)] + Bullets(snippets) + [""]),
                   Upsert(b.entries, t, Prefixed(u.where + " - ", snippets)),
                   b.total + |snippets|, Add(b.counts, t, |snippets|));
        }
        assert b == next;
        j := j + 1;
      }
    }
  }

  lemma TermsAccStep(a: Acc, name: string, u: Unit, terms: seq<string>, j: nat, c: nat)
    requires j < |terms|
    ensures TermsAcc(a, name, u, terms[j..], c) == TermsAcc(UnitTerm(a, name, u, terms[j], c), name, u, terms[j + 1..], c)
  {
    assert terms[j..][1..] == terms[j + 1..];
  }

  lemma Assoc<T>(x: seq<T>, y: seq<T>, z: seq<T>)
    ensures (x + y) + z == x + (y + z) && x + [] == x
  {
  }

  // Bookkeeping over units

  lemma UnitTermGood(a: Acc, c0: map<string, nat>, all: seq<string>, name: string, u: Unit, t: string, c: nat)
    requires Good(a, c0, all) && DistinctTexts(a.entries) && t in all
    ensures var b := UnitTerm(a, name, u, t, c); Good(b, c0, all) && DistinctTexts(b.entries)
  {
    var sn := Search(u.text, t, c, None);
    if sn != [] {
      HeaderNotBullet(UnitHeader(name, u.where, t));
      RecordUpsertGood(a, c0, all, UnitHeader(name, u.where, t), t, sn, Prefixed(u.where + " - ", sn));
    }
  }

  lemma {:induction false} TermsAccGood(a: Acc, c0: map<string, nat>, all: seq<string>, name: string, u: Unit,
                                        terms: seq<string>, c: nat)
    requires Good(a, c0, all) && DistinctTexts(a.entries)
    requires forall i :: 0 <= i < |terms| ==> terms[i] in all
    ensures var b := TermsAcc(a, name, u, terms, c); Good(b, c0, all) && DistinctTexts(b.entries)
    decreases |terms|
  {
    if terms != [] {
      UnitTermGood(a, c0, all, name, u, terms[0], c);
      TermsAccGood(UnitTerm(a, name, u, terms[0], c), c0, all, name, u, terms[1..], c);
    }
  }

  lemma {:induction false} UnitsAccGood(a: Acc, c0: map<string, nat>, name: string, us: seq<Unit>,
                                        terms: seq<string>, c: nat)
    requires Good(a, c0, terms) && DistinctTexts(a.entries)
    ensures var b := UnitsAcc(a, name, us, terms, c); Good(b, c0, terms) && DistinctTexts(b.entries)
  {
    if us != [] {
      var b := UnitsAcc(a, name, us[..|us| - 1], terms, c);
      UnitsAccGood(a, c0, name, us[..|us| - 1], terms, c);
      if !IsBlank(us[|us| - 1].text) {
        TermsAccGood(b, c0, terms, name, us[|us| - 1], terms, c);
      }
    }
  }

  lemma UnitTermDistinct(a: Acc, name: string, u: Unit, t: string, c: nat)
    requires DistinctTexts(a.entries)
    ensures DistinctTexts(UnitTerm(a, name, u, t, c).entries)
  {
    UpsertDistinct(a.entries, t, Prefixed(u.where + " - ", Search(u.text, t, c, None)));
  }

  /** Units with no text leave the state as it was. */
  lemma {:induction false} UnitsAccBlank(a: Acc, name: string, us: seq<Unit>, terms: seq<string>, c: nat)
    requires forall i :: 0 <= i < |us| ==> IsBlank(us[i].text)
    ensures UnitsAcc(a, name, us, terms, c) == a
  {
    if us != [] {
      UnitsAccBlank(a, name, us[..|us| - 1], terms, c);
    }
  }

  // The fragments each term collects over units, stated without the state

  /** The snippets of `k` in unit `u`, each labelled with the unit's
      location. */
  function Labelled(u: Unit, k: string, c: nat): seq<string> {
    Prefixed(u.where + " - ", Search(u.text, k, c, None))
  }

  /** The labelled snippets of `k` in unit `u`, once for each search term
      that is `k`. */
  function TermFrags(u: Unit, terms: seq<string>, k: string, c: nat): seq<string>
    decreases |terms|
  {
    if terms == [] then []
    else (if terms[0] == k then Labelled(u, k, c) else []) + TermFrags(u, terms[1..], k, c)
  }

  /** The labelled snippets of `k` over the non-blank units of `us`, in order. */
  function UnitsFrags(us: seq<Unit>, terms: seq<string>, k: string, c: nat): seq<string> {
    if us == [] then []
    else
      var u := us[|us| - 1];
      var own := if IsBlank(u.text) then [] else TermFrags(u, terms, k, c);
      UnitsFrags(us[..|us| - 1], terms, k, c) + own
  }

  lemma UnitTermFrags(a: Acc, name: string, u: Unit, t: string, c: nat, k: string)
    requires DistinctTexts(a.entries)
    ensures FragsOf(UnitTerm(a, name, u, t, c).entries, k) ==
      FragsOf(a.entries, k) + (if t == k then Labelled(u, k, c) else [])
  {
    var sn := Search(u.text, t, c, None);
    if sn != [] {
      UpsertFrags(a.entries, t, Prefixed(u.where + " - ", sn), k);
    } else if t == k {
      assert Prefixed(u.where + " - ", sn) == [];
      assert FragsOf(a.entries, k) + [] == FragsOf(a.entries, k);
    }
  }

  lemma {:induction false} TermsAccFrags(a: Acc, name: string, u: Unit, terms: seq<string>, c: nat, k: string)
    requires DistinctTexts(a.entries)
    ensures FragsOf(TermsAcc(a, name, u, terms, c).entries, k) == FragsOf(a.entries, k) + TermFrags(u, terms, k, c)
    decreases |terms|
  {
    if terms != [] {
      var b := UnitTerm(a, name, u, terms[0], c);
      UnitTermDistinct(a, name, u, terms[0], c);
      UnitTermFrags(a, name, u, terms[0], c, k);
      TermsAccFrags(b, name, u, terms[1..], c, k);
      Assoc(FragsOf(a.entries, k), if terms[0] == k then Labelled(u, k, c) else [], TermFrags(u, terms[1..], k, c));
    }
  }

  lemma {:induction false} UnitsAccDistinct(a: Acc, name: string, us: seq<Unit>, terms: seq<string>, c: nat)
    requires DistinctTexts(a.entries)
    ensures DistinctTexts(UnitsAcc(a, name, us, terms, c).entries)
  {
    if us != [] {
      var b := UnitsAcc(a, name, us[..|us| - 1], terms, c);
      UnitsAccDistinct(a, name, us[..|us| - 1], terms, c);
      if !IsBlank(us[|us| - 1].text) {
        TermsAccDistinct(b, name, us[|us| - 1], terms, c);
      }
    }
  }

  lemma {:induction false} TermsAccDistinct(a: Acc, name: string, u: Unit, terms: seq<string>, c: nat)
    requires DistinctTexts(a.entries)
    ensures DistinctTexts(TermsAcc(a, name, u, terms, c).entries)
    decreases |terms|
  {
    if terms != [] {
      UnitTermDistinct(a, name, u, terms[0], c);
      TermsAccDistinct(UnitTerm(a, name, u, terms[0], c), name, u, terms[1..], c);
    }
  }

  lemma {:induction false} UnitsAccFrags(a: Acc, name: string, us: seq<Unit>, terms: seq<string>, c: nat, k: string)
    requires DistinctTexts(a.entries)
    ensures FragsOf(UnitsAcc(a, name, us, terms, c).entries, k) == FragsOf(a.entries, k) + UnitsFrags(us, terms, k, c)
  {
    if us != [] {
      var p := us[..|us| - 1];
      var b := UnitsAcc(a, name, p, terms, c);
      UnitsAccFrags(a, name, p, terms, c, k);
      UnitsAccDistinct(a, name, p, terms, c);
      if !IsBlank(us[|us| - 1].text) {
        TermsAccFrags(b, name, us[|us| - 1], terms, c, k);
        Assoc(FragsOf(a.entries, k), UnitsFrags(p, terms, k, c), TermFrags(us[|us| - 1], terms, k, c));
      } else {
        Assoc(FragsOf(a.entries, k), UnitsFrags(p, terms, k, c), []);
      }
    }
  }

  // ---------------------------------------------------------------------------
  // procesarTxt (buscador-core.js:237-276)

  /** The location label of the line at index `i`: lines count from 1, blank
      ones included. */
  function LineLabel(i: nat): string {
    "Línea: " + NatToString(i + 1)
  }

  /** The lines of a text file as units. */
  function LineUnits(lines: seq<string>): (us: seq<Unit>)
    ensures |us| == |lines|
    ensures forall i :: 0 <= i < |lines| ==> us[i] == Unit(LineLabel(i), lines[i])
  {
    seq(|lines|, i requires 0 <= i < |lines| => Unit(LineLabel(i), lines[i]))
  }

  /** `procesarTxt` on the file's contents, or on the message of the read
      error, with `c0` the dictionary before the call. */
  function Txt(name: string, content: Result<string>, terms: seq<string>, c: nat,
               c0: map<string, nat>): (Processed, map<string, nat>)
  {
    match content
    case Failure(msg) => (Errored(name, "TXT", msg), c0)
    case Success(text) =>
      if IsBlank(text) then
        (Warned(name, "TXT", Start(c0), "Archivo de texto vacío.", "Archivo de texto vacío."), c0)
      else
        var a := UnitsAcc(Start(c0), name, LineUnits(SplitLines(text)), terms, c);
        (Finished(name, "TXT", a), a.counts)
  }

  method ProcesarTxt(name: string, content: Result<string>, listaStrings: seq<string>, contextChars: nat,
                     hallazgosPorString: map<string, nat>)
    returns (res: Processed, counts: map<string, nat>)
    requires ValidTerms(listaStrings)
    ensures (res, counts) == Txt(name, content, listaStrings, contextChars, hallazgosPorString)
  {
    match content
    case Failure(msg) =>
      res, counts := Errored(name, "TXT", msg), hallazgosPorString;
    case Success(contenido) =>
      if IsBlank(contenido) {
        res := Warned(name, "TXT", Start(hallazgosPorString), "Archivo de texto vacío.", "Archivo de texto vacío.");
        counts := hallazgosPorString;
        return;
      }
      var lineas := SplitLines(contenido);
      var acc := SearchLines(Start(hallazgosPorString), name, lineas, listaStrings, contextChars);
      res, counts := Finished(name, "TXT", acc), acc.counts;
  }

  /** The loop over the lines (buscador-core.js:249-268), from `a`. */
  method SearchLines(a: Acc, name: string, lineas: seq<string>, terms: seq<string>, c: nat) returns (b: Acc)
    requires ValidTerms(terms)
    ensures b == UnitsAcc(a, name, LineUnits(lineas), terms, c)
  {
    ghost var units := LineUnits(lineas);
    b := a;
    var i := 0;
    while i < |lineas|
      invariant i <= |lineas|
      invariant b == UnitsAcc(a, name, units[..i], terms, c)
    {
      UnitsAccSnoc(a, name, units[..i], units[i], terms, c);
      assert units[..i + 1] == units[..i] + [units[i]];
      b := SearchUnit(b, name, Unit(LineLabel(i), lineas[i]), terms, c);
      i := i + 1;
    }
    assert units[..|lineas|] == units;
  }

  /** Every result of `procesarTxt` keeps the bookkeeping. */
  lemma TxtConsistent(name: string, content: Result<string>, terms: seq<string>, c: nat, c0: map<string, nat>)
    ensures var (p, c1) := Txt(name, content, terms, c, c0); Consistent(p, c0, c1, terms)
  {
    if content.Success? && !IsBlank(content.value) {
      StartGood(c0, terms);
      UnitsAccGood(Start(c0), c0, name, LineUnits(SplitLines(content.value)), terms, c);
    }
  }

  /** `procesarTxt` warns exactly on blank contents, and then reports nothing
      and leaves the dictionary alone; it fails exactly when the read fails,
      with the read error's message. */
  lemma TxtExits(name: string, content: Result<string>, terms: seq<string>, c: nat, c0: map<string, nat>)
    ensures var (p, c1) := Txt(name, content, terms, c, c0);
      (p.archivoResult.estado == Advertencia <==> content.Success? && IsBlank(content.value)) &&
      (p.archivoResult.estado == Error <==> content.Failure?) &&
      (p.archivoResult.estado != Exito ==>
         p.hallazgosTexto == [] && p.archivoResult.totalCoincidencias == 0 &&
         p.archivoResult.coincidencias == [] && c1 == c0 && |p.problemasTexto| == 1) &&
      (content.Failure? ==> p.archivoResult.errorDetalle == Some(content.error)) &&
      (p.archivoResult.estado == Exito ==> p.problemasTexto == [] && p.archivoResult.errorDetalle == None)
  {
  }

  /** The fragments `procesarTxt` records for a term are its snippets in every
      non-blank line, in order, each labelled with its line number, and the
      dictionary rises by exactly their number. */
  lemma TxtFrags(name: string, text: string, terms: seq<string>, c: nat, c0: map<string, nat>, k: string)
    requires !IsBlank(text)
    ensures var (p, c1) := Txt(name, Success(text), terms, c, c0);
      FragsOf(p.archivoResult.coincidencias, k) == UnitsFrags(LineUnits(SplitLines(text)), terms, k, c) &&
      Get(c1, k) == Get(c0, k) + |UnitsFrags(LineUnits(SplitLines(text)), terms, k, c)|
  {
    var us := LineUnits(SplitLines(text));
    StartGood(c0, terms);
    UnitsAccFrags(Start(c0), name, us, terms, c, k);
    UnitsAccGood(Start(c0), c0, name, us, terms, c);
    HitsFrags(UnitsAcc(Start(c0), name, us, terms, c).entries, k);
  }

  // ---------------------------------------------------------------------------
  // procesarExcel (buscador-core.js:178-235)

  /** A worksheet as `sheet_to_json` with `header: 1` gives it: its name and
      its rows of cell values, already turned into strings. */
  datatype Sheet = Sheet(name: string, rows: seq<seq<string>>)

  /** The location label of a cell: the sheet name and the cell reference,
      column letters then the row number counted from 1. */
  function CellLabel(sheet: string, row: nat, col: nat): string {
    "Hoja: '" + sheet + "', Celda: " + ColumnName(col) + NatToString(row + 1)
  }

  /** The cells of the row at index `r` as units, in column order. */
  function CellUnits(sheet: string, r: nat, row: seq<string>): (us: seq<Unit>)
    ensures |us| == |row|
    ensures forall k :: 0 <= k < |row| ==> us[k] == Unit(CellLabel(sheet, r, k), row[k])
  {
    seq(|row|, k requires 0 <= k < |row| => Unit(CellLabel(sheet, r, k), row[k]))
  }

  /** The cells of the first `n` rows of a sheet, row by row. */
  function RowUnits(sh: Sheet, n: nat): seq<Unit>
    requires n <= |sh.rows|
  {
    if n == 0 then [] else RowUnits(sh, n - 1) + CellUnits(sh.name, n - 1, sh.rows[n - 1])
  }

  /** The cells of the first `n` sheets, sheet by sheet. */
  function SheetUnits(sheets: seq<Sheet>, n: nat): seq<Unit>
    requires n <= |sheets|
  {
    if n == 0 then [] else SheetUnits(sheets, n - 1) + RowUnits(sheets[n - 1], |sheets[n - 1].rows|)
  }

  /** Some cell of the sheet is not blank. */
  predicate HasData(sh: Sheet) {
    exists r, k | 0 <= r < |sh.rows| && 0 <= k < |sh.rows[r]| :: !IsBlank(sh.rows[r][k])
  }

  /** `hojasVacias` after the first `n` sheets: none of them has data. */
  function NoData(sheets: seq<Sheet>, n: nat): bool
    requires n <= |sheets|
  {
    n == 0 || (NoData(sheets, n - 1) && !HasData(sheets[n - 1]))
  }

  lemma {:induction false} NoDataAll(sheets: seq<Sheet>, n: nat)
    requires n <= |sheets|
    ensures NoData(sheets, n) <==> forall i :: 0 <= i < n ==> !HasData(sheets[i])
  {
    if n > 0 {
      NoDataAll(sheets, n - 1);
    }
  }

  /** `procesarExcel` on the decoded workbook, or on the message of the
      decoding error, with `c0` the dictionary before the call. */
  function Excel(name: string, workbook: Result<seq<Sheet>>, terms: seq<string>, c: nat,
                 c0: map<string, nat>): (Processed, map<string, nat>)
  {
    match workbook
    case Failure(msg) => (Errored(name, "Excel", msg), c0)
    case Success(sheets) =>
      if sheets == [] then
        (Warned(name, "Excel", Start(c0), "Archivo Excel sin hojas.", "Archivo Excel sin hojas."), c0)
      else
        var a := UnitsAcc(Start(c0), name, SheetUnits(sheets, |sheets|), terms, c);
        if NoData(sheets, |sheets|) then
          (Warned(name, "Excel", a, "Archivo Excel sin datos en ninguna hoja.", "Archivo sin datos en ninguna hoja."), a.counts)
        else
          (Finished(name, "Excel", a), a.counts)
  }

  method ProcesarExcel(name: string, workbook: Result<seq<Sheet>>, listaStrings: seq<string>,
                       contextChars: nat, hallazgosPorString: map<string, nat>)
    returns (res: Processed, counts: map<string, nat>)
    requires ValidTerms(listaStrings)
    ensures (res, counts) == Excel(name, workbook, listaStrings, contextChars, hallazgosPorString)
  {
    match workbook
    case Failure(msg) =>
      res, counts := Errored(name, "Excel", msg), hallazgosPorString;
    case Success(sheets) =>
      if |sheets| == 0 {
        res := Warned(name, "Excel", Start(hallazgosPorString), "Archivo Excel sin hojas.", "Archivo Excel sin hojas.");
        counts := hallazgosPorString;
        return;
      }
      var acc, hojasVacias := SearchSheets(Start(hallazgosPorString), name, sheets, listaStrings, contextChars);
      if hojasVacias {
        res := Warned(name, "Excel", acc, "Archivo Excel sin datos en ninguna hoja.", "Archivo sin datos en ninguna hoja.");
      } else {
        res := Finished(name, "Excel", acc);
      }
      counts := acc.counts;
  }

  /** The loop over the sheets (buscador-core.js:192-225), from `a`; it also
      tells whether no sheet has data. */
  method SearchSheets(a: Acc, name: string, sheets: seq<Sheet>, terms: seq<string>, c: nat)
    returns (b: Acc, hojasVacias: bool)
    requires ValidTerms(terms)
    ensures b == UnitsAcc(a, name, SheetUnits(sheets, |sheets|), terms, c)
    ensures hojasVacias == NoData(sheets, |sheets|)
  {
    b := a;
    hojasVacias := true;
    var s := 0;
    while s < |sheets|
      invariant s <= |sheets|
      invariant b == UnitsAcc(a, name, SheetUnits(sheets, s), terms, c)
      invariant hojasVacias == NoData(sheets, s)
    {
      var hoja := sheets[s];
      ghost var next := UnitsAcc(a, name, SheetUnits(sheets, s + 1), terms, c);
      assert next == UnitsAcc(b, name, RowUnits(hoja, |hoja.rows|), terms, c) &&
             NoData(sheets, s + 1) == (hojasVacias && !HasData(hoja)) by {
        SheetStep(a, name, sheets, s, terms, c);
      }
      if HasData(hoja) {
        hojasVacias := false;
      }
      b := SearchSheet(b, name, hoja, terms, c);
      s := s + 1;
    }
  }

  /** One more sheet: its units follow those of the earlier sheets, and it
      clears `hojasVacias` exactly when it has data. */
  lemma SheetStep(a: Acc, name: string, sheets: seq<Sheet>, s: nat, terms: seq<string>, c: nat)
    requires s < |sheets|
    ensures NoData(sheets, s + 1) == (NoData(sheets, s) && !HasData(sheets[s]))
    ensures UnitsAcc(a, name, SheetUnits(sheets, s + 1), terms, c)
      == UnitsAcc(UnitsAcc(a, name, SheetUnits(sheets, s), terms, c), name,
                  RowUnits(sheets[s], |sheets[s].rows|), terms, c)
  {
    UnitsAccAppend(a, name, SheetUnits(sheets, s), RowUnits(sheets[s], |sheets[s].rows|), terms, c);
  }

  /** The loop over the rows of one sheet (buscador-core.js:199-224). */
  method SearchSheet(a: Acc, name: string, hoja: Sheet, terms: seq<string>, c: nat) returns (b: Acc)
    requires ValidTerms(terms)
    ensures b == UnitsAcc(a, name, RowUnits(hoja, |hoja.rows|), terms, c)
  {
    b := a;
    var fila := 0;
    while fila < |hoja.rows|
      invariant fila <= |hoja.rows|
      invariant b == UnitsAcc(a, name, RowUnits(hoja, fila), terms, c)
    {
      UnitsAccAppend(a, name, RowUnits(hoja, fila), CellUnits(hoja.name, fila, hoja.rows[fila]), terms, c);
      b := SearchRow(b, name, hoja.name, fila, hoja.rows[fila], terms, c);
      fila := fila + 1;
    }
  }

  /** The loop over the cells of row `fila` (buscador-core.js:200-223). */
  method SearchRow(a: Acc, name: string, sheet: string, fila: nat, cells: seq<string>, terms: seq<string>, c: nat)
    returns (b: Acc)
    requires ValidTerms(terms)
    ensures b == UnitsAcc(a, name, CellUnits(sheet, fila, cells), terms, c)
  {
    b := a;
    var col := 0;
    ghost var row := CellUnits(sheet, fila, cells);
    while col < |cells|
      invariant col <= |cells|
      invariant b == UnitsAcc(a, name, row[..col], terms, c)
    {
      UnitsAccSnoc(a, name, row[..col], row[col], terms, c);
      assert row[..col + 1] == row[..col] + [row[col]];
      b := SearchUnit(b, name, Unit(CellLabel(sheet, fila, col), cells[col]), terms, c);
      col := col + 1;
    }
    assert row[..|cells|] == row;
  }

  /** Searching `x` then `y` is searching `x + y`. */
  lemma {:induction false} UnitsAccAppend(a: Acc, name: string, x: seq<Unit>, y: seq<Unit>, terms: seq<string>, c: nat)
    ensures UnitsAcc(a, name, x + y, terms, c) == UnitsAcc(UnitsAcc(a, name, x, terms, c), name, y, terms, c)
    decreases |y|
  {
    if y == [] {
      assert x + y == x;
    } else {
      var y' := y[..|y| - 1];
      UnitsAccAppend(a, name, x, y', terms, c);
      assert (x + y)[..|x + y| - 1] == x + y';
      assert (x + y)[|x + y| - 1] == y[|y| - 1];
    }
  }

  /** Units are all blank. */
  predicate AllBlank(us: seq<Unit>) {
    forall i :: 0 <= i < |us| ==> IsBlank(us[i].text)
  }

  lemma AllBlankAppend(x: seq<Unit>, y: seq<Unit>)
    requires AllBlank(x) && AllBlank(y)
    ensures AllBlank(x + y)
  {
    forall i | 0 <= i < |x + y| ensures IsBlank((x + y)[i].text) {
      if i >= |x| {
        assert (x + y)[i] == y[i - |x|];
      }
    }
  }

  lemma {:induction false} RowUnitsBlank(sh: Sheet, n: nat)
    requires n <= |sh.rows| && !HasData(sh)
    ensures AllBlank(RowUnits(sh, n))
  {
    if n > 0 {
      RowUnitsBlank(sh, n - 1);
      var row := CellUnits(sh.name, n - 1, sh.rows[n - 1]);
      assert AllBlank(row) by {
        forall k | 0 <= k < |row| ensures IsBlank(row[k].text) {
          assert row[k].text == sh.rows[n - 1][k];
        }
      }
      AllBlankAppend(RowUnits(sh, n - 1), row);
    }
  }

  lemma {:induction false} SheetUnitsBlank(sheets: seq<Sheet>, n: nat)
    requires n <= |sheets| && forall i :: 0 <= i < |sheets| ==> !HasData(sheets[i])
    ensures AllBlank(SheetUnits(sheets, n))
  {
    if n > 0 {
      SheetUnitsBlank(sheets, n - 1);
      RowUnitsBlank(sheets[n - 1], |sheets[n - 1].rows|);
      AllBlankAppend(SheetUnits(sheets, n - 1), RowUnits(sheets[n - 1], |sheets[n - 1].rows|));
    }
  }

  /** Every result of `procesarExcel` keeps the bookkeeping. */
  lemma ExcelConsistent(name: string, workbook: Result<seq<Sheet>>, terms: seq<string>, c: nat, c0: map<string, nat>)
    ensures var (p, c1) := Excel(name, workbook, terms, c, c0); Consistent(p, c0, c1, terms)
  {
    match workbook
    case Failure(msg) =>
      ErroredConsistent(name, "Excel", msg, c0, terms);
    case Success(sheets) =>
      StartGood(c0, terms);
      if sheets == [] {
        WarnedConsistent(name, "Excel", Start(c0), "Archivo Excel sin hojas.", "Archivo Excel sin hojas.", c0, terms);
      } else {
        var a := UnitsAcc(Start(c0), name, SheetUnits(sheets, |sheets|), terms, c);
        UnitsAccGood(Start(c0), c0, name, SheetUnits(sheets, |sheets|), terms, c);
        if NoData(sheets, |sheets|) {
          WarnedConsistent(name, "Excel", a, "Archivo Excel sin datos en ninguna hoja.",
                           "Archivo sin datos en ninguna hoja.", c0, terms);
        } else {
          FinishedConsistent(name, "Excel", a, c0, terms);
        }
      }
  }

  /** `procesarExcel` warns exactly on a workbook with no sheets or with no
      non-blank cell, and then reports nothing and leaves the dictionary
      alone; it fails exactly when decoding fails, with the decoder's
      message. */
  lemma ExcelExits(name: string, workbook: Result<seq<Sheet>>, terms: seq<string>, c: nat, c0: map<string, nat>)
    ensures var (p, c1) := Excel(name, workbook, terms, c, c0);
      (p.archivoResult.estado == Advertencia <==>
         workbook.Success? && forall i :: 0 <= i < |workbook.value| ==> !HasData(workbook.value[i])) &&
      (p.archivoResult.estado == Error <==> workbook.Failure?) &&
      (p.archivoResult.estado != Exito ==>
         p.hallazgosTexto == [] && p.archivoResult.totalCoincidencias == 0 &&
         p.archivoResult.coincidencias == [] && c1 == c0 && |p.problemasTexto| == 1) &&
      (workbook.Failure? ==> p.archivoResult.errorDetalle == Some(workbook.error)) &&
      (p.archivoResult.estado == Exito ==> p.problemasTexto == [] && p.archivoResult.errorDetalle == None)
  {
    if workbook.Success? && workbook.value != [] {
      var sheets := workbook.value;
      NoDataAll(sheets, |sheets|);
      if forall i :: 0 <= i < |sheets| ==> !HasData(sheets[i]) {
        SheetUnitsBlank(sheets, |sheets|);
        UnitsAccBlank(Start(c0), name, SheetUnits(sheets, |sheets|), terms, c);
      }
    }
  }

  /** The fragments `procesarExcel` records for a term are its snippets in
      every non-blank cell, sheet by sheet, row by row and column by column,
      each labelled with the sheet and cell, and the dictionary rises by
      exactly their number. */
  lemma ExcelFrags(name: string, sheets: seq<Sheet>, terms: seq<string>, c: nat, c0: map<string, nat>, k: string)
    requires sheets != []
    ensures var (p, c1) := Excel(name, Success(sheets), terms, c, c0);
      FragsOf(p.archivoResult.coincidencias, k) == UnitsFrags(SheetUnits(sheets, |sheets|), terms, k, c) &&
      Get(c1, k) == Get(c0, k) + |UnitsFrags(SheetUnits(sheets, |sheets|), terms, k, c)|
  {
    var us := SheetUnits(sheets, |sheets|);
    StartGood(c0, terms);
    UnitsAccFrags(Start(c0), name, us, terms, c, k);
    UnitsAccGood(Start(c0), c0, name, us, terms, c);
    HitsFrags(UnitsAcc(Start(c0), name, us, terms, c).entries, k);
  }

  /** Cell references: column letters in bijective base 26, then the row
      counted from 1. */
  lemma CellLabelExample()
    ensures CellLabel("Datos", 0, 0) == "Hoja: 'Datos', Celda: A1"
    ensures CellLabel("Datos", 9, 27) == "Hoja: 'Datos', Celda: AB10"
  {
  }

  // ---------------------------------------------------------------------------
  // procesarDocx (buscador-core.js:143-176)

  function DocxHeader(name: string, t: string): string {
    "\nArchivo: '" + name + "' (DOCX) -> Encontrado: '" + t + "'"
  }

  /** One search term over the whole document: with hits, a header, one
      bullet line per snippet and a blank line are reported, a new entry with
      the snippets is pushed, and the hits are added to the total and to the
      dictionary. */
  function DocxTerm(a: Acc, name: string, text: string, t: string, c: nat): Acc {
    var sn := Search(text, t, c, None);
    if sn == [] then a
    else Acc(a.hallazgos + ([DocxHeader(name, t)] + Bullets(sn) + [""]),
             a.entries + [Entry(t, |sn|, sn)], a.total + |sn|, Add(a.counts, t, |sn|))
  }

  /** The search terms `terms`, in order. */
  function DocxTerms(a: Acc, name: string, text: string, terms: seq<string>, c: nat): Acc
    decreases |terms|
  {
    if terms == [] then a else DocxTerms(DocxTerm(a, name, text, terms[0], c), name, text, terms[1..], c)
  }

  /** `procesarDocx` on the extracted raw text, or on the message of the
      extraction error, with `c0` the dictionary before the call. */
  function Docx(name: string, doc: Result<string>, terms: seq<string>, c: nat,
                c0: map<string, nat>): (Processed, map<string, nat>)
  {
    match doc
    case Failure(msg) => (Errored(name, "DOCX", msg), c0)
    case Success(text) =>
      if IsBlank(text) then
        (Warned(name, "DOCX", Start(c0), "Archivo DOCX vacío o sin texto extraíble.",
                "Archivo vacío o sin texto extraíble."), c0)
      else
        var a := DocxTerms(Start(c0), name, text, terms, c);
        (Finished(name, "DOCX", a), a.counts)
  }

  method ProcesarDocx(name: string, doc: Result<string>, listaStrings: seq<string>, contextChars: nat,
                      hallazgosPorString: map<string, nat>)
    returns (res: Processed, counts: map<string, nat>)
    requires ValidTerms(listaStrings)
    ensures (res, counts) == Docx(name, doc, listaStrings, contextChars, hallazgosPorString)
  {
    match doc
    case Failure(msg) =>
      res, counts := Errored(name, "DOCX", msg), hallazgosPorString;
    case Success(value) =>
      if IsBlank(value) {
        res := Warned(name, "DOCX", Start(hallazgosPorString), "Archivo DOCX vacío o sin texto extraíble.",
                      "Archivo vacío o sin texto extraíble.");
        counts := hallazgosPorString;
        return;
      }
      ghost var goal := DocxTerms(Start(hallazgosPorString), name, value, listaStrings, contextChars);
      var acc := Start(hallazgosPorString);
      var j := 0;
      while j < |listaStrings|
        invariant j <= |listaStrings|
        invariant DocxTerms(acc, name, value, listaStrings[j..], contextChars) == goal
      {
        var t := listaStrings[j];
        assert listaStrings[j..][1..] == listaStrings[j + 1..];
        var snippets := ContextSnippets(value, t, contextChars, None);
        ghost var next := DocxTerm(acc, name, value, t, contextChars);
        if |snippets| > 0 {
          acc := Acc(acc.hallazgos + ([DocxHeader(name, t)] + Bullets(snippets) + [""]),
                     acc.entries + [Entry(t, |snippets|, snippets)],
                     acc.total + |snippets|, Add(acc.counts, t, |snippets|));
        }
        assert acc == next;
        j := j + 1;
      }
      res, counts := Finished(name, "DOCX", acc), acc.counts;
  }

  lemma DocxTermGood(a: Acc, c0: map<string, nat>, all: seq<string>, name: string, text: string, t: string, c: nat)
    requires Good(a, c0, all) && t in all
    ensures Good(DocxTerm(a, name, text, t, c), c0, all)
  {
    var sn := Search(text, t, c, None);
    if sn != [] {
      var h := a.hallazgos + ([DocxHeader(name, t)] + Bullets(sn) + [""]);
      HeaderNotBullet(DocxHeader(name, t));
      BlockCount(DocxHeader(name, t), sn);
      BulletCountAppend(a.hallazgos, [DocxHeader(name, t)] + Bullets(sn) + [""]);
      RecordPushGood(a, c0, all, h, t, sn);
    }
  }

  lemma {:induction false} DocxTermsGood(a: Acc, c0: map<string, nat>, all: seq<string>, name: string, text: string,
                                         terms: seq<string>, c: nat)
    requires Good(a, c0, all)
    requires forall i :: 0 <= i < |terms| ==> terms[i] in all
    ensures Good(DocxTerms(a, name, text, terms, c), c0, all)
    decreases |terms|
  {
    if terms != [] {
      DocxTermGood(a, c0, all, name, text, terms[0], c);
      DocxTermsGood(DocxTerm(a, name, text, terms[0], c), c0, all, name, text, terms[1..], c);
    }
  }

  /** The snippets of `k` in the document, once for each search term that
      is `k`. */
  function DocxFound(text: string, terms: seq<string>, k: string, c: nat): seq<string>
    decreases |terms|
  {
    if terms == [] then []
    else (if terms[0] == k then Search(text, k, c, None) else []) + DocxFound(text, terms[1..], k, c)
  }

  lemma DocxTermFrags(a: Acc, name: string, text: string, t: string, c: nat, k: string)
    ensures FragsOf(DocxTerm(a, name, text, t, c).entries, k) ==
      FragsOf(a.entries, k) + (if t == k then Search(text, k, c, None) else [])
  {
    var sn := Search(text, t, c, None);
    var e := Entry(t, |sn|, sn);
    if sn != [] {
      FragsOfAppend(a.entries, [e], k);
      assert [e][1..] == [];
      assert FragsOf([e], k) == (if t == k then sn else []) + FragsOf([], k);
    }
    Assoc(FragsOf(a.entries, k), [], []);
  }

  lemma {:induction false} DocxTermsFrags(a: Acc, name: string, text: string, terms: seq<string>, c: nat, k: string)
    ensures FragsOf(DocxTerms(a, name, text, terms, c).entries, k) == FragsOf(a.entries, k) + DocxFound(text, terms, k, c)
    decreases |terms|
  {
    if terms != [] {
      DocxTermFrags(a, name, text, terms[0], c, k);
      DocxTermsFrags(DocxTerm(a, name, text, terms[0], c), name, text, terms[1..], c, k);
      Assoc(FragsOf(a.entries, k), if terms[0] == k then Search(text, k, c, None) else [], DocxFound(text, terms[1..], k, c));
    } else {
      Assoc(FragsOf(a.entries, k), [], []);
    }
  }

  /** Every result of `procesarDocx` keeps the bookkeeping. */
  lemma DocxConsistent(name: string, doc: Result<string>, terms: seq<string>, c: nat, c0: map<string, nat>)
    ensures var (p, c1) := Docx(name, doc, terms, c, c0); Consistent(p, c0, c1, terms)
  {
    if doc.Success? && !IsBlank(doc.value) {
      StartGood(c0, terms);
      DocxTermsGood(Start(c0), c0, terms, name, doc.value, terms, c);
    }
  }

  /** `procesarDocx` warns exactly on blank text, and then reports nothing and
      leaves the dictionary alone; it fails exactly when extraction fails,
      with the extractor's message. */
  lemma DocxExits(name: string, doc: Result<string>, terms: seq<string>, c: nat, c0: map<string, nat>)
    ensures var (p, c1) := Docx(name, doc, terms, c, c0);
      (p.archivoResult.estado == Advertencia <==> doc.Success? && IsBlank(doc.value)) &&
      (p.archivoResult.estado == Error <==> doc.Failure?) &&
      (p.archivoResult.estado != Exito ==>
         p.hallazgosTexto == [] && p.archivoResult.totalCoincidencias == 0 &&
         p.archivoResult.coincidencias == [] && c1 == c0 && |p.problemasTexto| == 1) &&
      (doc.Failure? ==> p.archivoResult.errorDetalle == Some(doc.error)) &&
      (p.archivoResult.estado == Exito ==> p.problemasTexto == [] && p.archivoResult.errorDetalle == None)
  {
  }

  /** The fragments `procesarDocx` records for a term are its snippets in the
      document, unlabelled, once per occurrence of the term among the search
      terms, and the dictionary rises by exactly their number. */
  lemma DocxFrags(name: string, text: string, terms: seq<string>, c: nat, c0: map<string, nat>, k: string)
    requires !IsBlank(text)
    ensures var (p, c1) := Docx(name, Success(text), terms, c, c0);
      FragsOf(p.archivoResult.coincidencias, k) == DocxFound(text, terms, k, c) &&
      Get(c1, k) == Get(c0, k) + |DocxFound(text, terms, k, c)|
  {
    StartGood(c0, terms);
    DocxTermsFrags(Start(c0), name, text, terms, c, k);
    DocxTermsGood(Start(c0), c0, terms, name, text, terms, c);
    HitsFrags(DocxTerms(Start(c0), name, text, terms, c).entries, k);
  }

  // ---------------------------------------------------------------------------
  // procesarPdf (buscador-core.js:84-141)

  function PdfHeader(name: string, n: nat, t: string): string {
    "\nArchivo: '" + name + "' (PDF) - Página " + NatToString(n) + " -> Encontrado: '" + t + "'"
  }

  /** What the loop over the pages builds for one term: the report lines (the
      processor's whole `hallazgos`) and `fragmentosConPagina`. */
  datatype PageScan = PageScan(lines: seq<string>, frags: seq<string>)

  /** The snippets of term `t` in page `n`: none on a blank page. */
  function PageHits(text: string, t: string, c: nat, n: nat): seq<string> {
    if IsBlank(text) then [] else Search(text, t, c, Some(n))
  }

  /** A page step collects that page's snippets. */
  lemma PageStepFrags(s: PageScan, name: string, text: string, n: nat, t: string, c: nat)
    ensures PageStep(s, name, text, n, t, c).frags == s.frags + PageHits(text, t, c, n)
  {
    if PageHits(text, t, c, n) == [] {
      assert s.frags + [] == s.frags;
    }
  }

  /** One page, numbered `n`, for term `t`: a blank page is skipped; with
      hits, a header and one bullet line per snippet are reported and the
      snippets, which carry the page number, are collected. */
  function PageStep(s: PageScan, name: string, text: string, n: nat, t: string, c: nat): PageScan {
    var sn := PageHits(text, t, c, n);
    if sn == [] then s
    else PageScan(s.lines + ([PdfHeader(name, n, t)] + Bullets(sn)), s.frags + sn)
  }

  /** The first `n` pages for term `t`; pages are numbered from 1. */
  function PagesScan(s: PageScan, name: string, pages: seq<string>, t: string, c: nat, n: nat): PageScan
    requires n <= |pages|
  {
    if n == 0 then s else PageStep(PagesScan(s, name, pages, t, c, n - 1), name, pages[n - 1], n, t, c)
  }

  /** One search term over all pages: after the page loop, when the term was
      found, a blank line is reported, one entry with all its fragments is
      pushed, and the hits are added to the total and to the dictionary. */
  function PdfTerm(a: Acc, name: string, pages: seq<string>, t: string, c: nat): Acc {
    var s := PagesScan(PageScan(a.hallazgos, []), name, pages, t, c, |pages|);
    if |s.frags| == 0 then Acc(s.lines, a.entries, a.total, a.counts)
    else Acc(s.lines + [""], a.entries + [Entry(t, |s.frags|, s.frags)], a.total + |s.frags|,
             Add(a.counts, t, |s.frags|))
  }

  /** The search terms `terms`, in order. */
  function PdfTerms(a: Acc, name: string, pages: seq<string>, terms: seq<string>, c: nat): Acc
    decreases |terms|
  {
    if terms == [] then a else PdfTerms(PdfTerm(a, name, pages, terms[0], c), name, pages, terms[1..], c)
  }

  /** Some page has text that is not blank (buscador-core.js:94). */
  predicate HasText(pages: seq<string>) {
    exists i :: 0 <= i < |pages| && !IsBlank(pages[i])
  }

  /** `procesarPdf` on the text of each page, or on the message of the
      decoder's error, which `getPdfTextByPage` wraps (buscador-core.js:37-39),
      with `c0` the dictionary before the call. */
  function Pdf(name: string, doc: Result<seq<string>>, terms: seq<string>, c: nat,
               c0: map<string, nat>): (Processed, map<string, nat>)
  {
    match doc
    case Failure(msg) => (Errored(name, "PDF", "Error al extraer texto del PDF: " + msg), c0)
    case Success(pages) =>
      if !HasText(pages) then
        (Warned(name, "PDF", Start(c0), "Archivo PDF vacío o sin texto extraíble.",
                "Archivo vacío o sin texto extraíble."), c0)
      else
        var a := PdfTerms(Start(c0), name, pages, terms, c);
        (Finished(name, "PDF", a), a.counts)
  }

  method ProcesarPdf(name: string, doc: Result<seq<string>>, listaStrings: seq<string>, contextChars: nat,
                     hallazgosPorString: map<string, nat>)
    returns (res: Processed, counts: map<string, nat>)
    requires ValidTerms(listaStrings)
    ensures (res, counts) == Pdf(name, doc, listaStrings, contextChars, hallazgosPorString)
  {
    match doc
    case Failure(msg) =>
      res, counts := Errored(name, "PDF", "Error al extraer texto del PDF: " + msg), hallazgosPorString;
    case Success(paginas) =>
      var tieneTexto := exists i :: 0 <= i < |paginas| && !IsBlank(paginas[i]);
      if !tieneTexto {
        res := Warned(name, "PDF", Start(hallazgosPorString), "Archivo PDF vacío o sin texto extraíble.",
                      "Archivo vacío o sin texto extraíble.");
        counts := hallazgosPorString;
        return;
      }
      ghost var goal := PdfTerms(Start(hallazgosPorString), name, paginas, listaStrings, contextChars);
      var acc := Start(hallazgosPorString);
      var j := 0;
      while j < |listaStrings|
        invariant j <= |listaStrings|
        invariant PdfTerms(acc, name, paginas, listaStrings[j..], contextChars) == goal
      {
        var t := listaStrings[j];
        assert listaStrings[j..][1..] == listaStrings[j + 1..];
        acc := SearchPages(acc, name, paginas, t, contextChars);
        j := j + 1;
      }
      res, counts := Finished(name, "PDF", acc), acc.counts;
  }

  /** The body of the loop over the search terms (buscador-core.js:100-134):
      the loop over the pages, then the entry for the term. */
  method SearchPages(a: Acc, name: string, paginas: seq<string>, t: string, c: nat) returns (b: Acc)
    requires t != []
    ensures b == PdfTerm(a, name, paginas, t, c)
  {
    var hallazgos, fragmentosConPagina, coincidenciasPorTermino := ScanPages(a.hallazgos, name, paginas, t, c);
    if coincidenciasPorTermino > 0 {
      hallazgos := hallazgos + [""];
      b := Acc(hallazgos, a.entries + [Entry(t, coincidenciasPorTermino, fragmentosConPagina)],
               a.total + coincidenciasPorTermino, Add(a.counts, t, coincidenciasPorTermino));
    } else {
      b := Acc(hallazgos, a.entries, a.total, a.counts);
    }
  }

  /** The loop over the pages for term `t` (buscador-core.js:105-117), from
      the report lines `h0`: it returns the report lines, the fragments with
      their page numbers and their count. */
  method ScanPages(h0: seq<string>, name: string, paginas: seq<string>, t: string, c: nat)
    returns (hallazgos: seq<string>, fragmentosConPagina: seq<string>, coincidenciasPorTermino: nat)
    requires t != []
    ensures PageScan(hallazgos, fragmentosConPagina) == PagesScan(PageScan(h0, []), name, paginas, t, c, |paginas|)
    ensures coincidenciasPorTermino == |fragmentosConPagina|
  {
    hallazgos := h0;
    coincidenciasPorTermino := 0;
    fragmentosConPagina := [];
    var i := 0;
    while i < |paginas|
      invariant i <= |paginas|
      invariant PageScan(hallazgos, fragmentosConPagina) == PagesScan(PageScan(h0, []), name, paginas, t, c, i)
      invariant coincidenciasPorTermino == |fragmentosConPagina|
    {
      ghost var next := PageStep(PageScan(hallazgos, fragmentosConPagina), name, paginas[i], i + 1, t, c);
      ghost var sn := PageHits(paginas[i], t, c, i + 1);
      if !IsBlank(paginas[i]) {
        var snippets := ContextSnippets(paginas[i], t, c, Some(i + 1));
        assert snippets == sn;
        if |snippets| > 0 {
          coincidenciasPorTermino := coincidenciasPorTermino + |snippets|;
          fragmentosConPagina := fragmentosConPagina + snippets;
          hallazgos := hallazgos + ([PdfHeader(name, i + 1, t)] + Bullets(snippets));
        }
      }
      assert PageScan(hallazgos, fragmentosConPagina) == next;
      i := i + 1;
    }
  }

  // Bookkeeping

  /** A page step adds one bullet line per fragment it collects. */
  lemma PageStepCount(s: PageScan, name: string, text: string, n: nat, t: string, c: nat)
    ensures var r := PageStep(s, name, text, n, t, c);
      BulletCount(r.lines) + |s.frags| == BulletCount(s.lines) + |r.frags| && |s.frags| <= |r.frags|
  {
    var sn := PageHits(text, t, c, n);
    if sn != [] {
      var h := PdfHeader(name, n, t);
      HeaderNotBullet(h);
      BulletCountAppend([h], Bullets(sn));
      BulletsCounted(sn);
      BulletCountAppend(s.lines, [h] + Bullets(sn));
    }
  }

  /** The page loop adds one bullet line per fragment it collects. */
  lemma {:induction false} PagesScanCount(s: PageScan, name: string, pages: seq<string>, t: string, c: nat, n: nat)
    requires n <= |pages|
    ensures var r := PagesScan(s, name, pages, t, c, n);
      BulletCount(r.lines) + |s.frags| == BulletCount(s.lines) + |r.frags| && |s.frags| <= |r.frags|
  {
    if n > 0 {
      var r0 := PagesScan(s, name, pages, t, c, n - 1);
      assert PagesScan(s, name, pages, t, c, n) == PageStep(r0, name, pages[n - 1], n, t, c);
      PagesScanCount(s, name, pages, t, c, n - 1);
      PageStepCount(r0, name, pages[n - 1], n, t, c);
    }
  }

  lemma PdfTermGood(a: Acc, c0: map<string, nat>, all: seq<string>, name: string, pages: seq<string>, t: string, c: nat)
    requires Good(a, c0, all) && t in all
    ensures Good(PdfTerm(a, name, pages, t, c), c0, all)
  {
    var s := PagesScan(PageScan(a.hallazgos, []), name, pages, t, c, |pages|);
    PagesScanCount(PageScan(a.hallazgos, []), name, pages, t, c, |pages|);
    if |s.frags| > 0 {
      BulletCountAppend(s.lines, [""]);
      RecordPushGood(a, c0, all, s.lines + [""], t, s.frags);
    }
  }

  lemma {:induction false} PdfTermsGood(a: Acc, c0: map<string, nat>, all: seq<string>, name: string,
                                        pages: seq<string>, terms: seq<string>, c: nat)
    requires Good(a, c0, all)
    requires forall i :: 0 <= i < |terms| ==> terms[i] in all
    ensures Good(PdfTerms(a, name, pages, terms, c), c0, all)
    decreases |terms|
  {
    if terms != [] {
      PdfTermGood(a, c0, all, name, pages, terms[0], c);
      PdfTermsGood(PdfTerm(a, name, pages, terms[0], c), c0, all, name, pages, terms[1..], c);
    }
  }

  // The fragments each term collects, stated without the state

  /** The snippets of `k` in the first `n` non-blank pages, each carrying its
      page number. */
  function PageFrags(pages: seq<string>, k: string, c: nat, n: nat): seq<string>
    requires n <= |pages|
  {
    if n == 0 then []
    else PageFrags(pages, k, c, n - 1) + PageHits(pages[n - 1], k, c, n)
  }

  /** The fragments of `k` over all pages, once for each search term that is
      `k`. */
  function PdfFound(pages: seq<string>, terms: seq<string>, k: string, c: nat): seq<string>
    decreases |terms|
  {
    if terms == [] then []
    else (if terms[0] == k then PageFrags(pages, k, c, |pages|) else []) + PdfFound(pages, terms[1..], k, c)
  }

  lemma {:induction false} PagesScanFrags(s: PageScan, name: string, pages: seq<string>, t: string, c: nat, n: nat)
    requires n <= |pages|
    ensures PagesScan(s, name, pages, t, c, n).frags == s.frags + PageFrags(pages, t, c, n)
  {
    if n == 0 {
      Assoc(s.frags, [], []);
    } else {
      var p := PagesScan(s, name, pages, t, c, n - 1);
      PagesScanFrags(s, name, pages, t, c, n - 1);
      PageStepFrags(p, name, pages[n - 1], n, t, c);
      Assoc(s.frags, PageFrags(pages, t, c, n - 1), PageHits(pages[n - 1], t, c, n));
    }
  }

  lemma PdfTermFrags(a: Acc, name: string, pages: seq<string>, t: string, c: nat, k: string)
    ensures FragsOf(PdfTerm(a, name, pages, t, c).entries, k) ==
      FragsOf(a.entries, k) + (if t == k then PageFrags(pages, k, c, |pages|) else [])
  {
    var s := PagesScan(PageScan(a.hallazgos, []), name, pages, t, c, |pages|);
    PagesScanFrags(PageScan(a.hallazgos, []), name, pages, t, c, |pages|);
    assert s.frags == PageFrags(pages, t, c, |pages|);
    var e := Entry(t, |s.frags|, s.frags);
    if |s.frags| > 0 {
      FragsOfAppend(a.entries, [e], k);
      assert [e][1..] == [];
      assert FragsOf([e], k) == (if t == k then s.frags else []) + FragsOf([], k);
    }
    Assoc(FragsOf(a.entries, k), [], []);
  }

  lemma {:induction false} PdfTermsFrags(a: Acc, name: string, pages: seq<string>, terms: seq<string>, c: nat, k: string)
    ensures FragsOf(PdfTerms(a, name, pages, terms, c).entries, k) == FragsOf(a.entries, k) + PdfFound(pages, terms, k, c)
    decreases |terms|
  {
    if terms != [] {
      PdfTermFrags(a, name, pages, terms[0], c, k);
      PdfTermsFrags(PdfTerm(a, name, pages, terms[0], c), name, pages, terms[1..], c, k);
      Assoc(FragsOf(a.entries, k), if terms[0] == k then PageFrags(pages, k, c, |pages|) else [],
            PdfFound(pages, terms[1..], k, c));
    } else {
      Assoc(FragsOf(a.entries, k), [], []);
    }
  }

  /** Every result of `procesarPdf` keeps the bookkeeping. */
  lemma PdfConsistent(name: string, doc: Result<seq<string>>, terms: seq<string>, c: nat, c0: map<string, nat>)
    ensures var (p, c1) := Pdf(name, doc, terms, c, c0); Consistent(p, c0, c1, terms)
  {
    if doc.Success? && HasText(doc.value) {
      StartGood(c0, terms);
      PdfTermsGood(Start(c0), c0, terms, name, doc.value, terms, c);
    }
  }

  /** `procesarPdf` warns exactly when no page has text, and then reports
      nothing and leaves the dictionary alone; it fails exactly when decoding
      fails, with the wrapped decoder message. */
  lemma PdfExits(name: string, doc: Result<seq<string>>, terms: seq<string>, c: nat, c0: map<string, nat>)
    ensures var (p, c1) := Pdf(name, doc, terms, c, c0);
      (p.archivoResult.estado == Advertencia <==>
         doc.Success? && forall i :: 0 <= i < |doc.value| ==> IsBlank(doc.value[i])) &&
      (p.archivoResult.estado == Error <==> doc.Failure?) &&
      (p.archivoResult.estado != Exito ==>
         p.hallazgosTexto == [] && p.archivoResult.totalCoincidencias == 0 &&
         p.archivoResult.coincidencias == [] && c1 == c0 && |p.problemasTexto| == 1) &&
      (doc.Failure? ==> p.archivoResult.errorDetalle == Some("Error al extraer texto del PDF: " + doc.error)) &&
      (p.archivoResult.estado == Exito ==> p.problemasTexto == [] && p.archivoResult.errorDetalle == None)
  {
  }

  /** The fragments `procesarPdf` records for a term are its snippets in every
      non-blank page, in page order, each carrying the page number, and the
      dictionary rises by exactly their number. */
  lemma PdfFrags(name: string, pages: seq<string>, terms: seq<string>, c: nat, c0: map<string, nat>, k: string)
    requires HasText(pages)
    ensures var (p, c1) := Pdf(name, Success(pages), terms, c, c0);
      FragsOf(p.archivoResult.coincidencias, k) == PdfFound(pages, terms, k, c) &&
      Get(c1, k) == Get(c0, k) + |PdfFound(pages, terms, k, c)|
  {
    StartGood(c0, terms);
    PdfTermsFrags(Start(c0), name, pages, terms, c, k);
    PdfTermsGood(Start(c0), c0, terms, name, pages, terms, c);
    HitsFrags(PdfTerms(Start(c0), name, pages, terms, c).entries, k);
  }
}
