/** `generarInforme` (buscador-core.js:279-425): the walk over the uploaded
    files, the dispatch on the extension, the counters, the text report and
    the filtered list of per-file results. The directory listing, the
    decoders and the clock are inputs. */
module Aggregator {
  import opened Wrappers
  import opened Text
  import opened Results
  import opened Processors

  // ---------------------------------------------------------------------------
  // Directory entries

  /** What each decoder yields for one file: the pages of a PDF, the raw text
      of a DOCX, the sheets of a workbook and the content of a text file. */
  datatype Decoded = Decoded(pdf: Result<seq<string>>, docx: Result<string>,
                             excel: Result<seq<Sheet>>, txt: Result<string>)

  /** One name of the directory listing, whether `fs.stat` calls it a regular
      file, and what the decoders make of it. */
  datatype DirEntry = DirEntry(name: string, isFile: bool, decoded: Decoded)

  const Supported: seq<string> := [".pdf", ".docx", ".xlsx", ".xls", ".txt"]

  /** The index of the last `.` of `s`. */
  function LastDot(s: string): (r: Option<nat>)
    ensures r.Some? ==> r.value < |s| && s[r.value] == '.' && forall j :: r.value < j < |s| ==> s[j] != '.'
    ensures r.None? ==> forall j :: 0 <= j < |s| ==> s[j] != '.'
  {
    if s == [] then None
    else if s[|s| - 1] == '.' then Some(|s| - 1)
    else LastDot(s[..|s| - 1])
  }

  /** `path.extname` of a file name (which holds no `/`): from the last `.`
      to the end, or nothing when there is no `.`, when the only dots open the
      name, as in `.bashrc`, or for `..`. */
  function Extname(name: string): string {
    match LastDot(name)
    case None => ""
    case Some(d) => if d == 0 || name == ".." then "" else name[d..]
  }

  /** An extension is a suffix of the name that starts with its only dot, and
      it is missing only when no dot follows the first character. */
  lemma ExtnameShape(name: string)
    ensures var x := Extname(name);
      (x == "" || (|x| < |name| && name[|name| - |x|..] == x && x[0] == '.' &&
                   forall j :: 0 < j < |x| ==> x[j] != '.')) &&
      (x == "" <==> name == ".." || forall j :: 0 < j < |name| ==> name[j] != '.')
  {
    match LastDot(name)
    case None =>
    case Some(d) =>
      if d != 0 && name != ".." {
        var x := name[d..];
        assert |x| == |name| - d;
        assert forall j :: 0 < j < |x| ==> x[j] == name[d + j];
      }
  }

  lemma ExtnameExamples()
    ensures Extname("acta.PDF") == ".PDF" && Extname(".txt") == "" && Extname("notas") == ""
  {
    assert LastDot("acta.PDF") == LastDot("acta.PD") == LastDot("acta.P") == LastDot("acta.") == Some(4) by {
      assert "acta.PDF"[..7] == "acta.PD" && "acta.PD"[..6] == "acta.P" && "acta.P"[..5] == "acta.";
    }
    assert LastDot(".txt") == Some(0) by {
      assert ".txt"[..3] == ".tx" && ".tx"[..2] == ".t" && ".t"[..1] == ".";
    }
    assert LastDot("notas") == None by {
      assert "notas"[..4] == "nota" && "nota"[..3] == "not" && "not"[..2] == "no" && "no"[..1] == "n";
      assert "n"[..0] == "";
    }
  }

  /** The processors `generarInforme` dispatches to. */
  datatype Format = PdfFormat | DocxFormat | ExcelFormat | TxtFormat

  /** The processor for a lowercased extension, if it is supported
      (buscador-core.js:292, 311-322). */
  function FormatOf(ext: string): Option<Format> {
    if ext == ".pdf" then Some(PdfFormat)
    else if ext == ".docx" then Some(DocxFormat)
    else if ext == ".xlsx" || ext == ".xls" then Some(ExcelFormat)
    else if ext == ".txt" then Some(TxtFormat)
    else None
  }

  /** An extension has a processor exactly when it is one of the supported
      ones. */
  lemma FormatOfSupported(ext: string)
    ensures FormatOf(ext).Some? <==> ext in Supported
  {
  }

  /** The `tipo` each processor writes into its result. */
  function Tipo(f: Format): string {
    match f
    case PdfFormat => "PDF"
    case DocxFormat => "DOCX"
    case ExcelFormat => "Excel"
    case TxtFormat => "TXT"
  }

  function Process(name: string, d: Decoded, f: Format, terms: seq<string>, c: nat,
                   c0: map<string, nat>): (Processed, map<string, nat>)
  {
    match f
    case PdfFormat => Pdf(name, d.pdf, terms, c, c0)
    case DocxFormat => Docx(name, d.docx, terms, c, c0)
    case ExcelFormat => Excel(name, d.excel, terms, c, c0)
    case TxtFormat => Txt(name, d.txt, terms, c, c0)
  }

  /** What every processor's result gives the caller: the bookkeeping of
      `Consistent`, problem lines that hold no snippet line, nothing found
      in a file that failed, and the file's name and type. */
  ghost predicate FileFacts(p: Processed, c0: map<string, nat>, c1: map<string, nat>, terms: seq<string>,
                            name: string, f: Format) {
    Consistent(p, c0, c1, terms) && BulletCount(p.problemasTexto) == 0 &&
    (p.archivoResult.estado == Error ==> p.hallazgosTexto == [] && p.archivoResult.totalCoincidencias == 0) &&
    p.archivoResult.archivo == name && p.archivoResult.tipo == Tipo(f)
  }

  lemma ExitLineFacts(p: Processed)
    requires p.problemasTexto == [] || (|p.problemasTexto| == 1 && |p.problemasTexto[0]| > 0 && p.problemasTexto[0][0] == 'A')
    ensures BulletCount(p.problemasTexto) == 0
  {
    if p.problemasTexto != [] {
      assert p.problemasTexto[1..] == [];
      assert Bullet[0] == ' ';
    }
  }

  lemma PdfFacts(name: string, doc: Result<seq<string>>, terms: seq<string>, c: nat, c0: map<string, nat>)
    ensures var (p, c1) := Pdf(name, doc, terms, c, c0); FileFacts(p, c0, c1, terms, name, PdfFormat)
  {
    PdfConsistent(name, doc, terms, c, c0);
    PdfExits(name, doc, terms, c, c0);
    PdfProblems(name, doc, terms, c, c0);
  }

  lemma PdfProblems(name: string, doc: Result<seq<string>>, terms: seq<string>, c: nat, c0: map<string, nat>)
    ensures BulletCount(Pdf(name, doc, terms, c, c0).0.problemasTexto) == 0
  {
    PdfExits(name, doc, terms, c, c0);
    ExitLineFacts(Pdf(name, doc, terms, c, c0).0);
  }

  lemma DocxFacts(name: string, doc: Result<string>, terms: seq<string>, c: nat, c0: map<string, nat>)
    ensures var (p, c1) := Docx(name, doc, terms, c, c0); FileFacts(p, c0, c1, terms, name, DocxFormat)
  {
    DocxConsistent(name, doc, terms, c, c0);
    DocxExits(name, doc, terms, c, c0);
    DocxProblems(name, doc, terms, c, c0);
  }

  lemma DocxProblems(name: string, doc: Result<string>, terms: seq<string>, c: nat, c0: map<string, nat>)
    ensures BulletCount(Docx(name, doc, terms, c, c0).0.problemasTexto) == 0
  {
    DocxExits(name, doc, terms, c, c0);
    ExitLineFacts(Docx(name, doc, terms, c, c0).0);
  }

  lemma ExcelFacts(name: string, book: Result<seq<Sheet>>, terms: seq<string>, c: nat, c0: map<string, nat>)
    ensures var (p, c1) := Excel(name, book, terms, c, c0); FileFacts(p, c0, c1, terms, name, ExcelFormat)
  {
    ExcelConsistent(name, book, terms, c, c0);
    ExcelExits(name, book, terms, c, c0);
    ExcelProblems(name, book, terms, c, c0);
  }

  lemma ExcelProblems(name: string, book: Result<seq<Sheet>>, terms: seq<string>, c: nat, c0: map<string, nat>)
    ensures BulletCount(Excel(name, book, terms, c, c0).0.problemasTexto) == 0
  {
    ExcelExits(name, book, terms, c, c0);
    ExitLineFacts(Excel(name, book, terms, c, c0).0);
  }

  lemma TxtFacts(name: string, content: Result<string>, terms: seq<string>, c: nat, c0: map<string, nat>)
    ensures var (p, c1) := Txt(name, content, terms, c, c0); FileFacts(p, c0, c1, terms, name, TxtFormat)
  {
    TxtConsistent(name, content, terms, c, c0);
    TxtExits(name, content, terms, c, c0);
    TxtProblems(name, content, terms, c, c0);
  }

  lemma TxtProblems(name: string, content: Result<string>, terms: seq<string>, c: nat, c0: map<string, nat>)
    ensures BulletCount(Txt(name, content, terms, c, c0).0.problemasTexto) == 0
  {
    TxtExits(name, content, terms, c, c0);
    ExitLineFacts(Txt(name, content, terms, c, c0).0);
  }

  /** Each processor's result names the file and its type, and keeps the
      bookkeeping. */
  lemma ProcessFacts(name: string, d: Decoded, f: Format, terms: seq<string>, c: nat, c0: map<string, nat>)
    ensures var (p, c1) := Process(name, d, f, terms, c, c0); FileFacts(p, c0, c1, terms, name, f)
  {
    match f
    case PdfFormat => PdfFacts(name, d.pdf, terms, c, c0);
    case DocxFormat => DocxFacts(name, d.docx, terms, c, c0);
    case ExcelFormat => ExcelFacts(name, d.excel, terms, c, c0);
    case TxtFormat => TxtFacts(name, d.txt, terms, c, c0);
  }

  // ---------------------------------------------------------------------------
  // The walk over the directory

  /** The variables of the loop over the directory (buscador-core.js:280-290,
      302-350). */
  datatype Walk = Walk(hallazgos: seq<string>, problemas: seq<string>, ignorados: seq<string>,
                       resultados: seq<FileResult>, procesados: nat, conProblemas: nat,
                       totalHallazgos: nat, counts: map<string, nat>)

  /** Every search term starts at 0 (buscador-core.js:290). */
  function InitialCounts(terms: seq<string>): (m: map<string, nat>)
    ensures forall k :: k in m <==> k in terms
    ensures forall k :: Get(m, k) == 0
  {
    map t | t in terms :: 0
  }

  function Begin(terms: seq<string>): Walk {
    Walk([], [], [], [], 0, 0, 0, InitialCounts(terms))
  }

  /** Adding one processor's result: its lines, its result, and the counter
      its state selects. */
  function Tally(w: Walk, p: Processed, c1: map<string, nat>): Walk {
    var r := p.archivoResult;
    if r.estado == Exito || r.estado == Advertencia then
      Walk(w.hallazgos + p.hallazgosTexto, w.problemas + p.problemasTexto, w.ignorados, w.resultados + [r],
           w.procesados + 1, w.conProblemas, w.totalHallazgos + r.totalCoincidencias, c1)
    else
      Walk(w.hallazgos + p.hallazgosTexto, w.problemas + p.problemasTexto, w.ignorados, w.resultados + [r],
           w.procesados, w.conProblemas + 1, w.totalHallazgos, c1)
  }

  /** One directory entry: other than regular files are passed over, a file
      with an unsupported extension is ignored, any other goes to its
      processor. */
  function Visit(w: Walk, e: DirEntry, terms: seq<string>, c: nat): Walk {
    if !e.isFile then w
    else
      match FormatOf(Lower(Extname(e.name)))
      case None => w.(ignorados := w.ignorados + [e.name])
      case Some(f) =>
        var (p, c1) := Process(e.name, e.decoded, f, terms, c, w.counts);
        Tally(w, p, c1)
  }

  /** The first `n` entries. */
  function WalkAll(es: seq<DirEntry>, n: nat, terms: seq<string>, c: nat): Walk
    requires n <= |es|
  {
    if n == 0 then Begin(terms) else Visit(WalkAll(es, n - 1, terms, c), es[n - 1], terms, c)
  }

  // Summaries of what the walk has met

  function FileCount(es: seq<DirEntry>, n: nat): nat
    requires n <= |es|
  {
    if n == 0 then 0 else FileCount(es, n - 1) + (if es[n - 1].isFile then 1 else 0)
  }

  function ErrorCount(rs: seq<FileResult>): nat {
    if rs == [] then 0 else ErrorCount(rs[..|rs| - 1]) + (if rs[|rs| - 1].estado == Error then 1 else 0)
  }

  function TotalOf(rs: seq<FileResult>): nat {
    if rs == [] then 0 else TotalOf(rs[..|rs| - 1]) + rs[|rs| - 1].totalCoincidencias
  }

  /** The hits of `k` the results record. */
  function HitsIn(rs: seq<FileResult>, k: string): nat {
    if rs == [] then 0 else HitsIn(rs[..|rs| - 1], k) + Hits(rs[|rs| - 1].coincidencias, k)
  }

  /** Every result's total is the sum of its entries. */
  predicate Balanced(rs: seq<FileResult>) {
    rs == [] || (Balanced(rs[..|rs| - 1]) && rs[|rs| - 1].totalCoincidencias == Sum(rs[|rs| - 1].coincidencias))
  }

  /** What the walk over the first `n` entries keeps. */
  ghost predicate Books(w: Walk, es: seq<DirEntry>, n: nat, terms: seq<string>)
    requires n <= |es|
  {
    w.procesados + w.conProblemas + |w.ignorados| == FileCount(es, n) &&
    |w.resultados| == w.procesados + w.conProblemas &&
    w.conProblemas == ErrorCount(w.resultados) &&
    w.totalHallazgos == TotalOf(w.resultados) &&
    Balanced(w.resultados) &&
    BulletCount(w.hallazgos) == w.totalHallazgos &&
    BulletCount(w.problemas) == 0 &&
    (forall k :: Get(w.counts, k) == HitsIn(w.resultados, k)) &&
    (forall k :: k in w.counts <==> k in terms)
  }

  /** A key with hits is the text of an entry. */
  lemma {:induction false} HitsTexts(es: seq<Entry>, k: string)
    requires Hits(es, k) > 0
    ensures k in Texts(es)
  {
    if es[0].texto != k {
      HitsTexts(es[1..], k);
    }
  }

  lemma TallyBooks(w: Walk, es: seq<DirEntry>, n: nat, terms: seq<string>, p: Processed, c1: map<string, nat>,
                   f: Format)
    requires n < |es| && Books(w, es, n, terms) && es[n].isFile
    requires FileFacts(p, w.counts, c1, terms, es[n].name, f)
    ensures Books(Tally(w, p, c1), es, n + 1, terms)
  {
    var r := p.archivoResult;
    var w1 := Tally(w, p, c1);
    assert w1.resultados[..|w1.resultados| - 1] == w.resultados;
    BulletCountAppend(w.hallazgos, p.hallazgosTexto);
    BulletCountAppend(w.problemas, p.problemasTexto);
    forall k ensures k in c1 <==> k in terms {
      if Hits(r.coincidencias, k) > 0 {
        HitsTexts(r.coincidencias, k);
      }
    }
  }

  lemma VisitBooks(w: Walk, es: seq<DirEntry>, n: nat, terms: seq<string>, c: nat)
    requires n < |es| && Books(w, es, n, terms)
    ensures Books(Visit(w, es[n], terms, c), es, n + 1, terms)
  {
    var e := es[n];
    if e.isFile {
      match FormatOf(Lower(Extname(e.name)))
      case None =>
      case Some(f) =>
        ProcessFacts(e.name, e.decoded, f, terms, c, w.counts);
        var (p, c1) := Process(e.name, e.decoded, f, terms, c, w.counts);
        TallyBooks(w, es, n, terms, p, c1, f);
    }
  }

  lemma {:induction false} WalkBooks(es: seq<DirEntry>, n: nat, terms: seq<string>, c: nat)
    requires n <= |es|
    ensures Books(WalkAll(es, n, terms, c), es, n, terms)
  {
    if n > 0 {
      WalkBooks(es, n - 1, terms, c);
      VisitBooks(WalkAll(es, n - 1, terms, c), es, n - 1, terms, c);
    }
  }

  /** Each entry adds exactly one result, one ignored name, or nothing: a
      supported file adds its processor's result, named after it and typed by
      its extension; an unsupported one adds its name to the ignored list; an
      entry that is not a regular file adds nothing. */
  lemma VisitDispatch(w: Walk, e: DirEntry, terms: seq<string>, c: nat)
    ensures var w1 := Visit(w, e, terms, c); var f := FormatOf(Lower(Extname(e.name)));
      (!e.isFile ==> w1 == w) &&
      (e.isFile && f.None? ==> w1.ignorados == w.ignorados + [e.name] && w1.resultados == w.resultados) &&
      (e.isFile && f.Some? ==>
         w1.ignorados == w.ignorados && |w1.resultados| == |w.resultados| + 1 &&
         w1.resultados[..|w.resultados|] == w.resultados &&
         w1.resultados[|w.resultados|].archivo == e.name && w1.resultados[|w.resultados|].tipo == Tipo(f.value))
  {
    if e.isFile && FormatOf(Lower(Extname(e.name))).Some? {
      ProcessFacts(e.name, e.decoded, FormatOf(Lower(Extname(e.name))).value, terms, c, w.counts);
    }
  }

  lemma {:induction false} FileCountBound(es: seq<DirEntry>, n: nat)
    requires n <= |es|
    ensures FileCount(es, n) <= n
    ensures FileCount(es, n) == n <==> forall i :: 0 <= i < n ==> es[i].isFile
  {
    if n > 0 {
      FileCountBound(es, n - 1);
    }
  }

  // ---------------------------------------------------------------------------
  // The JSON result list

  /** A result goes into the JSON summary when it has hits, or when its file
      ended in an error or a warning (buscador-core.js:411). */
  predicate Shown(r: FileResult) {
    r.totalCoincidencias > 0 || r.estado == Error || r.estado == Advertencia
  }

  /** The JSON summary's filter over the per-file results (buscador-core.js:411): the results
      shown, in their order. */
  function Visible(rs: seq<FileResult>): (v: seq<FileResult>)
    ensures forall x :: x in v <==> x in rs && Shown(x)
    ensures |v| <= |rs|
  {
    if rs == [] then []
    else
      var init := Visible(rs[..|rs| - 1]);
      var last := rs[|rs| - 1];
      assert forall x :: x in rs <==> x in rs[..|rs| - 1] || x == last by {
        assert rs == rs[..|rs| - 1] + [last];
      }
      if Shown(last) then init + [last] else init
  }

  lemma {:induction false} HitsBelowSum(es: seq<Entry>, k: string)
    ensures Hits(es, k) <= Sum(es)
  {
    if es != [] {
      HitsBelowSum(es[1..], k);
    }
  }

  /** A result the filter hides found nothing, so the shown results still
      carry every hit. */
  lemma {:induction false} VisibleHits(rs: seq<FileResult>, k: string)
    requires Balanced(rs)
    ensures HitsIn(Visible(rs), k) == HitsIn(rs, k) && TotalOf(Visible(rs)) == TotalOf(rs)
    ensures ErrorCount(Visible(rs)) == ErrorCount(rs)
  {
    if rs != [] {
      var init := rs[..|rs| - 1];
      var last := rs[|rs| - 1];
      VisibleHits(init, k);
      var v := Visible(init);
      if Shown(last) {
        assert (v + [last])[..|v + [last]| - 1] == v;
      } else {
        HitsBelowSum(last.coincidencias, k);
      }
    }
  }

  // ---------------------------------------------------------------------------
  // The text report

  /** A rule of `n` equals signs, as `"=".repeat(n)` builds it (buscador-core.js:354). */
  function Rule(n: nat): string {
    if n == 0 then "" else "=" + Rule(n - 1)
  }

  /** The items separated by a comma and a space (buscador-core.js:356 and 358). */
  function Listing(xs: seq<string>): string {
    Join(xs, ", ")
  }

  // The fixed texts of the report, one constant each. Long ones are written
  // as two literals joined, so that the verifier sees their first characters
  // (which the snippet-line count needs).
  const Title: string := " INFORME DE BÚSQUEDA CONTEXTUAL "
  const DateLabel: string := "Fecha y Hora del Informe: "
  const TermsLabel: string := "Textos Buscados: ["
  const WidthLabel: string := "Cantidad de Caracteres de Contexto: "
  const WidthNote: string := " (anteriores y posteriores " + "al texto hallado)"
  const ExtensionsLabel: string := "Extensiones de Archivo Soportadas: "
  const FindingsTitle: string := "\n--- OCURRENCIAS HALLADAS ---"
  const ProblemsTitle: string := "\n\n--- ARCHIVOS PROCESADOS " + "CON PROBLEMAS O ADVERTENCIAS ---"
  const NoFindings: string := "No se encontraron ocurrencias " + "de los textos buscados en los archivos procesados."
  const NoProblems: string := "Todos los archivos soportados " + "fueron analizados sin errores ni advertencias significativas."
  const IgnoredHeader: string := "\n\n--- ARCHIVOS NO SOPORTADOS " + "E IGNORADOS ---"
  const IgnoredLabel: string := "Total de archivos ignorados: "
  const NoIgnored: string := "No se encontraron archivos " + "con formatos no soportados."
  const SummaryTitle: string := " RESUMEN FINAL "
  const UploadedLabel: string := "Total de archivos " + "en el directorio de subida: "
  const ProcessedLabel: string := "Total de archivos " + "procesados con éxito (incluye advertencias): "
  const IgnoredTotalLabel: string := "Total de archivos " + "ignorados por formato no válido: "
  const ProblemsLabel: string := "Total de archivos " + "con problemas o errores (no pudieron ser procesados): "
  const HitsLabel: string := "Total de coincidencias " + "encontradas: "
  const ContextLabel: string := "Contexto devuelto (caracteres): "
  const PerTermTitle: string := "\nTotal de hallazgos " + "por cada texto buscado:"

  /** The opening block (buscador-core.js:354-359). */
  function Heading(fecha: string, terms: seq<string>, c: nat): seq<string> {
    [Rule(30) + Title + Rule(30),
     DateLabel + fecha,
     TermsLabel + Listing(terms) + "]",
     WidthLabel + NatToString(c) + WidthNote,
     ExtensionsLabel + Listing(Supported),
     Rule(85)]
  }

  /** The findings and the problems (buscador-core.js:361-373). */
  function Findings(w: Walk): seq<string> {
    [FindingsTitle] + (if |w.hallazgos| > 0 then w.hallazgos else [NoFindings]) +
    [ProblemsTitle] +
    (if |w.problemas| > 0 then w.problemas else [NoProblems])
  }

  /** The heading of the ignored files (buscador-core.js:375-376). */
  function IgnoredTitle(w: Walk): seq<string> {
    [IgnoredHeader, IgnoredLabel + NatToString(|w.ignorados|) + "\n"]
  }

  /** `- name` for each name. */
  function Listed(names: seq<string>): (r: seq<string>)
    ensures |r| == |names|
  {
    seq(|names|, i requires 0 <= i < |names| => "- " + names[i])
  }

  /** The ignored files in sorted order (buscador-core.js:377-381). */
  function IgnoredList(w: Walk): seq<string> {
    if |w.ignorados| > 0 then Listed(SortStrings(w.ignorados)) else [NoIgnored]
  }

  /** The counters of the final summary (buscador-core.js:383-389). */
  function Totals(c: nat, total: nat, w: Walk): seq<string> {
    ["\n\n" + Rule(36) + SummaryTitle + Rule(36),
     UploadedLabel + NatToString(total),
     ProcessedLabel + NatToString(w.procesados),
     IgnoredTotalLabel + NatToString(|w.ignorados|),
     ProblemsLabel + NatToString(w.conProblemas),
     HitsLabel + NatToString(w.totalHallazgos),
     ContextLabel + NatToString(c),
     PerTermTitle]
  }

  /** The line with a search term in quotes and its hit count (buscador-core.js:392). */
  function TermLine(t: string, counts: map<string, nat>): string {
    "  - '" + t + "': " + NatToString(Get(counts, t))
  }

  function TermLines(terms: seq<string>, counts: map<string, nat>): (r: seq<string>)
    ensures |r| == |terms|
  {
    seq(|terms|, i requires 0 <= i < |terms| => TermLine(terms[i], counts))
  }

  /** The lines of the text report, before `output.join('\n')`. */
  function ReportLines(fecha: string, terms: seq<string>, c: nat, total: nat, w: Walk): seq<string> {
    Heading(fecha, terms, c) + Findings(w) + IgnoredTitle(w) + IgnoredList(w) + Totals(c, total, w) +
    TermLines(terms, w.counts) + [Rule(85)]
  }

  lemma ListedSnoc(xs: seq<string>, i: nat)
    requires i < |xs|
    ensures Listed(xs[..i + 1]) == Listed(xs[..i]) + ["- " + xs[i]]
  {
  }

  lemma TermLinesSnoc(xs: seq<string>, counts: map<string, nat>, i: nat)
    requires i < |xs|
    ensures TermLines(xs[..i + 1], counts) == TermLines(xs[..i], counts) + [TermLine(xs[i], counts)]
  {
  }

  method WriteReport(fecha: string, listaStrings: seq<string>, contextChars: nat, totalArchivosSubidos: nat, w: Walk)
    returns (output: seq<string>)
    ensures output == ReportLines(fecha, listaStrings, contextChars, totalArchivosSubidos, w)
  {
    output := Heading(fecha, listaStrings, contextChars);
    output := output + Findings(w);
    output := output + IgnoredTitle(w);
    if |w.ignorados| > 0 {
      var ordenados := SortStrings(w.ignorados);
      output := PushListed(output, ordenados);
    } else {
      output := output + [NoIgnored];
    }
    output := output + Totals(contextChars, totalArchivosSubidos, w);
    output := PushTermLines(output, listaStrings, w.counts);
    output := output + [Rule(85)];
  }

  /** One line `- name` for each ignored file, in the order given (buscador-core.js:378). */
  method PushListed(o: seq<string>, names: seq<string>) returns (output: seq<string>)
    ensures output == o + Listed(names)
  {
    output := o;
    var i := 0;
    while i < |names|
      invariant i <= |names|
      invariant output == o + Listed(names[..i])
    {
      ListedSnoc(names, i);
      Assoc(o, Listed(names[..i]), ["- " + names[i]]);
      output := output + ["- " + names[i]];
      i := i + 1;
    }
    assert names[..i] == names;
  }

  /** The line of each search term with its count (buscador-core.js:390-393). */
  method PushTermLines(o: seq<string>, listaStrings: seq<string>, counts: map<string, nat>)
    returns (output: seq<string>)
    ensures output == o + TermLines(listaStrings, counts)
  {
    output := o;
    var j := 0;
    while j < |listaStrings|
      invariant j <= |listaStrings|
      invariant output == o + TermLines(listaStrings[..j], counts)
    {
      TermLinesSnoc(listaStrings, counts, j);
      Assoc(o, TermLines(listaStrings[..j], counts), [TermLine(listaStrings[j], counts)]);
      output := output + [TermLine(listaStrings[j], counts)];
      j := j + 1;
    }
    assert listaStrings[..j] == listaStrings;
  }

  // Snippet lines in the report

  /** A line whose `i`-th character differs from the snippet prefix's. */
  lemma Differs(line: string, i: nat)
    requires i < |line| && i < |Bullet| && line[i] != Bullet[i]
    ensures !StartsWith(line, Bullet)
  {
    if |Bullet| <= |line| {
      assert line[..|Bullet|][i] == line[i];
    }
  }

  lemma {:induction false} NoBullets(lines: seq<string>)
    requires forall i :: 0 <= i < |lines| ==> !StartsWith(lines[i], Bullet)
    ensures BulletCount(lines) == 0
  {
    if lines != [] {
      NoBullets(lines[1..]);
    }
  }

  lemma HeadingPlain(fecha: string, terms: seq<string>, c: nat)
    ensures BulletCount(Heading(fecha, terms, c)) == 0
  {
    var h := Heading(fecha, terms, c);
    forall i | 0 <= i < |h| ensures !StartsWith(h[i], Bullet) {
      assert h[i][0] != ' ';
      Differs(h[i], 0);
    }
    NoBullets(h);
  }

  lemma FindingsCount(w: Walk)
    ensures BulletCount(Findings(w)) == BulletCount(w.hallazgos) + BulletCount(w.problemas)
  {
    var a := [FindingsTitle];
    var x := if |w.hallazgos| > 0 then w.hallazgos else [NoFindings];
    var b := [ProblemsTitle];
    var y := if |w.problemas| > 0 then w.problemas else [NoProblems];
    Differs(a[0], 0);
    Differs(b[0], 0);
    Differs(NoFindings, 0);
    Differs(NoProblems, 0);
    NoBullets(a);
    NoBullets(b);
    NoBullets([NoFindings]);
    NoBullets([NoProblems]);
    BulletCountAppend(a, x);
    BulletCountAppend(a + x, b);
    BulletCountAppend(a + x + b, y);
  }

  lemma IgnoredPlain(w: Walk)
    ensures BulletCount(IgnoredTitle(w)) == 0 && BulletCount(IgnoredList(w)) == 0
  {
    var t := IgnoredTitle(w);
    forall i | 0 <= i < |t| ensures !StartsWith(t[i], Bullet) {
      Differs(t[i], 0);
    }
    NoBullets(t);
    var l := IgnoredList(w);
    forall i | 0 <= i < |l| ensures !StartsWith(l[i], Bullet) {
      Differs(l[i], 0);
    }
    NoBullets(l);
  }

  lemma TotalsPlain(c: nat, total: nat, w: Walk, terms: seq<string>)
    ensures BulletCount(Totals(c, total, w)) == 0 && BulletCount(TermLines(terms, w.counts)) == 0
    ensures BulletCount([Rule(85)]) == 0
  {
    var t := Totals(c, total, w);
    forall i | 0 <= i < |t| ensures !StartsWith(t[i], Bullet) {
      Differs(t[i], 0);
    }
    NoBullets(t);
    var l := TermLines(terms, w.counts);
    forall i | 0 <= i < |l| ensures !StartsWith(l[i], Bullet) {
      Differs(l[i], 2);
    }
    NoBullets(l);
    Differs(Rule(85), 0);
    NoBullets([Rule(85)]);
  }

  /** The report holds exactly one snippet line per hit counted in its
      summary: the snippet lines are the processors' ones, and no other line
      starts as they do. */
  lemma ReportHits(fecha: string, terms: seq<string>, c: nat, es: seq<DirEntry>)
    ensures var w := WalkAll(es, |es|, terms, c);
      BulletCount(ReportLines(fecha, terms, c, |es|, w)) == w.totalHallazgos
  {
    WalkBooks(es, |es|, terms, c);
    ReportBullets(fecha, terms, c, |es|, WalkAll(es, |es|, terms, c));
  }

  /** A walk whose snippet lines are all in its findings, one per hit, gives
      a report with one snippet line per hit. */
  lemma ReportBullets(fecha: string, terms: seq<string>, c: nat, total: nat, w: Walk)
    requires BulletCount(w.hallazgos) == w.totalHallazgos && BulletCount(w.problemas) == 0
    ensures BulletCount(ReportLines(fecha, terms, c, total, w)) == w.totalHallazgos
  {
    ReportLinesCount(fecha, terms, c, total, w);
  }

  /** The report's snippet lines are those of the findings and the problems. */
  lemma ReportLinesCount(fecha: string, terms: seq<string>, c: nat, total: nat, w: Walk)
    ensures BulletCount(ReportLines(fecha, terms, c, total, w)) == BulletCount(w.hallazgos) + BulletCount(w.problemas)
  {
    var h := Heading(fecha, terms, c);
    var f := Findings(w);
    var t := IgnoredTitle(w);
    var l := IgnoredList(w);
    var s := Totals(c, total, w);
    var m := TermLines(terms, w.counts);
    HeadingPlain(fecha, terms, c);
    FindingsCount(w);
    IgnoredPlain(w);
    TotalsPlain(c, total, w, terms);
    BulletCountAppend(h, f);
    BulletCountAppend(h + f, t);
    BulletCountAppend(h + f + t, l);
    BulletCountAppend(h + f + t + l, s);
    BulletCountAppend(h + f + t + l + s, m);
    BulletCountAppend(h + f + t + l + s + m, [Rule(85)]);
  }

  // ---------------------------------------------------------------------------
  // generarInforme

  /** The `resumen` of the JSON response. */
  datatype Summary = Summary(totalArchivos: nat, procesados: nat, ignorados: nat, conProblemas: nat,
                             totalCoincidencias: nat, coincidenciasPorPalabra: map<string, nat>,
                             caracteresContexto: nat, extensionesSoportadas: seq<string>,
                             textosBuscados: seq<string>)

  /** The text report, the summary and the shown results. */
  datatype Informe = Informe(reporteTexto: string, resumen: Summary, resultados: seq<FileResult>)

  const ListingError: string :=
    "No se pudo acceder al directorio de archivos subidos. Verifique permisos o si la ruta es correcta. "

  /** `generarInforme` over the directory listing (or the message of the
      error that reading it raised), with `fecha` the report's timestamp. */
  function GenerateReport(listado: Result<seq<DirEntry>>, terms: seq<string>, c: nat, fecha: string): Result<Informe> {
    match listado
    case Failure(msg) => Failure(ListingError + msg)
    case Success(es) => Success(Assemble(fecha, terms, c, |es|, WalkAll(es, |es|, terms, c)))
  }

  function Assemble(fecha: string, terms: seq<string>, c: nat, total: nat, w: Walk): Informe {
    Informe(Join(ReportLines(fecha, terms, c, total, w), "\n"),
            Summary(total, w.procesados, |w.ignorados|, w.conProblemas, w.totalHallazgos, w.counts,
                    c, Supported, terms),
            Visible(w.resultados))
  }

  method GenerarInforme(listado: Result<seq<DirEntry>>, listaStrings: seq<string>, contextChars: nat,
                        fecha: string)
    returns (r: Result<Informe>)
    requires ValidTerms(listaStrings)
    ensures r == GenerateReport(listado, listaStrings, contextChars, fecha)
  {
    var hallazgosPorString := ZeroCounts(listaStrings);
    match listado
    case Failure(msg) =>
      r := Failure(ListingError + msg);
    case Success(archivosEnDirectorio) =>
      var w := WalkDirectory(archivosEnDirectorio, listaStrings, contextChars, hallazgosPorString);
      var informe := Finish(fecha, listaStrings, contextChars, |archivosEnDirectorio|, w);
      r := Success(informe);
  }

  method Finish(fecha: string, listaStrings: seq<string>, contextChars: nat, totalArchivosSubidos: nat, w: Walk)
    returns (informe: Informe)
    ensures informe == Assemble(fecha, listaStrings, contextChars, totalArchivosSubidos, w)
  {
    var output := WriteReport(fecha, listaStrings, contextChars, totalArchivosSubidos, w);
    var resultados := FilterResults(w.resultados);
    informe := Informe(Join(output, "\n"),
                       Summary(totalArchivosSubidos, w.procesados, |w.ignorados|, w.conProblemas,
                               w.totalHallazgos, w.counts, contextChars, Supported, listaStrings),
                       resultados);
  }

  /** The dictionary of hits per term starts with every search term at zero
      (buscador-core.js:290). */
  method ZeroCounts(listaStrings: seq<string>) returns (hallazgosPorString: map<string, nat>)
    ensures hallazgosPorString == InitialCounts(listaStrings)
  {
    hallazgosPorString := map[];
    var i := 0;
    while i < |listaStrings|
      invariant i <= |listaStrings|
      invariant hallazgosPorString == InitialCounts(listaStrings[..i])
    {
      assert listaStrings[..i + 1] == listaStrings[..i] + [listaStrings[i]];
      hallazgosPorString := hallazgosPorString[listaStrings[i] := 0];
      i := i + 1;
    }
    assert listaStrings[..i] == listaStrings;
  }

  /** The loop over the directory (buscador-core.js:304-350). */
  method WalkDirectory(archivosEnDirectorio: seq<DirEntry>, listaStrings: seq<string>, contextChars: nat,
                       hallazgosPorString: map<string, nat>)
    returns (w: Walk)
    requires ValidTerms(listaStrings) && hallazgosPorString == InitialCounts(listaStrings)
    ensures w == WalkAll(archivosEnDirectorio, |archivosEnDirectorio|, listaStrings, contextChars)
  {
    w := Walk([], [], [], [], 0, 0, 0, hallazgosPorString);
    var n := 0;
    while n < |archivosEnDirectorio|
      invariant n <= |archivosEnDirectorio|
      invariant w == WalkAll(archivosEnDirectorio, n, listaStrings, contextChars)
    {
      w := VisitEntry(w, archivosEnDirectorio[n], listaStrings, contextChars);
      n := n + 1;
    }
  }

  /** The body of the loop over the directory (buscador-core.js:305-349). */
  method VisitEntry(w: Walk, e: DirEntry, listaStrings: seq<string>, contextChars: nat) returns (w1: Walk)
    requires ValidTerms(listaStrings)
    ensures w1 == Visit(w, e, listaStrings, contextChars)
  {
    w1 := w;
    if e.isFile {
      var extension := Lower(Extname(e.name));
      match FormatOf(extension)
      case None =>
        w1 := w1.(ignorados := w1.ignorados + [e.name]);
      case Some(formato) =>
        var res, counts := Dispatch(e.name, e.decoded, formato, listaStrings, contextChars, w.counts);
        w1 := w1.(hallazgos := w1.hallazgos + res.hallazgosTexto, problemas := w1.problemas + res.problemasTexto,
                  resultados := w1.resultados + [res.archivoResult], counts := counts);
        if res.archivoResult.estado == Exito || res.archivoResult.estado == Advertencia {
          w1 := w1.(procesados := w1.procesados + 1,
                    totalHallazgos := w1.totalHallazgos + res.archivoResult.totalCoincidencias);
        } else {
          w1 := w1.(conProblemas := w1.conProblemas + 1);
        }
        assert w1 == Tally(w, res, counts);
    }
  }

  /** The call to the processor of the file's format (buscador-core.js:314-322). */
  method Dispatch(name: string, d: Decoded, formato: Format, listaStrings: seq<string>, contextChars: nat,
                  hallazgosPorString: map<string, nat>)
    returns (res: Processed, counts: map<string, nat>)
    requires ValidTerms(listaStrings)
    ensures (res, counts) == Process(name, d, formato, listaStrings, contextChars, hallazgosPorString)
  {
    match formato
    case PdfFormat =>
      res, counts := ProcesarPdf(name, d.pdf, listaStrings, contextChars, hallazgosPorString);
    case DocxFormat =>
      res, counts := ProcesarDocx(name, d.docx, listaStrings, contextChars, hallazgosPorString);
    case ExcelFormat =>
      res, counts := ProcesarExcel(name, d.excel, listaStrings, contextChars, hallazgosPorString);
    case TxtFormat =>
      res, counts := ProcesarTxt(name, d.txt, listaStrings, contextChars, hallazgosPorString);
  }

  method FilterResults(rs: seq<FileResult>) returns (v: seq<FileResult>)
    ensures v == Visible(rs)
  {
    v := [];
    var i := 0;
    while i < |rs|
      invariant i <= |rs|
      invariant v == Visible(rs[..i])
    {
      assert rs[..i + 1][..i] == rs[..i];
      if Shown(rs[i]) {
        v := v + [rs[i]];
      }
      i := i + 1;
    }
    assert rs[..i] == rs;
  }

  // ---------------------------------------------------------------------------
  // What the report promises

  /** The counters of the walk: each regular file is counted once, as
      processed, as a problem or as ignored, so the three add up to at most
      the number of entries, exactly when every entry is a regular file; the
      total of hits and each search term's count are what the shown results
      record; every file with problems is among the shown results; and the
      dictionary holds exactly the search terms. */
  lemma WalkCounters(es: seq<DirEntry>, terms: seq<string>, c: nat)
    ensures var w := WalkAll(es, |es|, terms, c); var rs := Visible(w.resultados);
      w.procesados + w.conProblemas + |w.ignorados| <= |es| &&
      (w.procesados + w.conProblemas + |w.ignorados| == |es| <==> forall i :: 0 <= i < |es| ==> es[i].isFile) &&
      w.totalHallazgos == TotalOf(rs) && w.conProblemas == ErrorCount(rs) &&
      (forall k :: Get(w.counts, k) == HitsIn(rs, k)) &&
      (forall k :: k in w.counts <==> k in terms)
  {
    var w := WalkAll(es, |es|, terms, c);
    WalkBooks(es, |es|, terms, c);
    FileCountBound(es, |es|);
    forall k ensures HitsIn(Visible(w.resultados), k) == HitsIn(w.resultados, k) {
      VisibleHits(w.resultados, k);
    }
    VisibleHits(w.resultados, "");
  }

  /** The summary of `generarInforme` keeps those counters; an unreadable
      directory gives its error message and no report. */
  lemma InformeCounters(listado: Result<seq<DirEntry>>, terms: seq<string>, c: nat, fecha: string)
    ensures var r := GenerateReport(listado, terms, c, fecha);
      (r.Success? <==> listado.Success?) &&
      (listado.Failure? ==> r.error == ListingError + listado.error) &&
      (r.Success? ==>
         var s := r.value.resumen; var rs := r.value.resultados;
         s.procesados + s.conProblemas + s.ignorados <= s.totalArchivos &&
         (s.procesados + s.conProblemas + s.ignorados == s.totalArchivos <==>
            forall i :: 0 <= i < |listado.value| ==> listado.value[i].isFile) &&
         s.totalCoincidencias == TotalOf(rs) && s.conProblemas == ErrorCount(rs) &&
         (forall k :: Get(s.coincidenciasPorPalabra, k) == HitsIn(rs, k)) &&
         (forall k :: k in s.coincidenciasPorPalabra <==> k in terms))
  {
    if listado.Success? {
      var es := listado.value;
      var w := WalkAll(es, |es|, terms, c);
      WalkCounters(es, terms, c);
      AssembleParts(fecha, terms, c, |es|, w);
    }
  }

  /** The summary and the results of a report are the walk's counters and
      its shown results. */
  lemma AssembleParts(fecha: string, terms: seq<string>, c: nat, total: nat, w: Walk)
    ensures var inf := Assemble(fecha, terms, c, total, w);
      inf.resumen == Summary(total, w.procesados, |w.ignorados|, w.conProblemas, w.totalHallazgos, w.counts,
                             c, Supported, terms) &&
      inf.resultados == Visible(w.resultados)
  {
  }
}
