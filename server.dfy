/** The request normalisation of the `/buscar` route: the search strings of
    the form are split on `;`, trimmed and purged of empty pieces, the
    context width is defaulted and clamped, and requests with no file or no
    search text are turned away before any search runs. */
module Server {
  import opened Wrappers
  import opened Text
  import opened Results
  import opened Processors
  import opened Aggregator

  // ---------------------------------------------------------------------------
  // The search strings

  /** Every piece trimmed, in order (server.js:79). */
  function TrimAll(ps: seq<string>): (r: seq<string>)
    ensures |r| == |ps|
    ensures forall i :: 0 <= i < |ps| ==> r[i] == Trim(ps[i])
  {
    seq(|ps|, i requires 0 <= i < |ps| => Trim(ps[i]))
  }

  /** `.filter(s => s)`: the non-empty strings, in order. */
  function DropEmpty(ps: seq<string>): (r: seq<string>)
    ensures forall i :: 0 <= i < |r| ==> r[i] != []
    ensures forall x :: x in r <==> x in ps && x != []
    ensures |r| <= |ps|
  {
    if ps == [] then []
    else
      var rest := DropEmpty(ps[1..]);
      assert forall x :: x in ps <==> x == ps[0] || x in ps[1..] by {
        assert ps == [ps[0]] + ps[1..];
      }
      if ps[0] == [] then rest else [ps[0]] + rest
  }

  /** The search terms: the raw text cut at each `;`, every piece trimmed and
      the empty pieces dropped (server.js:79). */
  function ParseTerms(raw: string): seq<string> {
    DropEmpty(TrimAll(Split(raw, ';')))
  }

  /** Every parsed term is non-empty, is its own trim and holds no `;`, so
      the list meets what the search engine asks of its terms. */
  lemma {:induction false} ParsedTermsClean(raw: string)
    ensures var ts := ParseTerms(raw);
      ValidTerms(ts) &&
      forall i :: 0 <= i < |ts| ==> ts[i] != [] && Trim(ts[i]) == ts[i] && ';' !in ts[i]
  {
    var ps := Split(raw, ';');
    var us := TrimAll(ps);
    forall j | 0 <= j < |us| ensures Trim(us[j]) == us[j] && ';' !in us[j] {
      TrimmedPiece(ps[j], ';');
    }
    var ts := DropEmpty(us);
    forall i | 0 <= i < |ts| ensures Trim(ts[i]) == ts[i] && ';' !in ts[i] {
      assert ts[i] in us;
    }
  }

  /** Trimming a piece with no separator gives a trimmed piece with none. */
  lemma TrimmedPiece(p: string, d: char)
    requires d !in p
    ensures Trim(Trim(p)) == Trim(p) && d !in Trim(p)
  {
    TrimIdempotent(p);
    TrimFacts(p);
    var a := LeadingSpaces(p);
    assert forall k :: 0 <= k < |Trim(p)| ==> Trim(p)[k] == p[a + k];
  }

  /** The parse reads back the terms of a `;`-joined list of clean terms: the
      pieces between the separators, in order, trimmed, empties dropped. */
  lemma {:induction false} ParseJoined(ts: seq<string>)
    requires forall i :: 0 <= i < |ts| ==> ts[i] != [] && Trim(ts[i]) == ts[i] && ';' !in ts[i]
    ensures ParseTerms(Join(ts, ";")) == ts
  {
    if ts == [] {
      assert Split("", ';') == [""];
      assert Trim("") == "";
      assert TrimAll([""]) == [""];
      assert DropEmpty([""]) == [];
    } else {
      var s := Split(Join(ts, [';']), ';');
      JoinSplit(ts, ';');
      assert s == ts;
      var u := TrimAll(s);
      assert u == ts by {
        forall i | 0 <= i < |ts| ensures u[i] == ts[i] { }
      }
      KeepAll(ts);
    }
  }

  /** Dropping the empty strings of a list that has none changes nothing. */
  lemma {:induction false} KeepAll(ts: seq<string>)
    requires forall i :: 0 <= i < |ts| ==> ts[i] != []
    ensures DropEmpty(ts) == ts
  {
    if ts != [] {
      KeepAll(ts[1..]);
      assert ts == [ts[0]] + ts[1..];
    }
  }

  /** A blank input has no terms to offer. */
  lemma {:induction false} BlankParsesEmpty(raw: string)
    requires IsBlank(raw)
    ensures ParseTerms(raw) == []
  {
    var ps := Split(raw, ';');
    var us := TrimAll(ps);
    forall j | 0 <= j < |ps| ensures us[j] == [] {
      SplitPieces(raw, ';', j);
      assert IsBlank(ps[j]) by {
        forall k | 0 <= k < |ps[j]| ensures IsSpace(ps[j][k]) {
          assert ps[j][k] in raw;
        }
      }
      TrimFacts(ps[j]);
    }
    DropAllEmpty(us);
  }

  /** Dropping the empty strings of a list of empty strings leaves none. */
  lemma {:induction false} DropAllEmpty(ps: seq<string>)
    requires forall i :: 0 <= i < |ps| ==> ps[i] == []
    ensures DropEmpty(ps) == []
  {
    if ps != [] {
      DropAllEmpty(ps[1..]);
    }
  }

  /** Every character of a piece of a split is a character of the string. */
  lemma {:induction false} SplitPieces(s: string, d: char, j: nat)
    requires j < |Split(s, d)|
    ensures forall c :: c in Split(s, d)[j] ==> c in s
  {
    if s != [] {
      var rest := Split(s[1..], d);
      if s[0] == d {
        if j > 0 {
          SplitPieces(s[1..], d, j - 1);
        }
      } else {
        if j > 0 {
          SplitPieces(s[1..], d, j);
        } else {
          SplitPieces(s[1..], d, 0);
        }
      }
    }
  }

  // ---------------------------------------------------------------------------
  // The context width

  /** The width the search uses, from `parseInt(req.body.context_chars, 10)`
      (`None` for `NaN`): a parsed width in [0, 1000] is kept, anything else
      becomes 240 (server.js:61-67). */
  function ContextWidth(parsed: Option<int>): (w: nat)
    ensures w <= 1000
    ensures parsed.Some? && 0 <= parsed.value <= 1000 ==> w == parsed.value
    ensures !(parsed.Some? && 0 <= parsed.value <= 1000) ==> w == 240
  {
    if parsed.None? || parsed.value < 0 || parsed.value > 1000 then 240 else parsed.value
  }

  // ---------------------------------------------------------------------------
  // The route

  const NoFiles: string := "No se seleccionó ningún archivo."
  const NoTerms: string := "Debes introducir al menos un texto para buscar."
  const SearchFailed: string := "Ocurrió un error al procesar los archivos."

  /** What `/buscar` answers: the rendered report, or a redirection to the
      form with a message. */
  datatype Response = Rendered(informe: Informe) | Redirected(message: string)

  /** `/buscar` with `files` uploaded files, the raw search strings (`None`
      when the field is missing), the parsed width, and what the upload
      directory lists (server.js:59-90). */
  function Buscar(files: nat, raw: Option<string>, width: Option<int>, listado: Result<seq<DirEntry>>,
                  fecha: string): Response
  {
    if files == 0 then Redirected(NoFiles)
    else if raw.None? || IsBlank(raw.value) then Redirected(NoTerms)
    else
      match GenerateReport(listado, ParseTerms(raw.value), ContextWidth(width), fecha)
      case Success(informe) => Rendered(informe)
      case Failure(_) => Redirected(SearchFailed)
  }

  /** The route renders a report exactly when files were sent, some search
      text was typed and the directory could be read; the report searches
      the parsed terms with the normalised width; each other case redirects
      with its own message. */
  lemma BuscarOutcome(files: nat, raw: Option<string>, width: Option<int>, listado: Result<seq<DirEntry>>,
                      fecha: string)
    ensures var r := Buscar(files, raw, width, listado, fecha);
      (r.Rendered? <==> files > 0 && raw.Some? && !IsBlank(raw.value) && listado.Success?) &&
      (files == 0 ==> r == Redirected(NoFiles)) &&
      (files > 0 && (raw.None? || IsBlank(raw.value)) ==> r == Redirected(NoTerms)) &&
      (files > 0 && raw.Some? && !IsBlank(raw.value) && listado.Failure? ==> r == Redirected(SearchFailed)) &&
      (r.Rendered? ==>
         r.informe.resumen.textosBuscados == ParseTerms(raw.value) &&
         r.informe.resumen.caracteresContexto == ContextWidth(width) <= 1000)
  {
    if files > 0 && raw.Some? && !IsBlank(raw.value) && listado.Success? {
      var es := listado.value;
      AssembleParts(fecha, ParseTerms(raw.value), ContextWidth(width), |es|,
                    WalkAll(es, |es|, ParseTerms(raw.value), ContextWidth(width)));
    }
  }

  /** The guards answer before the search: with no file or no search text
      the answer does not depend on the uploaded files at all. */
  lemma GuardsSkipSearch(files: nat, raw: Option<string>, width: Option<int>,
                         l1: Result<seq<DirEntry>>, l2: Result<seq<DirEntry>>, f1: string, f2: string)
    requires files == 0 || raw.None? || IsBlank(raw.value)
    ensures Buscar(files, raw, width, l1, f1) == Buscar(files, raw, width, l2, f2)
  {
  }
}
