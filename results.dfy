/** What a file processor produces: the per-file result object with its list
    of per-term entries, the report lines it emits, and the shared per-term
    counter dictionary it adds to; with the bookkeeping facts every processor
    keeps. */
module Results {
  import opened Wrappers
  import opened Text

  // ---------------------------------------------------------------------------
  // Data

  /** `estado` of a per-file result. */
  datatype Status = Exito | Advertencia | Error

  /** One element of `coincidencias`: a search term, how many times it was
      found in the file, and the fragments that show each occurrence. */
  datatype Entry = Entry(texto: string, cantidad: nat, fragmentos: seq<string>)

  /** The per-file `archivoResult` object. */
  datatype FileResult = FileResult(
    archivo: string,
    tipo: string,
    totalCoincidencias: nat,
    coincidencias: seq<Entry>,
    estado: Status,
    errorDetalle: Option<string>)

  /** What a processor returns: its report lines (`hallazgosTexto`), its
      problem lines (`problemasTexto`) and its per-file result. */
  datatype Processed = Processed(hallazgosTexto: seq<string>, problemasTexto: seq<string>, archivoResult: FileResult)

  /** The state a processor builds while it scans: report lines, entries, the
      running `totalCoincidencias` and the shared dictionary
      `hallazgosPorString`. */
  datatype Acc = Acc(hallazgos: seq<string>, entries: seq<Entry>, total: nat, counts: map<string, nat>)

  // ---------------------------------------------------------------------------
  // The counter dictionary

  /** The count of a term, or 0 when the dictionary has no entry for it
      (buscador-core.js:124 and 392). */
  function Get(m: map<string, nat>, k: string): nat {
    if k in m then m[k] else 0
  }

  /** Raise the count of `k` by `n`, starting from 0 when it has no entry
      (buscador-core.js:124, 161, 210 and 258). */
  function Add(m: map<string, nat>, k: string, n: nat): (r: map<string, nat>)
    ensures Get(r, k) == Get(m, k) + n
    ensures forall j :: j != k ==> Get(r, j) == Get(m, j)
    ensures r.Keys == m.Keys + {k}
  {
    m[k := Get(m, k) + n]
  }

  // ---------------------------------------------------------------------------
  // Report lines

  const Bullet: string := "  └─ "

  /** Each line with the prefix `p` in front. */
  function Prefixed(p: string, xs: seq<string>): (r: seq<string>)
    ensures |r| == |xs|
  {
    if xs == [] then [] else [p + xs[0]] + Prefixed(p, xs[1..])
  }

  /** `snippets.map(s => `  └─ ${s}`)`: one report line per snippet. */
  function Bullets(sn: seq<string>): seq<string> {
    Prefixed(Bullet, sn)
  }

  /** The number of snippet lines among report lines. */
  function BulletCount(lines: seq<string>): nat {
    if lines == [] then 0
    else (if StartsWith(lines[0], Bullet) then 1 else 0) + BulletCount(lines[1..])
  }

  lemma {:induction false} BulletCountAppend(a: seq<string>, b: seq<string>)
    ensures BulletCount(a + b) == BulletCount(a) + BulletCount(b)
  {
    if a == [] {
      assert a + b == b;
    } else {
      assert (a + b)[1..] == a[1..] + b;
      BulletCountAppend(a[1..], b);
    }
  }

  /** Every bullet line is counted once. */
  lemma {:induction false} BulletsCounted(sn: seq<string>)
    ensures BulletCount(Bullets(sn)) == |sn|
  {
    if sn != [] {
      var r := Bullets(sn);
      assert (Bullet + sn[0])[..|Bullet|] == Bullet;
      assert r[1..] == Bullets(sn[1..]);
      BulletsCounted(sn[1..]);
    }
  }

  /** The block a processor emits for one search hit: a header line, one
      bullet line per snippet and a blank separator. It holds exactly one
      counted line per snippet when the header is not itself a bullet. */
  lemma BlockCount(header: string, sn: seq<string>)
    requires !StartsWith(header, Bullet)
    ensures BulletCount([header] + Bullets(sn) + [""]) == |sn|
  {
    BulletCountAppend([header], Bullets(sn));
    BulletCountAppend([header] + Bullets(sn), [""]);
    BulletsCounted(sn);
  }

  /** A line that begins with a line feed (every header line does) is not a
      bullet line. */
  lemma HeaderNotBullet(h: string)
    requires h != [] && h[0] == '\n'
    ensures !StartsWith(h, Bullet)
  {
  }

  // ---------------------------------------------------------------------------
  // Entries

  /** `totalCoincidencias` as the sum of `cantidad` over the entries. */
  function Sum(es: seq<Entry>): nat {
    if es == [] then 0 else es[0].cantidad + Sum(es[1..])
  }

  /** How many hits of `k` the entries record. */
  function Hits(es: seq<Entry>, k: string): nat {
    if es == [] then 0 else (if es[0].texto == k then es[0].cantidad else 0) + Hits(es[1..], k)
  }

  /** The fragments the entries record for `k`, in order. */
  function FragsOf(es: seq<Entry>, k: string): seq<string> {
    if es == [] then [] else (if es[0].texto == k then es[0].fragmentos else []) + FragsOf(es[1..], k)
  }

  /** Every entry's `cantidad` is its number of fragments, and it is positive. */
  predicate WellFormed(es: seq<Entry>) {
    forall i :: 0 <= i < |es| ==> es[i].cantidad == |es[i].fragmentos| && es[i].cantidad > 0
  }

  /** The terms of the entries, in order. */
  function Texts(es: seq<Entry>): (r: seq<string>)
    ensures |r| == |es|
  {
    if es == [] then [] else [es[0].texto] + Texts(es[1..])
  }

  /** No search term has two entries. */
  predicate DistinctTexts(es: seq<Entry>) {
    var ts := Texts(es);
    forall i, j :: 0 <= i < j < |ts| ==> ts[i] != ts[j]
  }

  /** Every entry is about one of the search terms. */
  predicate TextsIn(es: seq<Entry>, terms: seq<string>) {
    forall x :: x in Texts(es) ==> x in terms
  }

  /** `coincidencias.find(c => c.texto === t)`, creating the entry when there
      is none, then adding `f` to its count and its fragments. */
  function Upsert(es: seq<Entry>, t: string, f: seq<string>): (r: seq<Entry>)
    ensures |r| == |es| || |r| == |es| + 1
  {
    if es == [] then [Entry(t, |f|, f)]
    else if es[0].texto == t then
      [Entry(t, es[0].cantidad + |f|, es[0].fragmentos + f)] + es[1..]
    else [es[0]] + Upsert(es[1..], t, f)
  }

  lemma {:induction false} SumAppend(a: seq<Entry>, b: seq<Entry>)
    ensures Sum(a + b) == Sum(a) + Sum(b)
  {
    if a == [] {
      assert a + b == b;
    } else {
      assert (a + b)[1..] == a[1..] + b;
      SumAppend(a[1..], b);
    }
  }

  lemma {:induction false} HitsAppend(a: seq<Entry>, b: seq<Entry>, k: string)
    ensures Hits(a + b, k) == Hits(a, k) + Hits(b, k)
  {
    if a == [] {
      assert a + b == b;
    } else {
      assert (a + b)[1..] == a[1..] + b;
      HitsAppend(a[1..], b, k);
    }
  }

  lemma {:induction false} FragsOfAppend(a: seq<Entry>, b: seq<Entry>, k: string)
    ensures FragsOf(a + b, k) == FragsOf(a, k) + FragsOf(b, k)
  {
    if a == [] {
      assert a + b == b;
    } else {
      assert (a + b)[1..] == a[1..] + b;
      FragsOfAppend(a[1..], b, k);
    }
  }

  /** Upserting `f` under `t` adds `|f|` to the total and to the hits of `t`
      and nothing to any other term. */
  lemma {:induction false} UpsertCounts(es: seq<Entry>, t: string, f: seq<string>)
    ensures Sum(Upsert(es, t, f)) == Sum(es) + |f|
    ensures Hits(Upsert(es, t, f), t) == Hits(es, t) + |f|
    ensures forall k :: k != t ==> Hits(Upsert(es, t, f), k) == Hits(es, k)
  {
    if es != [] && es[0].texto != t {
      UpsertCounts(es[1..], t, f);
      assert Upsert(es, t, f)[1..] == Upsert(es[1..], t, f);
    } else if es != [] {
      assert Upsert(es, t, f)[1..] == es[1..];
    }
  }

  /** Upserting changes the list of terms only by appending `t` when it has
      no entry yet. */
  lemma {:induction false} UpsertTexts(es: seq<Entry>, t: string, f: seq<string>)
    ensures Texts(Upsert(es, t, f)) == if t in Texts(es) then Texts(es) else Texts(es) + [t]
  {
    if es == [] {
    } else if es[0].texto == t {
      assert Upsert(es, t, f)[1..] == es[1..];
    } else {
      UpsertTexts(es[1..], t, f);
      assert Upsert(es, t, f)[1..] == Upsert(es[1..], t, f);
      assert Texts(es) == [es[0].texto] + Texts(es[1..]);
    }
  }

  /** Upserting a non-empty list of fragments keeps every entry's count equal
      to its number of fragments. */
  lemma {:induction false} UpsertWellFormed(es: seq<Entry>, t: string, f: seq<string>)
    requires WellFormed(es) && f != []
    ensures WellFormed(Upsert(es, t, f))
  {
    if es != [] && es[0].texto != t {
      UpsertWellFormed(es[1..], t, f);
      assert Upsert(es, t, f)[1..] == Upsert(es[1..], t, f);
    } else if es != [] {
      assert Upsert(es, t, f)[1..] == es[1..];
    }
  }

  /** Upserting keeps one entry per term. */
  lemma UpsertDistinct(es: seq<Entry>, t: string, f: seq<string>)
    requires DistinctTexts(es)
    ensures DistinctTexts(Upsert(es, t, f))
  {
    UpsertTexts(es, t, f);
  }

  /** Upserting keeps the entries well formed, one per term, and about the
      search terms. */
  lemma UpsertShape(es: seq<Entry>, t: string, f: seq<string>, terms: seq<string>)
    requires WellFormed(es) && DistinctTexts(es) && TextsIn(es, terms)
    requires t in terms && f != []
    ensures WellFormed(Upsert(es, t, f)) && DistinctTexts(Upsert(es, t, f)) && TextsIn(Upsert(es, t, f), terms)
  {
    UpsertTexts(es, t, f);
    UpsertWellFormed(es, t, f);
  }

  /** When no term has two entries, upserting `f` under `t` appends `f` to the
      fragments of `t` and leaves the others alone. */
  lemma UpsertFrags(es: seq<Entry>, t: string, f: seq<string>, k: string)
    requires DistinctTexts(es)
    ensures FragsOf(Upsert(es, t, f), k) == FragsOf(es, k) + (if k == t then f else [])
  {
    if k == t {
      UpsertFragsSame(es, t, f);
    } else {
      UpsertFragsOther(es, t, f, k);
      assert FragsOf(es, k) + [] == FragsOf(es, k);
    }
  }

  lemma {:induction false} UpsertFragsSame(es: seq<Entry>, t: string, f: seq<string>)
    requires DistinctTexts(es)
    ensures FragsOf(Upsert(es, t, f), t) == FragsOf(es, t) + f
  {
    if es == [] {
    } else if es[0].texto == t {
      assert Upsert(es, t, f)[1..] == es[1..];
      DistinctTail(es);
      FragsAbsent(es[1..], t);
    } else {
      assert Upsert(es, t, f)[1..] == Upsert(es[1..], t, f);
      DistinctTail(es);
      UpsertFragsSame(es[1..], t, f);
    }
  }

  lemma {:induction false} UpsertFragsOther(es: seq<Entry>, t: string, f: seq<string>, k: string)
    requires k != t
    ensures FragsOf(Upsert(es, t, f), k) == FragsOf(es, k)
  {
    if es == [] {
    } else if es[0].texto == t {
      assert Upsert(es, t, f)[1..] == es[1..];
    } else {
      assert Upsert(es, t, f)[1..] == Upsert(es[1..], t, f);
      UpsertFragsOther(es[1..], t, f, k);
    }
  }

  /** A term with no entry has no fragments. */
  lemma {:induction false} FragsAbsent(es: seq<Entry>, k: string)
    requires k !in Texts(es)
    ensures FragsOf(es, k) == []
  {
    if es != [] {
      assert Texts(es) == [es[0].texto] + Texts(es[1..]);
      FragsAbsent(es[1..], k);
    }
  }

  /** Dropping the first entry keeps the terms distinct, and the first term
      does not occur again. */
  lemma DistinctTail(es: seq<Entry>)
    requires DistinctTexts(es) && es != []
    ensures DistinctTexts(es[1..]) && es[0].texto !in Texts(es[1..])
  {
    var ts, us := Texts(es), Texts(es[1..]);
    assert ts == [es[0].texto] + us;
    forall i, j | 0 <= i < j < |us| ensures us[i] != us[j] {
      assert us[i] == ts[i + 1] && us[j] == ts[j + 1];
    }
    forall j | 0 <= j < |us| ensures us[j] != es[0].texto {
      assert us[j] == ts[j + 1] && ts[0] == es[0].texto && 0 < j + 1 < |ts|;
    }
  }

  lemma {:induction false} TextsAppend(a: seq<Entry>, b: seq<Entry>)
    ensures Texts(a + b) == Texts(a) + Texts(b)
  {
    if a == [] {
      assert a + b == b;
    } else {
      assert (a + b)[1..] == a[1..] + b;
      TextsAppend(a[1..], b);
    }
  }

  // ---------------------------------------------------------------------------
  // The bookkeeping every processor keeps

  /** The dictionary went from `c0` to `c1` by adding, for each term, exactly
      the hits the entries record; a term is a key afterwards exactly when it
      was one before or has hits now. */
  ghost predicate Tallied(c0: map<string, nat>, c1: map<string, nat>, es: seq<Entry>) {
    (forall k :: Get(c1, k) == Get(c0, k) + Hits(es, k)) &&
    (forall k :: k in c1 <==> k in c0 || Hits(es, k) > 0)
  }

  /** What a processor's state keeps from its start `c0` on: entries well
      formed and about the search terms, the total their sum, the dictionary
      tallied by them, and one snippet line per hit. */
  ghost predicate Good(a: Acc, c0: map<string, nat>, terms: seq<string>) {
    WellFormed(a.entries) && TextsIn(a.entries, terms) &&
    a.total == Sum(a.entries) &&
    Tallied(c0, a.counts, a.entries) &&
    BulletCount(a.hallazgos) == a.total
  }

  /** The state a processor starts from. */
  function Start(c0: map<string, nat>): Acc {
    Acc([], [], 0, c0)
  }

  lemma StartGood(c0: map<string, nat>, terms: seq<string>)
    ensures Good(Start(c0), c0, terms) && DistinctTexts(Start(c0).entries)
  {
  }

  /** Recording a hit block by upserting keeps the bookkeeping. */
  lemma RecordUpsertGood(a: Acc, c0: map<string, nat>, terms: seq<string>,
                         header: string, t: string, sn: seq<string>, f: seq<string>)
    requires Good(a, c0, terms) && DistinctTexts(a.entries)
    requires !StartsWith(header, Bullet) && t in terms && sn != [] && |f| == |sn|
    ensures var b := Acc(a.hallazgos + ([header] + Bullets(sn) + [""]), Upsert(a.entries, t, f),
                         a.total + |sn|, Add(a.counts, t, |sn|));
      Good(b, c0, terms) && DistinctTexts(b.entries)
  {
    var b := Acc(a.hallazgos + ([header] + Bullets(sn) + [""]), Upsert(a.entries, t, f),
                 a.total + |sn|, Add(a.counts, t, |sn|));
    UpsertCounts(a.entries, t, f);
    UpsertShape(a.entries, t, f, terms);
    BlockCount(header, sn);
    BulletCountAppend(a.hallazgos, [header] + Bullets(sn) + [""]);
    assert Tallied(c0, b.counts, b.entries) by {
      forall k ensures Get(b.counts, k) == Get(c0, k) + Hits(b.entries, k) {
        if k != t {
          assert Hits(b.entries, k) == Hits(a.entries, k);
        }
      }
    }
  }

  /** Recording a finished term by pushing a new entry keeps the bookkeeping,
      when the report lines `h` now hold one more bullet line per fragment. */
  lemma RecordPushGood(a: Acc, c0: map<string, nat>, terms: seq<string>,
                       h: seq<string>, t: string, f: seq<string>)
    requires Good(a, c0, terms)
    requires t in terms && f != [] && BulletCount(h) == a.total + |f|
    ensures Good(Acc(h, a.entries + [Entry(t, |f|, f)], a.total + |f|, Add(a.counts, t, |f|)), c0, terms)
  {
    var e := Entry(t, |f|, f);
    PushEntry(a.entries, t, f);
    forall k ensures Hits(a.entries + [e], k) == Hits(a.entries, k) + (if k == t then |f| else 0) {
      PushHits(a.entries, t, f, k);
    }
  }

  /** Appending a fresh entry for `t`. */
  lemma PushEntry(es: seq<Entry>, t: string, f: seq<string>)
    requires WellFormed(es) && f != []
    ensures var r := es + [Entry(t, |f|, f)];
      WellFormed(r) && Sum(r) == Sum(es) + |f| && Texts(r) == Texts(es) + [t]
  {
    var e := Entry(t, |f|, f);
    SumAppend(es, [e]);
    TextsAppend(es, [e]);
    assert [e][1..] == [];
  }

  lemma PushHits(es: seq<Entry>, t: string, f: seq<string>, k: string)
    ensures Hits(es + [Entry(t, |f|, f)], k) == Hits(es, k) + (if k == t then |f| else 0)
  {
    var e := Entry(t, |f|, f);
    HitsAppend(es, [e], k);
    assert [e][1..] == [];
  }

  /** In well-formed entries a term's hits are its fragments. */
  lemma {:induction false} HitsFrags(es: seq<Entry>, k: string)
    requires WellFormed(es)
    ensures Hits(es, k) == |FragsOf(es, k)|
  {
    if es != [] {
      HitsFrags(es[1..], k);
    }
  }
}
