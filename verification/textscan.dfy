/** The regular-expression passes of `fetchProductDetails` over the text of a
    product's detail page: the single-match cannabinoid patterns, the
    per-entry synonym scan folded by maximum, and the Total Terpenes
    fallback. The page texts are parameters: locating the terpene section
    and reading its text belong to the HTML parser. */
module TextScan {
  import opened Text
  import opened JsonValue
  import opened Percent
  import opened Canon
  import opened Fold
  import opened Record
  import opened Pattern

  /** Each alternative tried at `i`, in order. */
  function AlternativeEnds(s: string, i: nat, syns: seq<string>): (ends: seq<Option<nat>>)
    requires i <= |s|
    ensures |ends| == |syns| && forall u :: 0 <= u < |syns| ==> ends[u] == SynonymMatchEnd(s, i, syns[u])
  {
    seq(|syns|, u requires 0 <= u < |syns| => SynonymMatchEnd(s, i, syns[u]))
  }

  /** A match: where it starts and ends, and `parseFloat` of its capture. */
  datatype Match = Match(start: nat, end: nat, value: real)

  /** `(?:syns[0]|syns[1]|…)[\n\r\t\s:]*([0-9]+(?:\.[0-9]+)?)%` tried at `i`.
      The alternation tries its branches in order: the match uses the first
      alternative that completes one. */
  function MatchAt(s: string, i: nat, syns: seq<string>): (r: Option<Match>)
    requires i <= |s|
    ensures r.None? <==> forall u :: 0 <= u < |syns| ==> SynonymMatchEnd(s, i, syns[u]).None?
    ensures r.Some? ==> exists u :: 0 <= u < |syns| && SynonymMatchEnd(s, i, syns[u]) == Some(r.value.end)
                          && forall v :: 0 <= v < u ==> SynonymMatchEnd(s, i, syns[v]).None?
    ensures r.Some? ==> r.value.start == i < r.value.end <= |s| && r.value.value >= 0.0
  {
    var ends := AlternativeEnds(s, i, syns);
    match FirstSome(ends, 0)
    case None => None
    case Some(u) =>
      var q := SkipColonSpaces(s, i + |syns[u]|);
      Some(Match(i, ends[u].value, NumeralValue(s, q)))
  }

  /** Every match in `t` starts at its own index and ends after it, inside
      the text `t` was built from: `t` has one slot per index of the text
      and one for its end. */
  predicate Positioned(t: seq<Option<Match>>)
  {
    forall i :: 0 <= i < |t| && t[i].Some? ==> t[i].value.start == i < t[i].value.end < |t|
  }

  /** Every match in `t` captured a number that is not negative. */
  predicate NonNegative(t: seq<Option<Match>>)
  {
    forall i :: 0 <= i < |t| && t[i].Some? ==> t[i].value.value >= 0.0
  }

  /** The pattern tried at every index of `s`, the end included. */
  function MatchTable(s: string, syns: seq<string>): (t: seq<Option<Match>>)
    ensures |t| == |s| + 1 && Positioned(t) && NonNegative(t)
    ensures forall i :: 0 <= i <= |s| ==> t[i] == MatchAt(s, i, syns)
  {
    seq(|s| + 1, i requires 0 <= i <= |s| => MatchAt(s, i, syns))
  }

  /** `re.exec(s)` with `re.lastIndex == from`, over the matches `t` of the
      pattern at each index: the leftmost match at or after `from`. */
  function NextMatch(t: seq<Option<Match>>, from: nat): (r: Option<Match>)
    requires from <= |t| && Positioned(t)
    ensures r.Some? ==> from <= r.value.start < |t| && t[r.value.start] == r
    ensures r.Some? ==> forall i :: from <= i < r.value.start ==> t[i].None?
    ensures r.None? <==> forall i :: from <= i < |t| ==> t[i].None?
  {
    match FirstSome(t, from)
    case None => None
    case Some(i) => t[i]
  }

  /** The `addResult` calls one entry's exec loop makes from `from` on: each
      match, then the search resumes at its end. */
  function EntryHits(t: seq<Option<Match>>, name: string, from: nat): seq<Candidate>
    requires from <= |t| && Positioned(t)
    decreases |t| - from
  {
    match NextMatch(t, from)
    case None => []
    case Some(m) => [Candidate(name, PNum(m.value))] + EntryHits(t, name, m.end)
  }

  /** The calls of each entry's loop, in table order. */
  function PassHits(s: string, table: seq<Entry>): (hits: seq<seq<Candidate>>)
    ensures |hits| == |table|
    ensures forall j :: 0 <= j < |table| ==> hits[j] == EntryHits(MatchTable(s, table[j].keys), table[j].name, 0)
  {
    seq(|table|, j requires 0 <= j < |table| => EntryHits(MatchTable(s, table[j].keys), table[j].name, 0))
  }

  /** `parts[0] + … + parts[n - 1]` */
  function Concat(parts: seq<seq<Candidate>>, n: nat): seq<Candidate>
    requires n <= |parts|
  {
    if n == 0 then [] else Concat(parts, n - 1) + parts[n - 1]
  }

  /** All the calls of the pass over the synonym table. */
  function SectionHits(s: string): seq<Candidate>
  {
    Concat(PassHits(s, CanonTable()), CANON_COUNT)
  }

  /** The `terpenes` list the regex pass leaves. */
  function SectionTerpenes(s: string): seq<Terpene>
  {
    FoldAdd([], SectionHits(s))
  }

  /** One entry's `while ((m = re.exec(sectionText)) !== null)` loop. */
  method ScanEntryText(s: string, e: Entry, terpenes: seq<Terpene>) returns (r: seq<Terpene>)
    ensures r == FoldAdd(terpenes, EntryHits(MatchTable(s, e.keys), e.name, 0))
  {
    var t := MatchTable(s, e.keys);
    r := terpenes;
    var lastIndex := 0;
    var m := NextMatch(t, lastIndex);
    while m.Some?
      invariant lastIndex < |t| && m == NextMatch(t, lastIndex)
      invariant FoldAdd(terpenes, EntryHits(t, e.name, 0)) == FoldAdd(r, EntryHits(t, e.name, lastIndex))
      decreases |t| - lastIndex
    {
      var c := Candidate(e.name, PNum(m.value.value));
      FoldAddAppend(r, [c], EntryHits(t, e.name, m.value.end));
      assert FoldAdd(r, [c]) == Add(r, c) by {
        assert [c][..0] == [];
      }
      r := AddResult(r, c);
      lastIndex := m.value.end;
      m := NextMatch(t, lastIndex);
    }
  }

  /** The regex pass over every entry of the synonym table, in order. */
  method ScanSection(s: string) returns (terpenes: seq<Terpene>)
    ensures terpenes == SectionTerpenes(s)
    ensures Summarizes(terpenes, SectionHits(s))
  {
    var table := CanonTable();
    ghost var hits := PassHits(s, table);
    terpenes := [];
    for j := 0 to |table|
      invariant terpenes == FoldAdd([], Concat(hits, j))
    {
      FoldAddAppend([], Concat(hits, j), hits[j]);
      terpenes := ScanEntryText(s, table[j], terpenes);
    }
    FoldAddSummarizes(SectionHits(s));
  }

  /** Every call of an entry's loop carries the entry's name and a number
      that is not negative. */
  lemma {:induction false} EntryHitsNamed(t: seq<Option<Match>>, name: string, from: nat, k: nat)
    requires from <= |t| && Positioned(t) && NonNegative(t) && k < |EntryHits(t, name, from)|
    ensures EntryHits(t, name, from)[k].name == name
    ensures EntryHits(t, name, from)[k].pct.PNum? && EntryHits(t, name, from)[k].pct.v >= 0.0
    decreases |t| - from
  {
    var m := NextMatch(t, from).value;
    if k > 0 {
      EntryHitsNamed(t, name, m.end, k - 1);
    }
  }

  /** Each call of the concatenation comes from one of the parts. */
  lemma {:induction false} ConcatFrom(parts: seq<seq<Candidate>>, n: nat, k: nat)
    requires n <= |parts| && k < |Concat(parts, n)|
    ensures exists j, l :: 0 <= j < n && 0 <= l < |parts[j]| && Concat(parts, n)[k] == parts[j][l]
  {
    var prev := Concat(parts, n - 1);
    if k < |prev| {
      ConcatFrom(parts, n - 1, k);
    } else {
      assert Concat(parts, n)[k] == parts[n - 1][k - |prev|];
    }
  }

  /** The first `n` parts come first among the first `m`. */
  lemma {:induction false} ConcatPrefix(parts: seq<seq<Candidate>>, n: nat, m: nat)
    requires n <= m <= |parts|
    ensures Concat(parts, n) <= Concat(parts, m)
    decreases m - n
  {
    if n < m {
      ConcatPrefix(parts, n, m - 1);
    }
  }

  /** Every entry of the pass's result carries a table name and a percentage
      that is not negative. */
  lemma SectionTerpenesCanonical(s: string, i: nat)
    requires i < |SectionTerpenes(s)|
    ensures exists j :: 0 <= j < CANON_COUNT && SectionTerpenes(s)[i].name == CanonTable()[j].name
    ensures SectionTerpenes(s)[i].percentage >= 0.0
  {
    var cs := SectionHits(s);
    var rs := SectionTerpenes(s);
    FoldAddSummarizes(cs);
    assert HasName(rs, rs[i].name);
    assert MaxFor(cs, rs[i].name) == Some(rs[i].percentage);
    var k :| 0 <= k < |cs| && Accepted(cs[k]) && cs[k].name == rs[i].name && cs[k].pct.v == rs[i].percentage;
    HitFromTable(s, CanonTable(), k);
  }

  /** Each call of a pass over `table` carries the name of the entry whose
      loop made it and a number that is not negative. */
  lemma HitFromTable(s: string, table: seq<Entry>, k: nat)
    requires k < |Concat(PassHits(s, table), |table|)|
    ensures exists j :: 0 <= j < |table| && Concat(PassHits(s, table), |table|)[k].name == table[j].name
    ensures Concat(PassHits(s, table), |table|)[k].pct.PNum? && Concat(PassHits(s, table), |table|)[k].pct.v >= 0.0
  {
    var hits := PassHits(s, table);
    ConcatFrom(hits, |table|, k);
    var j, l :| 0 <= j < |table| && 0 <= l < |hits[j]| && Concat(hits, |table|)[k] == hits[j][l];
    var t := MatchTable(s, table[j].keys);
    EntryHitsNamed(t, table[j].name, 0, l);
  }

  /** A match anywhere in the text starts an entry's calls. */
  lemma EntryHitsFirst(t: seq<Option<Match>>, name: string, i: nat)
    requires Positioned(t) && i < |t| && t[i].Some?
    ensures EntryHits(t, name, 0) != [] && EntryHits(t, name, 0)[0] == Candidate(name, PNum(NextMatch(t, 0).value.value))
  {
  }

  /** The first call of a part, when accepted, names an entry of the folded
      concatenation. */
  lemma PartReported(parts: seq<seq<Candidate>>, j: nat)
    requires j < |parts| && parts[j] != [] && Accepted(parts[j][0])
    ensures HasName(FoldAdd([], Concat(parts, |parts|)), parts[j][0].name)
  {
    ConcatPrefix(parts, j + 1, |parts|);
    var cs := Concat(parts, |parts|);
    var at := |Concat(parts, j)|;
    assert cs[at] == parts[j][0] by {
      assert Concat(parts, j + 1)[at] == parts[j][0];
    }
    FirstAtIsFirst(cs, parts[j][0].name);
    FoldAddSummarizes(cs);
  }

  /** A match of entry `j`'s pattern anywhere in the text puts entry `j`'s
      name in the result of the pass over `table`. */
  lemma EntryMatchReported(s: string, table: seq<Entry>, j: nat, i: nat)
    requires j < |table| && table[j].name != "" && i <= |s| && MatchAt(s, i, table[j].keys).Some?
    ensures HasName(FoldAdd([], Concat(PassHits(s, table), |table|)), table[j].name)
  {
    var t := MatchTable(s, table[j].keys);
    EntryHitsFirst(t, table[j].name, i);
    PartReported(PassHits(s, table), j);
  }

  /** The alternative `a-pinene` of Alpha-Pinene matches inside the text
      "Beta-Pinene 0.3%", so that text yields an Alpha-Pinene entry it never
      names. */
  lemma PhantomAlphaPinene()
    ensures HasName(SectionTerpenes("Beta-Pinene 0.3%"), "Alpha-Pinene")
  {
    var s := "Beta-Pinene 0.3%";
    assert CanonTable()[6] == CanonEntry(6);
    var keys := CanonTable()[6].keys;
    assert keys[1] == "a-pinene";
    assert LiteralAt(s, 3, "a-pinene");
    assert SkipColonSpaces(s, 11) == 12 by {
      assert SkipColonSpaces(s, 12) == 12;
    }
    assert DigitRunEnd(s, 12) == 13 && DigitRunEnd(s, 14) == 15;
    assert SynonymMatchEnd(s, 3, keys[1]) == Some(16);
    assert MatchAt(s, 3, keys).Some?;
    EntryMatchReported(s, CanonTable(), 6, 3);
  }

  // Cannabinoid figures.

  /** `s.match(re)` for the cannabinoid pattern of `name`: the capture of
      the leftmost match in `s`. */
  function FirstCannabinoid(s: string, name: string): Option<string>
  {
    var t := CannabinoidTable(s, name);
    match FirstSome(t, 0)
    case None => None
    case Some(i) => t[i]
  }

  /** The figure is the capture of the leftmost match, and there is none
      exactly when the pattern matches nowhere. */
  lemma FirstCannabinoidLeftmost(s: string, name: string)
    ensures var r := FirstCannabinoid(s, name);
      r.Some? ==> exists i :: 0 <= i <= |s| && CannabinoidAt(s, i, name) == r
                              && forall k :: 0 <= k < i ==> CannabinoidAt(s, k, name).None?
    ensures FirstCannabinoid(s, name).None? <==> forall i :: 0 <= i <= |s| ==> CannabinoidAt(s, i, name).None?
  {
    var t := CannabinoidTable(s, name);
    if FirstSome(t, 0).None? {
      assert forall i :: 0 <= i <= |s| ==> t[i].None?;
    }
  }

  function CannabinoidTable(s: string, name: string): (t: seq<Option<string>>)
    ensures |t| == |s| + 1 && forall i :: 0 <= i <= |s| ==> t[i] == CannabinoidAt(s, i, name)
  {
    seq(|s| + 1, i requires 0 <= i <= |s| => CannabinoidAt(s, i, name))
  }

  /** The cannabinoid keys of the detail page, each read by the pattern of
      the same text. */
  const CANNABINOID_KEYS: seq<string> := ["THC", "THCA", "CBD", "CBDa"]

  /** The `cannabinoids` object built from the page text: each key whose
      pattern matches holds the captured text. */
  function TextCannabinoids(text: string, keys: seq<string>): map<string, Json>
  {
    Figures(keys, k => FirstCannabinoid(text, k), |keys|)
  }

  /** The object the first `n` assignments `if (m) cannabinoids[key] = m[1]`
      build, where `figure(key)` is the capture for `key`. */
  function Figures(keys: seq<string>, figure: string -> Option<string>, n: nat): map<string, Json>
    requires n <= |keys|
  {
    if n == 0 then map[]
    else
      var m := Figures(keys, figure, n - 1);
      var k := keys[n - 1];
      match figure(k)
      case Some(c) => m[k := JStr(c)]
      case None => m
  }

  /** A key holds a figure exactly when its pattern matches, and the figure
      is that match's capture. */
  lemma {:induction false} FiguresKeys(keys: seq<string>, figure: string -> Option<string>, n: nat, k: string)
    requires n <= |keys|
    ensures k in Figures(keys, figure, n) <==> k in keys[..n] && figure(k).Some?
    ensures k in Figures(keys, figure, n) ==> Figures(keys, figure, n)[k] == JStr(figure(k).value)
  {
    if n > 0 {
      FiguresKeys(keys, figure, n - 1, k);
      assert keys[..n] == keys[..n - 1] + [keys[n - 1]];
    }
  }

  /** The page's cannabinoid object holds a key exactly when the key's
      pattern matches the text, and then holds the leftmost capture. */
  lemma TextCannabinoidsKeys(text: string, keys: seq<string>, k: string)
    ensures k in TextCannabinoids(text, keys) <==> k in keys && FirstCannabinoid(text, k).Some?
    ensures k in TextCannabinoids(text, keys) ==> TextCannabinoids(text, keys)[k] == JStr(FirstCannabinoid(text, k).value)
  {
    FiguresKeys(keys, k => FirstCannabinoid(text, k), |keys|, k);
    assert keys[..|keys|] == keys;
  }

  /** Every figure read from the text is a number to `parsePercent`. */
  lemma TextFiguresParse(text: string, keys: seq<string>, k: string)
    requires k in TextCannabinoids(text, keys)
    ensures ParsePercent(TextCannabinoids(text, keys)[k]).PNum?
  {
    TextCannabinoidsKeys(text, keys, k);
    var c := FirstCannabinoid(text, k).value;
    FirstCannabinoidLeftmost(text, k);
    var i :| 0 <= i <= |text| && CannabinoidAt(text, i, k) == Some(c);
    CaptureReadsBack(text, i, k);
  }

  // The fetched record, with the Total Terpenes fallback.

  /** What `fetchProductDetails` hands its callback. */
  datatype Fetched = FetchError(message: string) | FetchedData(data: Insight)

  /** The terpene value of the fetched record: the breakdown when the pass
      found one, else `{'Total Terpenes': n}` from the section text (or the
      body text when the section text is empty), else the empty list. */
  function FetchedTerpenes(bodyText: string, sectionText: string, breakdown: seq<Terpene>): Json
  {
    if breakdown != [] then TerpenesJson(breakdown)
    else
      TotalFallback(if sectionText != [] then sectionText else bodyText)
  }

  /** `{'Total Terpenes': n}` for the first total figure of `source`, else
      the empty list. */
  function TotalFallback(source: string): Json
  {
    match FirstTotal(source)
    case Some(v) => JObj([("Total Terpenes", JNum(v))])
    case None => JArr([])
  }

  /** The record built from the page texts. `bodyText` is the body's
      `textContent`; `sectionText` is the `innerText` of the terpene
      section, or of the body when there is no section. */
  function FetchedRecord(url: string, bodyText: string, sectionText: string): Insight
  {
    var section := Trim(sectionText);
    Insight(Some(url), None, Some(TextCannabinoids(bodyText, CANNABINOID_KEYS)),
      Some(FetchedTerpenes(bodyText, section, SectionTerpenes(section))))
  }

  /** The terpene value the callback receives: `terpeneResult || terpenes`. */
  method ChooseFetchedTerpenes(bodyText: string, section: string, terpenes: seq<Terpene>) returns (chosen: Json)
    ensures chosen == FetchedTerpenes(bodyText, section, terpenes)
  {
    var terpeneResult: Json := JUndef;
    if |terpenes| > 0 {
      terpeneResult := TerpenesJson(terpenes);
    } else {
      var source := if section != [] then section else bodyText;
      var total := FirstTotal(source);
      if total.Some? {
        terpeneResult := JObj([("Total Terpenes", JNum(total.value))]);
      }
    }
    chosen := if Truthy(terpeneResult) then terpeneResult else TerpenesJson(terpenes);
    assert terpenes == [] ==> TerpenesJson(terpenes) == JArr([]);
  }

  /** `fetchProductDetails(url, callback)` after the page has been loaded
      and parsed; a request or parse failure is not part of this model. */
  method FetchProductDetails(url: string, bodyText: string, sectionText: string) returns (r: Fetched)
    ensures url == [] ==> r == FetchError("Unable to determine product URL")
    ensures url != [] ==> r == FetchedData(FetchedRecord(url, bodyText, sectionText))
  {
    if url == [] {
      return FetchError("Unable to determine product URL");
    }
    var section := Trim(sectionText);
    var found := ScanSection(section);
    var terpenes := ChooseFetchedTerpenes(bodyText, section, found);
    r := FetchedData(Insight(Some(url), None, Some(TextCannabinoids(bodyText, CANNABINOID_KEYS)), Some(terpenes)));
  }

  /** A fetched record has a detailed breakdown exactly when the regex pass
      named at least one terpene: the total alone, or nothing, leaves the
      card to be fetched again on the next hover. */
  lemma FetchedDetailedIff(bodyText: string, sectionText: string, breakdown: seq<Terpene>)
    ensures HasDetailedTerpeneBreakdown(FetchedTerpenes(bodyText, sectionText, breakdown)) <==> breakdown != []
  {
    if breakdown != [] {
      BreakdownDetailed(breakdown);
    } else {
      var source := if sectionText != [] then sectionText else bodyText;
      var total := FirstTotal(source);
      if total.Some? {
        TotalFigureNotDetailed(JNum(total.value));
      }
    }
  }

  /** The fetched record carries terpene information exactly when a
      breakdown or a total was found. */
  lemma FetchedInfoIff(bodyText: string, sectionText: string, breakdown: seq<Terpene>)
    ensures HasTerpeneInfo(FetchedTerpenes(bodyText, sectionText, breakdown))
      <==> breakdown != [] || FirstTotal(if sectionText != [] then sectionText else bodyText).Some?
  {
  }
}
