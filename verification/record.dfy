/** The product record the script caches on a card and merges, and the
    tests it runs on a cached record before deciding to fetch the detail
    page. */
module Record {
  import opened Text
  import opened JsonValue
  import opened Fold

  /** A product record. A field is `None` when the record has no such key.
      Cannabinoid values are whatever the source held (numbers, numeric
      text, ...); terpenes are any value (a list of `{name, percentage}`, an
      object such as `{'Total Terpenes': n}`, a string). */
  datatype Insight = Insight(
    url: Option<string>,
    name: Option<string>,
    cannabinoids: Option<map<string, Json>>,
    terpenes: Option<Json>)

  /** `{}` */
  const EMPTY := Insight(None, None, None, None)

  /** The `{name, percentage}` objects `extractTerpenesFromObject` returns. */
  function TerpeneObject(t: Terpene): Json
  {
    JObj([("name", JStr(t.name)), ("percentage", JNum(t.percentage))])
  }

  function TerpenesJson(rs: seq<Terpene>): (j: Json)
    ensures j.JArr? && |j.items| == |rs|
    ensures forall i :: 0 <= i < |rs| ==> j.items[i] == TerpeneObject(rs[i])
  {
    JArr(seq(|rs|, i requires 0 <= i < |rs| => TerpeneObject(rs[i])))
  }

  /** `record?.cannabinoids` */
  function CannabinoidsOf(r: Option<Insight>): Option<map<string, Json>>
  {
    if r.Some? then r.value.cannabinoids else None
  }

  /** `record?.terpenes`, `undefined` when absent. */
  function TerpenesOf(r: Option<Insight>): Json
  {
    if r.Some? then r.value.terpenes.GetOr(JUndef) else JUndef
  }

  /** One cannabinoid value counts as information unless it is null,
      undefined, NaN or blank text. */
  predicate ValueInfo(v: Json)
  {
    match v
    case JUndef => false
    case JNull => false
    case JNaN => false
    case JStr(s) => Trim(s) != []
    case _ => true
  }

  /** `hasCannabinoidInfo(cannabinoids)` */
  predicate HasCannabinoidInfo(c: Option<map<string, Json>>)
  {
    c.Some? && exists k :: k in c.value && ValueInfo(c.value[k])
  }

  /** `hasTerpeneInfo(terpenes)` */
  predicate HasTerpeneInfo(t: Json)
  {
    match t
    case JArr(items) => |items| > 0
    case JObj(fields) => |fields| > 0
    case JStr(s) => Trim(s) != []
    case _ => false
  }

  /** `/total\s*terpene/i` matches at index `i` of the lower-cased text `l`. */
  predicate MentionAt(l: string, i: nat)
  {
    i + 5 <= |l| && l[i..i + 5] == "total"
    && var j := SkipSpaces(l, i + 5); j + 7 <= |l| && l[j..j + 7] == "terpene"
  }

  /** `/total\s*terpene/i.test(s)`. The space run is greedy and `terpene`
      starts with a letter, so the only candidate end of the run is its
      maximal end. */
  predicate TotalTerpeneMention(s: string)
  {
    exists i :: 0 <= i < |s| && MentionAt(LowerStr(s), i)
  }

  /** One list element of a detailed breakdown: text that does not mention
      the total, or an object with a string `name` or with some key that
      does not mention the total. */
  predicate DetailedItem(item: Json)
  {
    match item
    case JStr(s) => !TotalTerpeneMention(s)
    case JArr(_) => exists i :: 0 <= i < |Entries(item)| && !TotalTerpeneMention(Entries(item)[i].0)
    case JObj(fields) =>
      (Has(item, "name") && Get(item, "name").JStr?)
      || exists i :: 0 <= i < |fields| && !TotalTerpeneMention(fields[i].0)
    case _ => false
  }

  /** `hasDetailedTerpeneBreakdown(terpenes)` */
  predicate HasDetailedTerpeneBreakdown(t: Json)
  {
    match t
    case JArr(items) => |items| > 0 && exists i :: 0 <= i < |items| && DetailedItem(items[i])
    case JObj(fields) => exists i :: 0 <= i < |fields| && !TotalTerpeneMention(fields[i].0)
    case JStr(s) => s != [] && !TotalTerpeneMention(s)
    case _ => false
  }

  /** The hover handler fetches the detail page when it knows the URL and the
      cached record lacks cannabinoid information or a detailed terpene
      breakdown. */
  predicate ShouldFetch(cached: Option<Insight>, url: Option<string>)
  {
    url.Some? && url.value != []
    && (!HasCannabinoidInfo(CannabinoidsOf(cached)) || !HasDetailedTerpeneBreakdown(TerpenesOf(cached)))
  }

  /** Outside text, a detailed breakdown always carries terpene
      information. */
  lemma DetailedHasInfo(t: Json)
    requires HasDetailedTerpeneBreakdown(t) && !t.JStr?
    ensures HasTerpeneInfo(t)
  {
  }

  /** Blank text counts as a detailed breakdown but not as terpene
      information. */
  lemma BlankTextDetailed()
    ensures HasDetailedTerpeneBreakdown(JStr(" ")) && !HasTerpeneInfo(JStr(" "))
  {
    assert !MentionAt(LowerStr(" "), 0);
  }

  /** The key `Total Terpenes` mentions the total. */
  lemma TotalKeyMentions()
    ensures TotalTerpeneMention("Total Terpenes")
  {
    var s := "Total Terpenes";
    var l := LowerStr(s);
    assert l[0] == 't' && s[1..5] == l[1..5] == "otal" && l[5] == ' ';
    assert l[6] == 't' && s[7..13] == l[7..13] == "erpene";
    assert l[0..5] == "total" && l[6..13] == "terpene";
    assert SkipSpaces(l, 5) == 6;
    assert MentionAt(l, 0);
  }

  /** A non-empty list of `{name, percentage}` objects is a detailed
      breakdown. */
  lemma BreakdownDetailed(rs: seq<Terpene>)
    requires rs != []
    ensures HasDetailedTerpeneBreakdown(TerpenesJson(rs))
  {
    assert TerpenesJson(rs).items[0] == TerpeneObject(rs[0]);
    assert DetailedItem(TerpenesJson(rs).items[0]);
  }

  /** `{'Total Terpenes': n}` alone is not a detailed breakdown. */
  lemma TotalFigureNotDetailed(total: Json)
    ensures !HasDetailedTerpeneBreakdown(JObj([("Total Terpenes", total)]))
  {
    TotalKeyMentions();
  }

  /** A record whose only terpene figure is the total is fetched again. */
  lemma TotalOnlyRefetched(c: Option<map<string, Json>>, url: string, total: Json)
    requires url != []
    ensures ShouldFetch(Some(Insight(Some(url), None, c, Some(JObj([("Total Terpenes", total)])))), Some(url))
  {
    TotalFigureNotDetailed(total);
  }

  /** Nothing is fetched when the record has a cannabinoid figure and a named
      terpene. */
  lemma CompleteRecordNotFetched(url: string, k: string, v: real, t: Json)
    requires url != [] && DetailedItem(t)
    ensures !ShouldFetch(Some(Insight(Some(url), None, Some(map[k := JNum(v)]), Some(JArr([t])))), Some(url))
  {
    assert ValueInfo(map[k := JNum(v)][k]);
    assert [t][0] == t;
  }

  /** Without a URL nothing is fetched. */
  lemma NoUrlNoFetch(cached: Option<Insight>)
    ensures !ShouldFetch(cached, None) && !ShouldFetch(cached, Some([]))
  {
  }
}
