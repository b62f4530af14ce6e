/** The comparison selection: the list of at most three products the card
    buttons toggle by URL, each entry built from the card's cached record. */
module Selection {
  import opened Text
  import opened JsonValue
  import opened Record

  /** The most products the list holds. */
  const MAX_SELECTED: nat := 3

  /** What a click on a card's button did. */
  datatype Outcome = NoUrl | Deselected | Full | Selected

  /** Index of the first occurrence of `c` at or after `from`. */
  function IndexOfChar(t: string, c: char, from: nat): (r: Option<nat>)
    requires from <= |t|
    ensures r.Some? ==> from <= r.value < |t| && t[r.value] == c
    ensures r.Some? ==> forall k :: from <= k < r.value ==> t[k] != c
    ensures r.None? <==> forall k :: from <= k < |t| ==> t[k] != c
    decreases |t| - from
  {
    if from == |t| then None
    else if t[from] == c then Some(from)
    else IndexOfChar(t, c, from + 1)
  }

  lemma {:induction false} IndexOfCharAt(t: string, c: char, from: nat, i: nat)
    requires from <= i < |t| && t[i] == c && c !in t[from..i]
    ensures IndexOfChar(t, c, from) == Some(i)
    decreases i - from
  {
    if from < i {
      assert t[from] in t[from..i];
      assert t[from + 1..i] == t[from..i][1..];
      IndexOfCharAt(t, c, from + 1, i);
    }
  }

  /** `text.trim().split('\n')[1]`: the second line of the card's text,
      `undefined` when it has a single line. */
  function SecondLine(text: string): (r: Option<string>)
    ensures r.Some? ==> '\n' !in r.value
  {
    var t := Trim(text);
    match IndexOfChar(t, '\n', 0)
    case None => None
    case Some(i) =>
      match IndexOfChar(t, '\n', i + 1)
      case None => Some(t[i + 1..])
      case Some(e) => Some(t[i + 1..e])
  }

  /** `cached.name || cardLine || 'Product'`. */
  function EntryName(cached: Option<Insight>, cardText: string): (r: string)
    ensures r != []
  {
    if cached.Some? && cached.value.name.Some? && cached.value.name.value != [] then cached.value.name.value
    else
      var line := SecondLine(cardText);
      if line.Some? && line.value != [] then line.value else "Product"
  }

  /** `x || undefined` for a cached terpene value. */
  function TruthyOrAbsent(t: Option<Json>): (r: Option<Json>)
    ensures r.Some? <==> t.Some? && Truthy(t.value)
    ensures r.Some? ==> r == t
  {
    if t.Some? && Truthy(t.value) then t else None
  }

  /** The entry a selection pushes: the URL, a display name, and the cached
      cannabinoids and terpenes when present. */
  function Entry(url: string, cached: Option<Insight>, cardText: string): Insight
  {
    var c := cached.GetOr(EMPTY);
    Insight(Some(url), Some(EntryName(cached, cardText)), c.cannabinoids, TruthyOrAbsent(c.terpenes))
  }

  /** `selectedProducts.findIndex(p => p.url === url)` */
  function FindIndex(ps: seq<Insight>, url: string): (r: Option<nat>)
    ensures r.Some? ==> r.value < |ps| && ps[r.value].url == Some(url)
    ensures r.Some? ==> forall k :: 0 <= k < r.value ==> ps[k].url != Some(url)
    ensures r.None? <==> forall k :: 0 <= k < |ps| ==> ps[k].url != Some(url)
  {
    if ps == [] then None
    else if ps[0].url == Some(url) then Some(0)
    else match FindIndex(ps[1..], url)
      case None => None
      case Some(i) =>
        assert forall k :: 1 <= k < |ps| ==> ps[k] == ps[1..][k - 1];
        Some(i + 1)
  }

  /** Every entry has a URL and no two share one. */
  predicate UrlsDistinct(ps: seq<Insight>)
  {
    (forall i :: 0 <= i < |ps| ==> ps[i].url.Some?)
    && forall i, j :: 0 <= i < j < |ps| ==> ps[i].url != ps[j].url
  }

  /** What the list may hold at any time. */
  predicate Allowed(ps: seq<Insight>)
  {
    |ps| <= MAX_SELECTED && UrlsDistinct(ps)
  }

  /** `splice(i, 1)` */
  function RemoveAt(ps: seq<Insight>, i: nat): (r: seq<Insight>)
    requires i < |ps|
    ensures |r| == |ps| - 1
    ensures forall k :: 0 <= k < i ==> r[k] == ps[k]
    ensures forall k :: i <= k < |r| ==> r[k] == ps[k + 1]
  {
    ps[..i] + ps[i + 1..]
  }

  /** The click handler's effect on the list: the outcome and the new list. */
  function Toggled(ps: seq<Insight>, url: Option<string>, cached: Option<Insight>, cardText: string): (Outcome, seq<Insight>)
  {
    if url.None? || url.value == [] then (NoUrl, ps)
    else match FindIndex(ps, url.value)
      case Some(i) => (Deselected, RemoveAt(ps, i))
      case None =>
        if |ps| >= MAX_SELECTED then (Full, ps)
        else (Selected, ps + [Entry(url.value, cached, cardText)])
  }

  /** The list of selected products (`selectedProducts`). */
  class SelectionList {
    var products: seq<Insight>

    predicate Valid()
      reads this
    {
      Allowed(products)
    }

    constructor ()
      ensures products == [] && Valid()
    {
      products := [];
    }

    /** The select button's click handler, after the card's URL has been
        read and its cached record looked up. */
    method Toggle(url: Option<string>, cached: Option<Insight>, cardText: string) returns (r: Outcome)
      requires Valid()
      modifies this
      ensures (r, products) == Toggled(old(products), url, cached, cardText)
      ensures Valid()
    {
      if url.None? || url.value == [] {
        return NoUrl;
      }
      var index := FindIndex(products, url.value);
      if index.Some? {
        products := products[..index.value] + products[index.value + 1..];
        r := Deselected;
      } else {
        if |products| >= MAX_SELECTED {
          return Full;
        }
        products := products + [Entry(url.value, cached, cardText)];
        r := Selected;
      }
      ToggleAllowed(old(products), url, cached, cardText);
    }
  }

  /** A toggle keeps the list within three entries with distinct URLs. */
  lemma ToggleAllowed(ps: seq<Insight>, url: Option<string>, cached: Option<Insight>, cardText: string)
    requires Allowed(ps)
    ensures Allowed(Toggled(ps, url, cached, cardText).1)
  {
    if url.Some? && url.value != [] && FindIndex(ps, url.value).None? && |ps| < MAX_SELECTED {
      var qs := Toggled(ps, url, cached, cardText).1;
      assert qs[|ps|].url == Some(url.value);
    }
  }

  /** Toggling a selected URL removes exactly its entry, keeps the others in
      order, and leaves no entry with that URL. */
  lemma DeselectRemovesOnly(ps: seq<Insight>, url: string, cached: Option<Insight>, cardText: string, i: nat)
    requires Allowed(ps) && url != [] && i < |ps| && ps[i].url == Some(url)
    ensures Toggled(ps, Some(url), cached, cardText) == (Deselected, ps[..i] + ps[i + 1..])
    ensures FindIndex(Toggled(ps, Some(url), cached, cardText).1, url).None?
  {
    assert FindIndex(ps, url) == Some(i);
  }

  /** Selecting while three products are selected changes nothing. */
  lemma FullUnchanged(ps: seq<Insight>, url: string, cached: Option<Insight>, cardText: string)
    requires Allowed(ps) && |ps| == MAX_SELECTED && url != []
    requires forall k :: 0 <= k < |ps| ==> ps[k].url != Some(url)
    ensures Toggled(ps, Some(url), cached, cardText) == (Full, ps)
  {
  }

  /** Without a URL the click does nothing. */
  lemma NoUrlUnchanged(ps: seq<Insight>, cached: Option<Insight>, cardText: string)
    ensures Toggled(ps, None, cached, cardText) == (NoUrl, ps)
    ensures Toggled(ps, Some([]), cached, cardText) == (NoUrl, ps)
  {
  }

  /** Selecting a product and toggling it again restores the list. */
  lemma SelectThenDeselect(ps: seq<Insight>, url: string, cached: Option<Insight>, cached2: Option<Insight>, cardText: string)
    requires Allowed(ps) && url != [] && |ps| < MAX_SELECTED
    requires forall k :: 0 <= k < |ps| ==> ps[k].url != Some(url)
    ensures Toggled(ps, Some(url), cached, cardText).0 == Selected
    ensures Toggled(Toggled(ps, Some(url), cached, cardText).1, Some(url), cached2, cardText) == (Deselected, ps)
  {
    var qs := ps + [Entry(url, cached, cardText)];
    assert FindIndex(ps, url).None?;
    assert Toggled(ps, Some(url), cached, cardText).1 == qs;
    DeselectRemovesOnly(qs, url, cached2, cardText, |ps|);
    assert qs[..|ps|] + qs[|ps| + 1..] == ps;
  }

  /** The second line of `first\nsecond\n…` is `second`. */
  lemma SecondLineOf(first: string, second: string, rest: string)
    requires '\n' !in first && '\n' !in second
    requires first != [] && !IsSpace(first[0])
    requires rest != [] && !IsSpace(rest[|rest| - 1])
    ensures SecondLine(first + "\n" + second + "\n" + rest) == Some(second)
  {
    var t := first + "\n" + second + "\n" + rest;
    TrimPlain(t);
    var i := |first|;
    var e := |first| + 1 + |second|;
    assert t[..i] == first && t[i] == '\n' && t[i + 1..e] == second && t[e] == '\n';
    IndexOfCharAt(t, '\n', 0, i);
    IndexOfCharAt(t, '\n', i + 1, e);
  }

  /** A card whose text is one line has no second line, so without a cached
      name the entry is called `Product`. */
  lemma SingleLineCard(text: string)
    requires '\n' !in text
    ensures SecondLine(text) == None
    ensures EntryName(None, text) == "Product"
  {
    var t := Trim(text);
    assert forall k :: 0 <= k < |t| ==> t[k] in text by {
      forall k | 0 <= k < |t| ensures t[k] in text {
        var b := SkipSpaces(text, 0);
        assert t[k] == text[b + k];
      }
    }
  }

  /** A cached name wins over the card's text. */
  lemma CachedNameWins(cached: Insight, cardText: string)
    requires cached.name.Some? && cached.name.value != []
    ensures EntryName(Some(cached), cardText) == cached.name.value
  {
  }

  /** A cached empty list is kept; a blank or zero terpene value is not. */
  lemma EntryTerpenes(url: string, c: Insight, cardText: string)
    ensures c.terpenes == Some(JArr([])) ==> Entry(url, Some(c), cardText).terpenes == Some(JArr([]))
    ensures c.terpenes == Some(JStr([])) || c.terpenes == Some(JNum(0.0)) ==> Entry(url, Some(c), cardText).terpenes.None?
  {
  }
}
