/** The two merges of product records: `storeProductData`, which folds a
    partial record into the record cached on a card, and the merge the
    comparison view makes of a selected product and its freshly fetched
    detail page. */
module Merge {
  import opened JsonValue
  import opened Record

  /** `record.cannabinoids || {}` */
  function CannabinoidsOr(r: Insight): map<string, Json>
  {
    r.cannabinoids.GetOr(map[])
  }

  /** A field of the partial record wins over the cached one when present. */
  function Pick<T>(incoming: Option<T>, current: Option<T>): (r: Option<T>)
    ensures incoming.Some? ==> r == incoming
    ensures incoming.None? ==> r == current
  {
    if incoming.Some? then incoming else current
  }

  /** `{...existing, ...partialData, cannabinoids: {...existing.cannabinoids,
      ...partialData.cannabinoids}}` */
  function Spread(e: Insight, p: Insight): Insight
  {
    Insight(Pick(p.url, e.url), Pick(p.name, e.name),
      Some(CannabinoidsOr(e) + CannabinoidsOr(p)), Pick(p.terpenes, e.terpenes))
  }

  /** The record `storeProductData(button, p)` writes when `cached` was
      read from the card: the spread, then the terpene guard and the URL
      copy that follow it. */
  function StoreMerge(cached: Option<Insight>, p: Insight): Insight
  {
    var merged := Spread(cached.GetOr(EMPTY), p);
    var merged := if p.terpenes.Some? then
        var t := p.terpenes.value;
        if t.JArr? then (if |t.items| > 0 then merged.(terpenes := Some(t)) else merged)
        else if Truthy(t) then merged.(terpenes := Some(t)) else merged
      else merged;
    if p.url.Some? && p.url.value != [] then merged.(url := p.url) else merged
  }

  /** The guard and the URL copy after the spread change nothing: the
      spread already copied every key of the partial record, an empty
      terpene list included. */
  lemma StoreMergeIsSpread(cached: Option<Insight>, p: Insight)
    ensures StoreMerge(cached, p) == Spread(cached.GetOr(EMPTY), p)
  {
  }

  /** A key the partial record lacks keeps its cached value; a key it has
      takes its value. */
  lemma StoreKeepsAbsentKeys(cached: Option<Insight>, p: Insight)
    ensures var m, e := StoreMerge(cached, p), cached.GetOr(EMPTY);
      && m.url == (if p.url.Some? then p.url else e.url)
      && m.name == (if p.name.Some? then p.name else e.name)
      && m.terpenes == (if p.terpenes.Some? then p.terpenes else e.terpenes)
  {
  }

  /** Cached cannabinoid keys missing from the partial record survive, and
      incoming keys win clashes. */
  lemma StoreCannabinoids(cached: Option<Insight>, p: Insight)
    ensures var m, e := StoreMerge(cached, p), cached.GetOr(EMPTY);
      && m.cannabinoids.Some?
      && m.cannabinoids.value.Keys == CannabinoidsOr(e).Keys + CannabinoidsOr(p).Keys
      && (forall k :: k in CannabinoidsOr(p) ==> m.cannabinoids.value[k] == CannabinoidsOr(p)[k])
      && (forall k :: k in CannabinoidsOr(e) && k !in CannabinoidsOr(p) ==> m.cannabinoids.value[k] == CannabinoidsOr(e)[k])
  {
    StoreMergeIsSpread(cached, p);
  }

  /** Storing the same partial record twice stores it once. */
  lemma StoreIdempotent(cached: Option<Insight>, p: Insight)
    ensures StoreMerge(Some(StoreMerge(cached, p)), p) == StoreMerge(cached, p)
  {
    var once := StoreMerge(cached, p);
    StoreMergeIsSpread(cached, p);
    StoreMergeIsSpread(Some(once), p);
    var e := cached.GetOr(EMPTY);
    assert CannabinoidsOr(once) == CannabinoidsOr(e) + CannabinoidsOr(p);
    assert CannabinoidsOr(once) + CannabinoidsOr(p) == CannabinoidsOr(e) + CannabinoidsOr(p);
  }

  /** An incoming empty terpene list replaces a cached detailed breakdown. */
  lemma EmptyListReplacesBreakdown(cached: Option<Insight>, p: Insight)
    requires p.terpenes == Some(JArr([]))
    ensures StoreMerge(cached, p).terpenes == Some(JArr([]))
    ensures !HasDetailedTerpeneBreakdown(TerpenesOf(Some(StoreMerge(cached, p))))
  {
  }

  /** A product card and the record cached on it (`data-sunnyside-product-data`). */
  class ProductCard {
    var cached: Option<Insight>

    constructor ()
      ensures cached.None?
    {
      cached := None;
    }

    /** `getCachedProductData(button)` */
    function CachedProductData(): Option<Insight>
      reads this
    {
      cached
    }

    /** `storeProductData(button, partialData)` */
    method StoreProductData(partial: Insight)
      modifies this
      ensures cached == Some(StoreMerge(old(cached), partial))
    {
      var existing := CachedProductData().GetOr(EMPTY);
      var merged := Insight(Pick(partial.url, existing.url), Pick(partial.name, existing.name),
        Some(CannabinoidsOr(existing) + CannabinoidsOr(partial)), Pick(partial.terpenes, existing.terpenes));
      if partial.terpenes.Some? {
        var t := partial.terpenes.value;
        if t.JArr? {
          if |t.items| > 0 {
            merged := merged.(terpenes := Some(t));
          }
        } else if Truthy(t) {
          merged := merged.(terpenes := Some(t));
        }
      }
      if partial.url.Some? && partial.url.value != [] {
        merged := merged.(url := partial.url);
      }
      cached := Some(merged);
    }
  }

  /** The entry count the comparison merge compares: list length, number of
      keys of an object, 0 for anything else. */
  function TerpeneCount(t: Option<Json>): nat
  {
    if t.None? then 0
    else match t.value
      case JArr(items) => |items|
      case JObj(fields) => |fields|
      case _ => 0
  }

  /** The comparison view's merge of a selected product with its fetched
      detail record: it keeps a cached name, merges cannabinoids only when
      some arrive, and replaces terpenes only when some arrive or none were
      cached. */
  function CompareMerge(product: Insight, data: Insight): Insight
  {
    var merged := product;
    var merged := if data.url.Some? && data.url.value != [] then merged.(url := data.url) else merged;
    var merged := if data.name.Some? && data.name.value != [] && (merged.name.None? || merged.name.value == [])
      then merged.(name := data.name) else merged;
    var merged := if data.cannabinoids.Some? && |data.cannabinoids.value| > 0
      then merged.(cannabinoids := Some(CannabinoidsOr(merged) + data.cannabinoids.value)) else merged;
    if data.terpenes.Some? && (TerpeneCount(data.terpenes) > 0 || TerpeneCount(merged.terpenes) == 0)
    then merged.(terpenes := data.terpenes) else merged
  }

  /** The fetched name is taken only when the product has none. */
  lemma CompareKeepsName(product: Insight, data: Insight)
    ensures product.name.Some? && product.name.value != [] ==> CompareMerge(product, data).name == product.name
    ensures (product.name.None? || product.name.value == []) && data.name.Some? && data.name.value != []
      ==> CompareMerge(product, data).name == data.name
  {
  }

  /** Without incoming cannabinoids the product's stay as they are. Incoming
      ones are spread over the product's: every fetched figure overwrites a
      cached figure under the same key, and only keys the fetch lacks keep
      their cached value. */
  lemma CompareCannabinoids(product: Insight, data: Insight)
    ensures data.cannabinoids.None? || data.cannabinoids.value == map[] ==>
      CompareMerge(product, data).cannabinoids == product.cannabinoids
    ensures data.cannabinoids.Some? && data.cannabinoids.value != map[] ==>
      var c := CompareMerge(product, data).cannabinoids;
      c.Some? && c.value.Keys == CannabinoidsOr(product).Keys + data.cannabinoids.value.Keys &&
      (forall k :: k in data.cannabinoids.value ==> c.value[k] == data.cannabinoids.value[k]) &&
      (forall k :: k in CannabinoidsOr(product) && k !in data.cannabinoids.value ==> c.value[k] == CannabinoidsOr(product)[k])
  {
  }

  /** A non-empty cached terpene profile survives a fetch that found none. */
  lemma NonEmptyProfileSurvives(product: Insight, data: Insight)
    requires TerpeneCount(product.terpenes) > 0 && TerpeneCount(data.terpenes) == 0
    ensures CompareMerge(product, data).terpenes == product.terpenes
  {
  }

  /** A fetched total-only object counts as one terpene, so it replaces a
      cached breakdown and the product is left without a detailed one. */
  lemma TotalReplacesBreakdown(product: Insight, data: Insight, total: Json)
    requires TerpeneCount(product.terpenes) > 0
    requires data.terpenes == Some(JObj([("Total Terpenes", total)]))
    ensures CompareMerge(product, data).terpenes == data.terpenes
    ensures !HasDetailedTerpeneBreakdown(CompareMerge(product, data).terpenes.value)
  {
    TotalFigureNotDetailed(total);
  }

  /** The cache merge, by contrast, lets the empty fetch result through. */
  lemma StoreLosesProfile(cached: Insight, data: Insight)
    requires TerpeneCount(cached.terpenes) > 0 && data.terpenes == Some(JArr([]))
    ensures TerpeneCount(StoreMerge(Some(cached), data).terpenes) == 0
    ensures TerpeneCount(CompareMerge(cached, data).terpenes) > 0
  {
  }
}
