/** `extractProductData`: the product record read from the product object a
    card's page state carries. */
module Product {
  import opened Text
  import opened JsonValue
  import opened Fold
  import opened Structural
  import opened Record

  const PRODUCT_PREFIX := "https://www.sunnyside.shop/product/"

  /** `s.replace(/^\/product\//, '')` */
  function StripProductPath(s: string): (r: string)
    ensures StartsWith(s, "/product/") ==> r == s[9..]
    ensures !StartsWith(s, "/product/") ==> r == s
  {
    if StartsWith(s, "/product/") then s[9..] else s
  }

  /** The page URL: from the slug, else from the id, else the fallback. */
  function ProductUrl(p: Json, fallback: Option<string>): Option<string>
  {
    var slug := OrChain([Get(p, "slug"), Get(p, "productSlug"), Get(p, "permalink"), Get(p, "handle")]);
    var id := OrChain([Get(p, "id"), Get(p, "productId"), Get(p, "slugId"), Get(p, "sku")]);
    if Truthy(slug) then Some(PRODUCT_PREFIX + StripProductPath(ToStr(slug)))
    else if Truthy(id) then Some(PRODUCT_PREFIX + ToStr(id))
    else if fallback.Some? && fallback.value != [] then fallback
    else None
  }

  /** The display name, as text. */
  function ProductName(p: Json): Option<string>
  {
    var n := OrChain([Get(p, "ecomm_display_name"), Get(p, "bt_product_name"), Get(p, "name"),
      Get(p, "productName"), Get(p, "displayName")]);
    if Truthy(n) then Some(ToStr(n)) else None
  }

  /** Where an alias is read: on the product object or on its `potency`. */
  datatype Alias = Top(key: string) | Potency(key: string)

  /** `productObj.potency || {}` */
  function PotencyOf(p: Json): Json
  {
    OrChain([Get(p, "potency"), JObj([])])
  }

  function AliasValue(p: Json, a: Alias): Json
  {
    match a
    case Top(k) => Get(p, k)
    case Potency(k) => Get(PotencyOf(p), k)
  }

  /** A cannabinoid row: the output key and its aliases in `??` order. */
  type FieldRow = (string, seq<Alias>)

  /** The alias rows, in the order the script assigns them: THC to CBC, then
      the two totals. */
  const CANNABINOID_FIELDS: seq<FieldRow> := [
    ("THC", [Top("thc"), Potency("thc"), Top("potency_thc"), Top("bt_potency_thc"), Top("thcPercent"), Top("thc_percentage")]),
    ("THCA", [Top("thca"), Potency("thca"), Top("potency_thca"), Top("bt_potency_thca")]),
    ("CBD", [Top("cbd"), Potency("cbd"), Top("potency_cbd"), Top("bt_potency_cbd"), Top("cbdPercent"), Top("cbd_percentage")]),
    ("CBDA", [Top("cbda"), Potency("cbda"), Top("potency_cbda"), Top("bt_potency_cbda")]),
    ("CBN", [Top("cbn"), Potency("cbn"), Top("potency_cbn"), Top("bt_potency_cbn")]),
    ("CBG", [Top("cbg"), Potency("cbg"), Top("potency_cbg"), Top("bt_potency_cbg")]),
    ("CBC", [Top("cbc"), Potency("cbc"), Top("potency_cbc"), Top("bt_potency_cbc")]),
    ("totalTHC", [Top("totalTHC"), Top("total_thc"), Potency("totalTHC"), Potency("total_thc"),
      Top("potency_thc_total"), Top("bt_potency_thc_total"), Top("usable_thc")]),
    ("totalCBD", [Top("totalCBD"), Top("total_cbd"), Potency("totalCBD"), Potency("total_cbd"),
      Top("potency_cbd_total"), Top("bt_potency_cbd_total"), Top("usable_cbd")])
  ]

  /** The `??` chain over `aliases`; `undefined` for no alias. */
  function AliasChain(p: Json, aliases: seq<Alias>): Json
  {
    if aliases == [] then JUndef else Coalesce(AliasValues(p, aliases))
  }

  function AliasValues(p: Json, aliases: seq<Alias>): (vs: seq<Json>)
    ensures |vs| == |aliases| && forall j :: 0 <= j < |aliases| ==> vs[j] == AliasValue(p, aliases[j])
  {
    seq(|aliases|, j requires 0 <= j < |aliases| => AliasValue(p, aliases[j]))
  }

  /** A value the alias rows store: neither null, undefined nor NaN. */
  predicate Storable(v: Json) { !Nullish(v) && !v.JNaN? }

  /** The upper-cased copy of the first `n` entries of `productObj.cannabinoids`,
      skipping null and undefined values; a later entry overwrites an earlier
      one with the same upper-cased key. */
  function CopiedUpTo(entries: seq<(string, Json)>, n: nat): map<string, Json>
    requires n <= |entries|
  {
    if n == 0 then map[]
    else
      var m := CopiedUpTo(entries, n - 1);
      var (k, v) := entries[n - 1];
      if Nullish(v) then m else m[UpperStr(k) := v]
  }

  function SourceEntries(p: Json): seq<(string, Json)>
  {
    var src := Get(p, "cannabinoids");
    if IsObjectRef(src) then Entries(src) else []
  }

  /** Each row's key with the value of its `??` chain. */
  function RowValues(p: Json, rows: seq<FieldRow>): (kvs: seq<(string, Json)>)
    ensures |kvs| == |rows|
    ensures forall f :: 0 <= f < |rows| ==> kvs[f] == (rows[f].0, AliasChain(p, rows[f].1))
  {
    RowPairs(rows, AliasRow(p))
  }

  /** A row's key and the value of its alias chain on `p`. */
  function AliasRow(p: Json): (row: FieldRow -> (string, Json))
    ensures forall r: FieldRow :: row(r) == (r.0, AliasChain(p, r.1))
  {
    (r: FieldRow) => (r.0, AliasChain(p, r.1))
  }

  /** `row` applied to each of `rows`. */
  function RowPairs<R>(rows: seq<R>, row: R -> (string, Json)): (kvs: seq<(string, Json)>)
    ensures |kvs| == |rows| && forall f :: 0 <= f < |rows| ==> kvs[f] == row(rows[f])
  {
    seq(|rows|, f requires 0 <= f < |rows| => row(rows[f]))
  }

  /** The first `n` row values written over `m`: each is stored under its
      key unless it is null, undefined or NaN. */
  function AppliedUpTo(m: map<string, Json>, kvs: seq<(string, Json)>, n: nat): map<string, Json>
    requires n <= |kvs|
  {
    if n == 0 then m
    else
      var m' := AppliedUpTo(m, kvs, n - 1);
      var (k, v) := kvs[n - 1];
      if Storable(v) then m'[k := v] else m'
  }

  /** The `cannabinoids` object `extractProductData` builds. */
  function ProductCannabinoids(p: Json): map<string, Json>
  {
    var es := SourceEntries(p);
    AppliedUpTo(CopiedUpTo(es, |es|), RowValues(p, CANNABINOID_FIELDS), |CANNABINOID_FIELDS|)
  }

  /** No terpene list found: `!terpenes || (Array.isArray(terpenes) && !terpenes.length)` */
  predicate NoTerpenes(t: Json)
  {
    !Truthy(t) || (t.JArr? && |t.items| == 0)
  }

  /** The terpene fallback chain, given the structural extraction of the
      product object and of its `potency` object. */
  function TerpeneChoice(p: Json, fromProduct: seq<Terpene>, fromPotency: seq<Terpene>): Option<Json>
  {
    var t := TerpenesJson(fromProduct);
    var t := if NoTerpenes(t) then TerpenesJson(fromPotency) else t;
    var t := if NoTerpenes(t) then Get(p, "terpenes") else t;
    var t := if NoTerpenes(t) then OrChain([Get(p, "terpeneProfile"), Get(p, "terpene_profile"), Get(p, "terpeneBlend")]) else t;
    var total := Coalesce([Get(p, "potency_terps"), Get(PotencyOf(p), "terps"), Get(p, "bt_potency_terps")]);
    var t := if NoTerpenes(t) && Storable(total) then JObj([("Total Terpenes", total)]) else t;
    if t.JUndef? then None else Some(t)
  }

  /** The record `extractProductData(p, fallbackUrl)` returns, `None` for
      `null`. */
  function ProductData(p: Json, fallback: Option<string>): Option<Insight>
  {
    if !IsObjectRef(p) then None
    else
      var c := ProductCannabinoids(p);
      var r := Insight(ProductUrl(p, fallback), ProductName(p), if |c| > 0 then Some(c) else None,
        TerpeneChoice(p, FoldAdd([], Candidates(p, 0)), FoldAdd([], Candidates(Get(p, "potency"), 0))));
      if r == EMPTY then None else Some(r)
  }

  /** The upper-cased copy of `productObj.cannabinoids`. */
  method CopyCannabinoids(p: Json) returns (cannabinoids: map<string, Json>)
    ensures cannabinoids == CopiedUpTo(SourceEntries(p), |SourceEntries(p)|)
  {
    cannabinoids := map[];
    var es := SourceEntries(p);
    var i := 0;
    while i < |es|
      invariant 0 <= i <= |es|
      invariant cannabinoids == CopiedUpTo(es, i)
    {
      var (k, v) := es[i];
      if !Nullish(v) {
        cannabinoids := cannabinoids[UpperStr(k) := v];
      }
      i := i + 1;
    }
  }

  /** The alias rows written over `copied`, in row order. */
  method ApplyAliases(p: Json, copied: map<string, Json>, rows: seq<FieldRow>) returns (cannabinoids: map<string, Json>)
    ensures cannabinoids == AppliedUpTo(copied, RowValues(p, rows), |rows|)
  {
    cannabinoids := ApplyRows(copied, rows, AliasRow(p));
  }

  /** `for (const r of rows) { const [key, v] = row(r); if (v is stored)
      m[key] = v; }` */
  method ApplyRows<R>(copied: map<string, Json>, rows: seq<R>, row: R -> (string, Json)) returns (m: map<string, Json>)
    ensures m == AppliedUpTo(copied, RowPairs(rows, row), |rows|)
  {
    m := copied;
    ghost var kvs := RowPairs(rows, row);
    for f := 0 to |rows|
      invariant m == AppliedUpTo(copied, kvs, f)
    {
      var (key, v) := row(rows[f]);
      if Storable(v) {
        m := m[key := v];
      }
    }
  }

  /** The terpene fallback chain; the `potency` object is walked only when
      the product object yields nothing. */
  method ChooseTerpenes(p: Json) returns (choice: Option<Json>)
    ensures choice == TerpeneChoice(p, FoldAdd([], Candidates(p, 0)), FoldAdd([], Candidates(Get(p, "potency"), 0)))
  {
    var fromProduct := ExtractTerpenesFromObject(p);
    var terpenes := TerpenesJson(fromProduct);
    if NoTerpenes(terpenes) {
      var fromPotency := ExtractTerpenesFromObject(Get(p, "potency"));
      terpenes := TerpenesJson(fromPotency);
    }
    if NoTerpenes(terpenes) {
      terpenes := Get(p, "terpenes");
    }
    if NoTerpenes(terpenes) {
      terpenes := OrChain([Get(p, "terpeneProfile"), Get(p, "terpene_profile"), Get(p, "terpeneBlend")]);
    }
    if NoTerpenes(terpenes) {
      var total := Coalesce([Get(p, "potency_terps"), Get(PotencyOf(p), "terps"), Get(p, "bt_potency_terps")]);
      if Storable(total) {
        terpenes := JObj([("Total Terpenes", total)]);
      }
    }
    choice := if terpenes.JUndef? then None else Some(terpenes);
  }

  /** `extractProductData(productObj, fallbackUrl)` */
  method ExtractProductData(p: Json, fallback: Option<string>) returns (r: Option<Insight>)
    ensures r == ProductData(p, fallback)
  {
    if !IsObjectRef(p) {
      return None;
    }
    var url := ProductUrl(p, fallback);
    var name := ProductName(p);
    var copied := CopyCannabinoids(p);
    var cannabinoids := ApplyAliases(p, copied, CANNABINOID_FIELDS);
    var terpenes := ChooseTerpenes(p);
    var result := Insight(url, name, if |cannabinoids| > 0 then Some(cannabinoids) else None, terpenes);
    r := if result == EMPTY then None else Some(result);
  }

  /** A copied key is the upper-cased key of an entry whose value is neither
      null nor undefined, and every such entry leaves its key. */
  lemma {:induction false} CopiedKeys(entries: seq<(string, Json)>, n: nat, k: string)
    requires n <= |entries|
    ensures k in CopiedUpTo(entries, n) <==> exists i :: 0 <= i < n && UpperStr(entries[i].0) == k && !Nullish(entries[i].1)
  {
    if n > 0 {
      CopiedKeys(entries, n - 1, k);
    }
  }

  /** The last such entry gives the copied value. */
  lemma {:induction false} CopiedValue(entries: seq<(string, Json)>, n: nat, i: nat)
    requires i < n <= |entries| && !Nullish(entries[i].1)
    requires forall j :: i < j < n ==> UpperStr(entries[j].0) != UpperStr(entries[i].0) || Nullish(entries[j].1)
    ensures UpperStr(entries[i].0) in CopiedUpTo(entries, n)
    ensures CopiedUpTo(entries, n)[UpperStr(entries[i].0)] == entries[i].1
  {
    if i < n - 1 {
      CopiedValue(entries, n - 1, i);
    }
  }

  /** Row value `i` is stored when it is neither null, undefined nor NaN and
      no later row has the same key. */
  lemma {:induction false} RowStored(m: map<string, Json>, kvs: seq<(string, Json)>, n: nat, i: nat)
    requires i < n <= |kvs| && Storable(kvs[i].1)
    requires forall j :: i < j < n ==> kvs[j].0 != kvs[i].0
    ensures kvs[i].0 in AppliedUpTo(m, kvs, n)
    ensures AppliedUpTo(m, kvs, n)[kvs[i].0] == kvs[i].1
  {
    if i < n - 1 {
      RowStored(m, kvs, n - 1, i);
    }
  }

  /** A key no row stores keeps its value in `m`, or stays absent. */
  lemma {:induction false} RowsKeepOthers(m: map<string, Json>, kvs: seq<(string, Json)>, n: nat, k: string)
    requires n <= |kvs|
    requires forall j :: 0 <= j < n && kvs[j].0 == k ==> !Storable(kvs[j].1)
    ensures k in AppliedUpTo(m, kvs, n) <==> k in m
    ensures k in m ==> AppliedUpTo(m, kvs, n)[k] == m[k]
  {
    if n > 0 {
      RowsKeepOthers(m, kvs, n - 1, k);
    }
  }

  /** No stored value is null or undefined. */
  lemma {:induction false} NoNullishStored(m: map<string, Json>, kvs: seq<(string, Json)>, n: nat)
    requires n <= |kvs| && forall k :: k in m ==> !Nullish(m[k])
    ensures forall k :: k in AppliedUpTo(m, kvs, n) ==> !Nullish(AppliedUpTo(m, kvs, n)[k])
  {
    if n > 0 {
      NoNullishStored(m, kvs, n - 1);
    }
  }

  lemma {:induction false} NoNullishCopied(entries: seq<(string, Json)>, n: nat)
    requires n <= |entries|
    ensures forall k :: k in CopiedUpTo(entries, n) ==> !Nullish(CopiedUpTo(entries, n)[k])
  {
    if n > 0 {
      NoNullishCopied(entries, n - 1);
    }
  }

  lemma FieldKeysDistinct()
    ensures forall i, j :: 0 <= i < j < |CANNABINOID_FIELDS| ==> CANNABINOID_FIELDS[i].0 != CANNABINOID_FIELDS[j].0
  {
  }

  /** The `??` chain yields the first alias, in listed order, that is
      neither null nor undefined. */
  lemma ChainFirstAlias(p: Json, aliases: seq<Alias>)
    requires !Nullish(AliasChain(p, aliases))
    ensures exists j :: 0 <= j < |aliases| && AliasChain(p, aliases) == AliasValue(p, aliases[j])
                        && forall l :: 0 <= l < j ==> Nullish(AliasValue(p, aliases[l]))
  {
    var vs := AliasValues(p, aliases);
    var j :| 0 <= j < |vs| && vs[j] == Coalesce(vs) && forall l :: 0 <= l < j ==> Nullish(vs[l]);
  }

  /** Each alias row whose chain yields a value that is neither null,
      undefined nor NaN overwrites the copied entry under its key. */
  lemma AliasWins(p: Json, i: nat)
    requires i < |CANNABINOID_FIELDS| && Storable(AliasChain(p, CANNABINOID_FIELDS[i].1))
    ensures CANNABINOID_FIELDS[i].0 in ProductCannabinoids(p)
    ensures ProductCannabinoids(p)[CANNABINOID_FIELDS[i].0] == AliasChain(p, CANNABINOID_FIELDS[i].1)
  {
    FieldKeysDistinct();
    var es := SourceEntries(p);
    RowStored(CopiedUpTo(es, |es|), RowValues(p, CANNABINOID_FIELDS), |CANNABINOID_FIELDS|, i);
  }

  /** A copied key that no row stores keeps its copied value. */
  lemma CopiedKeptUnlessAliased(p: Json, k: string)
    requires forall j :: 0 <= j < |CANNABINOID_FIELDS| && CANNABINOID_FIELDS[j].0 == k ==> !Storable(AliasChain(p, CANNABINOID_FIELDS[j].1))
    ensures var es := SourceEntries(p);
      && (k in ProductCannabinoids(p) <==> k in CopiedUpTo(es, |es|))
      && (k in ProductCannabinoids(p) ==> ProductCannabinoids(p)[k] == CopiedUpTo(es, |es|)[k])
  {
    var es := SourceEntries(p);
    RowsKeepOthers(CopiedUpTo(es, |es|), RowValues(p, CANNABINOID_FIELDS), |CANNABINOID_FIELDS|, k);
  }

  /** No value of the built `cannabinoids` object is null or undefined. */
  lemma NoNullishCannabinoid(p: Json)
    ensures forall k :: k in ProductCannabinoids(p) ==> !Nullish(ProductCannabinoids(p)[k])
  {
    var es := SourceEntries(p);
    NoNullishCopied(es, |es|);
    NoNullishStored(CopiedUpTo(es, |es|), RowValues(p, CANNABINOID_FIELDS), |CANNABINOID_FIELDS|);
  }

  /** The name is the first truthy name field, in the listed order, as
      text; there is none exactly when every name field is falsy. */
  lemma NameFirstTruthy(p: Json)
    ensures var fs := [Get(p, "ecomm_display_name"), Get(p, "bt_product_name"), Get(p, "name"),
        Get(p, "productName"), Get(p, "displayName")];
      (ProductName(p).None? <==> forall i :: 0 <= i < |fs| ==> !Truthy(fs[i])) &&
      (ProductName(p).Some? ==>
        exists i :: 0 <= i < |fs| && Truthy(fs[i]) && ProductName(p).value == ToStr(fs[i]) &&
          forall j :: 0 <= j < i ==> !Truthy(fs[j]))
  { }

  /** A text slug gives the product page of that slug, without a leading
      `/product/`. */
  lemma SlugUrl(p: Json, fallback: Option<string>, s: string)
    requires Get(p, "slug") == JStr(s) && s != []
    ensures ProductUrl(p, fallback) == Some(PRODUCT_PREFIX + StripProductPath(s))
  {
  }

  /** A slug given as a path loses its `/product/` prefix. */
  lemma SlugWithPath(p: Json, fallback: Option<string>, rest: string)
    requires Get(p, "slug") == JStr("/product/" + rest)
    ensures ProductUrl(p, fallback) == Some(PRODUCT_PREFIX + rest)
  {
    var s := "/product/" + rest;
    assert s[..9] == "/product/" && s[9..] == rest;
    SlugUrl(p, fallback, s);
  }

  /** The fallback URL is used only when neither a slug nor an id is found. */
  lemma FallbackUrl(p: Json, fallback: Option<string>)
    ensures ProductUrl(p, fallback).Some? && ProductUrl(p, fallback) != fallback ==>
      Truthy(OrChain([Get(p, "slug"), Get(p, "productSlug"), Get(p, "permalink"), Get(p, "handle")]))
      || Truthy(OrChain([Get(p, "id"), Get(p, "productId"), Get(p, "slugId"), Get(p, "sku")]))
    ensures ProductUrl(p, fallback).None? <==>
      !Truthy(OrChain([Get(p, "slug"), Get(p, "productSlug"), Get(p, "permalink"), Get(p, "handle")]))
      && !Truthy(OrChain([Get(p, "id"), Get(p, "productId"), Get(p, "slugId"), Get(p, "sku")]))
      && (fallback.None? || fallback.value == [])
  {
  }

  /** A breakdown found by the structural walk of the product object is the
      record's terpene list. */
  lemma StructuralTerpenesWin(p: Json, fallback: Option<string>)
    requires IsObjectRef(p) && FoldAdd([], Candidates(p, 0)) != []
    ensures ProductData(p, fallback).Some?
    ensures ProductData(p, fallback).value.terpenes == Some(TerpenesJson(FoldAdd([], Candidates(p, 0))))
  {
    var a := FoldAdd([], Candidates(p, 0));
    var b := FoldAdd([], Candidates(Get(p, "potency"), 0));
    FoundListChosen(p, a, b);
    ChoiceRecorded(p, fallback, a, b);
  }

  /** Whatever terpene value the fallback chain settles on is recorded. */
  lemma ChoiceRecorded(p: Json, fallback: Option<string>, a: seq<Terpene>, b: seq<Terpene>)
    requires IsObjectRef(p) && a == FoldAdd([], Candidates(p, 0)) && b == FoldAdd([], Candidates(Get(p, "potency"), 0))
    requires TerpeneChoice(p, a, b).Some?
    ensures ProductData(p, fallback) == Some(Insight(ProductUrl(p, fallback), ProductName(p),
      if |ProductCannabinoids(p)| > 0 then Some(ProductCannabinoids(p)) else None, TerpeneChoice(p, a, b)))
  {
  }

  lemma FoundListChosen(p: Json, fromProduct: seq<Terpene>, fromPotency: seq<Terpene>)
    requires fromProduct != []
    ensures TerpeneChoice(p, fromProduct, fromPotency) == Some(TerpenesJson(fromProduct))
  {
    assert |TerpenesJson(fromProduct).items| > 0;
  }

  /** With nothing else to go on, the total terpene figure stands in for the
      breakdown: the first of `potency_terps`, `potency.terps` and
      `bt_potency_terps` that is neither null nor undefined, when that is not
      NaN. */
  lemma TotalTerpenesFallback(p: Json, fallback: Option<string>)
    requires IsObjectRef(p) && FoldAdd([], Candidates(p, 0)) == [] && FoldAdd([], Candidates(Get(p, "potency"), 0)) == []
    requires NoTerpenes(Get(p, "terpenes"))
    requires NoTerpenes(OrChain([Get(p, "terpeneProfile"), Get(p, "terpene_profile"), Get(p, "terpeneBlend")]))
    requires Storable(Coalesce([Get(p, "potency_terps"), Get(PotencyOf(p), "terps"), Get(p, "bt_potency_terps")]))
    ensures ProductData(p, fallback).Some?
    ensures ProductData(p, fallback).value.terpenes == Some(JObj([("Total Terpenes", Coalesce([Get(p, "potency_terps"), Get(PotencyOf(p), "terps"), Get(p, "bt_potency_terps")]))]))
  {
    var a := FoldAdd([], Candidates(p, 0));
    var b := FoldAdd([], Candidates(Get(p, "potency"), 0));
    TotalChosen(p, a, b);
    ChoiceRecorded(p, fallback, a, b);
  }

  lemma TotalChosen(p: Json, fromProduct: seq<Terpene>, fromPotency: seq<Terpene>)
    requires fromProduct == [] && fromPotency == []
    requires NoTerpenes(Get(p, "terpenes"))
    requires NoTerpenes(OrChain([Get(p, "terpeneProfile"), Get(p, "terpene_profile"), Get(p, "terpeneBlend")]))
    requires Storable(Coalesce([Get(p, "potency_terps"), Get(PotencyOf(p), "terps"), Get(p, "bt_potency_terps")]))
    ensures TerpeneChoice(p, fromProduct, fromPotency) == Some(JObj([("Total Terpenes", Coalesce([Get(p, "potency_terps"), Get(PotencyOf(p), "terps"), Get(p, "bt_potency_terps")]))]))
  {
  }

  /** `null` exactly for a non-object or when nothing at all was found. */
  lemma NullResult(p: Json, fallback: Option<string>)
    ensures ProductData(p, fallback).None? <==>
      !IsObjectRef(p) ||
      (ProductUrl(p, fallback).None? && ProductName(p).None? && |ProductCannabinoids(p)| == 0
       && TerpeneChoice(p, FoldAdd([], Candidates(p, 0)), FoldAdd([], Candidates(Get(p, "potency"), 0))).None?)
  {
  }
}
