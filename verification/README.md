# Sunnyside Insights: the data engine, modelled in Dafny

Sunnyside Insights is a userscript for the sunnyside.shop cannabis store. When
a product card is hovered, it shows the product's cannabinoid and terpene
percentages. It can also put up to three products side by side in a comparison
table. Under the DOM and network code there is a small deterministic engine,
and this project models that engine:

- `canonicalizeTerpeneName` and `parsePercent`;
- `extractTerpenesFromObject`, the depth-bounded structural scan of an untyped
  product object with its `addResult` fold;
- `extractProductData`, which covers the URL, the name, the cannabinoid alias
  chains and the terpene fallback chain;
- the regular-expression passes of `fetchProductDetails` over the page text;
- the cache merge of `storeProductData` and the merge in the comparison view;
- the `has*` predicates and the decision whether to fetch;
- the comparison table's data side: row labels, `readCannabinoid`,
  `normalizeTerpenes`, row visibility, and max / second / muted highlighting;
- the selection list that the card buttons toggle.

Values are modelled by `JsonValue.Json`. It has `JUndef`, `JNull`, `JBool`,
`JNum(real)`, `JNaN`, `JStr`, `JArr` and `JObj`, and an object keeps its keys
in insertion order. A product record is `Record.Insight`: four optional fields,
where absent stands for an `undefined` key. A folded terpene is
`Fold.Terpene(name, percentage: real)`. Its percentage is a real number, so
the result of a fold cannot hold null or NaN.

The module layout follows the script:

| Module | What it models |
|---|---|
| `Text`, `JsonValue` | string and value helpers: `trim`, case mapping, `??` as `Coalesce`, `\|\|` as `OrChain` |
| `Percent` | `parsePercent` |
| `Canon` | `canonicalizeTerpeneName` |
| `Fold` | `addResult` |
| `Structural` | `extractTerpenesFromObject` |
| `Record` | the record type and the `has*` predicates |
| `Product` | `extractProductData` |
| `Merge` | the two merges; the card's cache slot is the class `ProductCard` |
| `Pattern`, `TextScan` | the regex passes |
| `Order` | string order and the sort of a label set |
| `Compare` | labels, reads and terpene maps |
| `Rank` | visibility and highlighting |
| `Selection` | the selection list, as the class `SelectionList` |

The state-changing code is written as methods, and each method is proved equal
to a specification function. These are:

- the recursive scan, which threads `results`;
- the `re.exec` loop;
- the key-by-key filling of `cannabinoids`;
- the writes into `map`;
- the `Set` loop;
- the cache write;
- `splice` and `push` on the selection list.

The properties are proved about those functions.

Some of what the model shows is behaviour of the code as written:

- Every synonym of "Caryophyllene Oxide" contains `caryophyllene`. That word
  belongs to the first table entry, so the name "Caryophyllene Oxide" is never
  returned (`Canon.CaryophylleneOxideShadowed`).
- In the text pass, the Alpha-Pinene alternative `a-pinene` matches inside
  "Beta-Pinene 0.3%", starting at its fourth character: `re.exec` returns that
  leftmost match. That text therefore reports Alpha-Pinene as well
  (`TextScan.PhantomAlphaPinene`).
- The object spread in `storeProductData` already copies every key of the
  partial record. The guard on `terpenes` and the copy of `url` that follow it
  therefore change nothing (`Merge.StoreMergeIsSpread`). In particular, an
  empty incoming list replaces a cached breakdown
  (`Merge.EmptyListReplacesBreakdown`, `Merge.StoreLosesProfile`).
- The comparison view's merge is commented as not clobbering cached values,
  but it does so in two cases. The fetched cannabinoids are spread last, so a
  fetched capture such as `"21.0"` overwrites a cached figure under the same
  key (`Merge.CompareCannabinoids`). A fetched `{'Total Terpenes': n}` counts
  as one terpene, so it replaces a cached detailed breakdown and leaves only
  the total (`Merge.TotalReplacesBreakdown`).
- The branch for keys containing `terp` recurses exactly like the generic
  object branch (`Structural.TerpBranchLikeGeneric`).
- The fetch stores the regex captures as strings, under the key `CBDa` rather
  than `CBDA`. `readCannabinoid` reads `CBDa` for the `CBDA` row, and `CBDa` is
  also an extra label, so the same value shows in two rows
  (`Compare.CbdaShownTwice`).
- A blank string counts as a detailed breakdown but not as terpene information
  (`Record.BlankTextDetailed`).
- The alias rows of `extractProductData` store the raw alias values, not
  parsed numbers, so a string such as `"22.4%"` is kept as it is.

## Model

| member | source | states |
|---|---|---|
| JsonValue.Coalesce | sunnyside-insights.user.js:253-259 | a `??` chain yields one of its operands, namely the first that is neither null nor undefined; it is nullish exactly when all operands are |
| JsonValue.OrChain | sunnyside-insights.user.js:231-238 | an `\|\|` chain yields one of its operands; it is truthy exactly when some operand is, and then it is the first truthy one |
| Percent.ParsePercent | sunnyside-insights.user.js:109-119 | null or undefined give null; a number (NaN included) is returned unchanged; any other value gives the parse of its trimmed text |
| Percent.ParseText | sunnyside-insights.user.js:112-118 | the string case never yields NaN; it yields null exactly when the text has no digit; a number it yields is never negative |
| Percent.IntegerNumeral | sunnyside-insights.user.js:113-116 | digit-free text, then digits not followed by `.digit`, parses to the integer value of those digits |
| Percent.FractionalNumeral | sunnyside-insights.user.js:113-116 | digit-free text, then `digits.digits`, parses to that decimal value |
| Percent.IntegerText | sunnyside-insights.user.js:113-116 | a captured `d+` or `d+.` parses to the integer value of its digits |
| Percent.PointNumeralText | sunnyside-insights.user.js:113-116 | a captured `d+.d+` parses to its decimal value |
| Percent.MinusSignIgnored | sunnyside-insights.user.js:113 | `"-5"` parses as 5, because the pattern has no sign |
| Percent.PercentText | sunnyside-insights.user.js:113-116 | `"37.5%"` parses as 37.5 |
| Percent.NoDigitText | sunnyside-insights.user.js:113-118 | `"n/a"` parses as null |
| Canon.FirstEntry | sunnyside-insights.user.js:103-106 | the loop's result is the first table entry at or after `from` with a synonym inside the key; none exactly when no such entry exists |
| Canon.Canonicalize | sunnyside-insights.user.js:101-107 | a result is always one of the table's canonical names; null exactly when no synonym of any entry occurs in the lower-cased, `_`-to-`-`, trimmed key |
| Canon.CanonicalizeIsFirstMatch | sunnyside-insights.user.js:101-106 | the result is entry j's name if and only if entry j matches and no earlier entry does |
| Canon.CaryophylleneOxideShadowed | sunnyside-insights.user.js:81-107 | no input canonicalises to "Caryophyllene Oxide" |
| Canon.OxideSynonymsMatchFirstEntry | sunnyside-insights.user.js:81-99 | any key matching a Caryophyllene Oxide synonym also matches the first entry |
| Canon.CaryophylleneOxideExample | sunnyside-insights.user.js:101-105 | "Caryophyllene Oxide" canonicalises to "Beta-Caryophyllene" |
| Canon.NamesDistinct | sunnyside-insights.user.js:81-99 | the 17 canonical names are pairwise distinct |
| Canon.SynonymsAtLeastSix | sunnyside-insights.user.js:81-99 | every synonym is at least six characters long |
| Canon.ShortInputUnknown | sunnyside-insights.user.js:101-106 | a key shorter than six characters after normalisation canonicalises to null |
| Canon.NullishUnknown | sunnyside-insights.user.js:102 | null and undefined canonicalise to null, and their display label is `String(raw)` |
| Canon.LabelOf | sunnyside-insights.user.js:137 | the canonical name when the value canonicalises, else the value as text; null and undefined keep their text (NullishUnknown) |
| Canon.MyrceneAbbreviation | sunnyside-insights.user.js:101-105 | "B-Myrcene" canonicalises to "Beta-Myrcene" |
| Canon.BMyrceneUnshadowed | sunnyside-insights.user.js:81-86 | "b-myrcene" matches none of the four entries before Beta-Myrcene |
| Canon.BetaCaryophylleneCanonical | sunnyside-insights.user.js:101-106 | "Beta-Caryophyllene" canonicalises to itself |
| Canon.AlphaPineneCanonical | sunnyside-insights.user.js:81-106 | "Alpha-Pinene" canonicalises to itself: no synonym of the six earlier entries, Beta-Pinene's included, occurs in it |
| Canon.UnderscoreSpelling | sunnyside-insights.user.js:102-105 | "Beta_Caryophyllene" canonicalises to "Beta-Caryophyllene" |
| Fold.IndexOfName | sunnyside-insights.user.js:127 | `results.find` by name: the first index holding the name, none exactly when no entry has it |
| Fold.AddResult | sunnyside-insights.user.js:125-130 | one `addResult` call, in place, equals the fold step `Add` |
| Fold.FoldAddAppend | sunnyside-insights.user.js:125-130 | folding `a + b` equals folding `b` after folding `a` |
| Fold.FirstAt | sunnyside-insights.user.js:126-128 | a found position holds an accepted candidate with the name |
| Fold.FirstAtIsFirst | sunnyside-insights.user.js:126-128 | no accepted candidate with the name comes before the found position; none is found exactly when there is no such candidate |
| Fold.MaxFor | sunnyside-insights.user.js:129 | the largest accepted percentage given for a name; none exactly when the name has no accepted candidate |
| Fold.AddRejected | sunnyside-insights.user.js:126 | a candidate without a name, or with a null or NaN percentage, keeps the summary of all candidates so far |
| Fold.AddNew | sunnyside-insights.user.js:128 | pushing a new name keeps the summary: distinct names, each holding the maximum for its name, every accepted name present, first-seen order |
| Fold.AddExisting | sunnyside-insights.user.js:129 | raising an existing entry to a larger percentage keeps the summary |
| Fold.FoldAddSummarizes | sunnyside-insights.user.js:125-130 | the fold of any candidate list has distinct names; each holds the maximum accepted percentage for that name; every accepted name is present; names are ordered by first appearance |
| Structural.Candidates | sunnyside-insights.user.js:132-172 | the candidates the walk adds, in scan order: folding them equals the scan (Scan, ExtractTerpenesFromObject); below depth 3 there are none (BelowMaxDepthIgnored, ItemAtMaxDepth, EntryAtMaxDepth) |
| Structural.Scan | sunnyside-insights.user.js:132-172 | `scan(obj, depth)`, threading `results`, equals folding `addResult` over the object's candidates in scan order |
| Structural.ScanItems | sunnyside-insights.user.js:134-144 | the array branch equals folding over its items' candidates |
| Structural.ScanItem | sunnyside-insights.user.js:135-143 | an array item is added when it has `name` and `percentage`, and is scanned one level deeper otherwise |
| Structural.ScanFields | sunnyside-insights.user.js:146-171 | the object branch equals folding over its entries' candidates, in key order |
| Structural.ScanEntry | sunnyside-insights.user.js:147-170 | one entry: a terpene key, a named value, or a scan one level deeper |
| Structural.ExtractTerpenesFromObject | sunnyside-insights.user.js:121-176 | the result is the fold of the candidates; it has the summary properties of `Fold.FoldAddSummarizes`; a non-object source gives `[]` |
| Structural.TerpBranchLikeGeneric | sunnyside-insights.user.js:164-170 | a key containing `terp` yields the same candidates as the generic branch |
| Structural.NamedValueEntry | sunnyside-insights.user.js:155-162 | an unknown key whose value has `name` and a percentage field yields exactly that one candidate |
| Structural.BelowMaxDepthIgnored | sunnyside-insights.user.js:133 | for every value, a scan below depth 3 reports nothing |
| Structural.ItemAtMaxDepth | sunnyside-insights.user.js:133-143 | for every array item at depth 3: it is reported when it has the `{name, percentage}` shape, and nothing inside it is looked at |
| Structural.EntryAtMaxDepth | sunnyside-insights.user.js:146-170 | for every entry at depth 3: only its key's terpene name or its value's `{name, percentage}` shape is reported, and nothing inside the value is looked at |
| Structural.DeepValueIgnored | sunnyside-insights.user.js:133 | a value under five `{data: …}` wrappers is never scanned |
| Structural.ShallowValueFound | sunnyside-insights.user.js:132-161 | a named value under four `{data: …}` wrappers is found |
| Structural.LastWrapFound | sunnyside-insights.user.js:133 | a `{data: …}` wrapper at depth 3 is still scanned, and its named value is reported |
| Record.HasCannabinoidInfo | sunnyside-insights.user.js:35-43 | some cannabinoid value is a number other than NaN, a non-blank string, or another non-nullish value; with `ShouldFetch`, a numeric cannabinoid counts as information (CompleteRecordNotFetched) |
| Record.HasTerpeneInfo | sunnyside-insights.user.js:49-55 | a non-empty list, an object with a key, or a non-blank string; every non-string detailed breakdown has information (DetailedHasInfo), a blank string has none (BlankTextDetailed) |
| Record.HasDetailedTerpeneBreakdown | sunnyside-insights.user.js:57-78 | a list of `{name, percentage}` objects is detailed (BreakdownDetailed), a lone `{'Total Terpenes': x}` is not (TotalFigureNotDetailed), a blank string is (BlankTextDetailed) |
| Record.ShouldFetch | sunnyside-insights.user.js:948-958 | fetch when there is a URL and the cached cannabinoids carry no information or the terpenes are not detailed (TotalOnlyRefetched, CompleteRecordNotFetched, NoUrlNoFetch) |
| Record.TerpenesJson | sunnyside-insights.user.js:128 | the folded list as the `{name, percentage}` objects the script returns, one per entry and in order |
| Record.DetailedHasInfo | sunnyside-insights.user.js:49-78 | a non-string detailed breakdown always has terpene information |
| Record.BlankTextDetailed | sunnyside-insights.user.js:53-76 | a blank string is detailed but has no terpene information |
| Record.TotalKeyMentions | sunnyside-insights.user.js:59 | the key "Total Terpenes" matches `total\s*terpene` |
| Record.BreakdownDetailed | sunnyside-insights.user.js:57-70 | a non-empty list of `{name, percentage}` objects is a detailed breakdown |
| Record.TotalFigureNotDetailed | sunnyside-insights.user.js:72-75 | `{'Total Terpenes': x}` is not a detailed breakdown |
| Record.TotalOnlyRefetched | sunnyside-insights.user.js:936-958 | a cached record whose terpenes are only a total is fetched again |
| Record.CompleteRecordNotFetched | sunnyside-insights.user.js:936-961 | a cached record with a numeric cannabinoid and a detailed item is not fetched |
| Record.NoUrlNoFetch | sunnyside-insights.user.js:948-955 | without a URL nothing is fetched |
| Product.StripProductPath | sunnyside-insights.user.js:233 | a leading `/product/` is removed, and any other text is unchanged |
| Product.ProductUrl | sunnyside-insights.user.js:231-235 | a string slug gives its shop URL (SlugUrl); otherwise an id or the fallback, and none exactly when all are missing (FallbackUrl) |
| Product.NameFirstTruthy | sunnyside-insights.user.js:238 | the name is the first truthy name field, in the listed order, as text; there is none exactly when every name field is falsy |
| Product.ProductName | sunnyside-insights.user.js:238 | the first truthy of the five name fields, as text (NameFirstTruthy) |
| Product.SlugUrl | sunnyside-insights.user.js:231-233 | a non-empty string slug gives the shop URL of the stripped slug |
| Product.SlugWithPath | sunnyside-insights.user.js:233 | a slug `/product/x` gives the URL ending in `x` |
| Product.FallbackUrl | sunnyside-insights.user.js:231-235 | a URL other than the fallback comes from a truthy slug or id; there is no URL exactly when there is no slug, no id and no usable fallback |
| Product.CopyCannabinoids | sunnyside-insights.user.js:240-248 | the loop over `productObj.cannabinoids` builds the upper-cased copy |
| Product.CopiedKeys | sunnyside-insights.user.js:242-247 | a key is in the copy exactly when some entry upper-cases to it with a value that is neither null nor undefined |
| Product.CopiedValue | sunnyside-insights.user.js:243-246 | the last such entry's value is kept |
| Product.ApplyRows | sunnyside-insights.user.js:262-276 | the row loop writes each storable row value over the copy |
| Product.ApplyAliases | sunnyside-insights.user.js:252-276 | the alias rows' values are written over the copy in row order |
| Product.ChainFirstAlias | sunnyside-insights.user.js:253-259 | a row's value is its first alias, in listed order, that is neither null nor undefined |
| Product.FieldKeysDistinct | sunnyside-insights.user.js:252-276 | the nine row keys are distinct |
| Product.RowStored | sunnyside-insights.user.js:262-266 | a storable row value is stored under its key unless a later row writes the same key |
| Product.RowsKeepOthers | sunnyside-insights.user.js:262-266 | a key that no row stores keeps its copied value |
| Product.AliasWins | sunnyside-insights.user.js:252-276 | a row value that is not null, undefined or NaN overwrites the copied entry with the same key |
| Product.CopiedKeptUnlessAliased | sunnyside-insights.user.js:240-266 | without a storable row value, the copied entry is what remains |
| Product.NoNullishCannabinoid | sunnyside-insights.user.js:244-263 | the cannabinoids never hold null or undefined |
| Product.ChooseTerpenes | sunnyside-insights.user.js:279-297 | the fallback chain, step by step, equals `TerpeneChoice` |
| Product.FoundListChosen | sunnyside-insights.user.js:279-281 | a non-empty structural extraction of the product is chosen |
| Product.TerpeneChoice | sunnyside-insights.user.js:279-297 | a non-empty structural list wins (FoundListChosen); with nothing else found, the total figure stands in (TotalChosen) |
| Product.TotalChosen | sunnyside-insights.user.js:292-297 | with no list, profile or blend found, the first of `potency_terps`, `potency.terps`, `bt_potency_terps` that is not nullish gives `{'Total Terpenes': n}` when it is not NaN |
| Product.ExtractProductData | sunnyside-insights.user.js:228-307 | the method's result equals the record `ProductData` |
| Product.StructuralTerpenesWin | sunnyside-insights.user.js:279-303 | the record of a product with a structural breakdown carries that breakdown |
| Product.TotalTerpenesFallback | sunnyside-insights.user.js:279-303 | the record carries `{'Total Terpenes': n}`, with `n` taken from the `??` chain of line 293, when nothing else was found |
| Product.ChoiceRecorded | sunnyside-insights.user.js:299-306 | a found terpene value, together with the URL, name and non-empty cannabinoids, makes up the returned record |
| Product.NullResult | sunnyside-insights.user.js:229-306 | the result is null exactly when the input is not an object, or URL, name, cannabinoids and terpenes are all absent |
| Product.ProductData | sunnyside-insights.user.js:228-306 | null exactly for a non-object or an empty record (NullResult); otherwise the URL, name, non-empty cannabinoids and chosen terpenes (ChoiceRecorded) |
| Merge.ProductCard.StoreProductData | sunnyside-insights.user.js:194-226 | the cache slot becomes the merge of its old record with the partial one |
| Merge.StoreMergeIsSpread | sunnyside-insights.user.js:198-219 | the merge equals the plain spread: the terpene guard and the URL copy change nothing |
| Merge.StoreMerge | sunnyside-insights.user.js:198-219 | the cache merge: equal to the spread of the partial over the cached record (StoreMergeIsSpread), keeping absent keys (StoreKeepsAbsentKeys), merging cannabinoids key by key (StoreCannabinoids), idempotent (StoreIdempotent) |
| Merge.StoreKeepsAbsentKeys | sunnyside-insights.user.js:198-205 | a key missing from the partial keeps its cached value; a key present in it, terpenes included, takes the partial's value |
| Merge.StoreCannabinoids | sunnyside-insights.user.js:201-204 | the merged cannabinoids have the union of the keys; incoming values win and other cached values remain |
| Merge.StoreIdempotent | sunnyside-insights.user.js:194-226 | merging the same partial twice equals merging it once |
| Merge.EmptyListReplacesBreakdown | sunnyside-insights.user.js:198-215 | an incoming empty list replaces the cached terpenes, and the record is then not detailed |
| Merge.CompareKeepsName | sunnyside-insights.user.js:1220 | the fetched name is used only when the product has no name |
| Merge.CompareMerge | sunnyside-insights.user.js:1217-1231 | the comparison merge: the product's name wins (CompareKeepsName); fetched cannabinoid figures overwrite cached ones under the same key and the others survive (CompareCannabinoids); a non-empty profile is not replaced by an empty one (NonEmptyProfileSurvives, StoreLosesProfile), but a fetched total-only object replaces a breakdown (TotalReplacesBreakdown) |
| Merge.CompareCannabinoids | sunnyside-insights.user.js:1221-1223 | without incoming cannabinoids the product's stay as they are; otherwise the merged keys are the union, every fetched figure overwrites the cached one under its key, and every other cached figure survives |
| Merge.NonEmptyProfileSurvives | sunnyside-insights.user.js:1224-1230 | a non-empty cached profile survives a fetch with no terpenes |
| Merge.TotalReplacesBreakdown | sunnyside-insights.user.js:1224-1229 | a fetched `{'Total Terpenes': x}` replaces a non-empty cached profile, and the merged terpenes are then not a detailed breakdown |
| Merge.StoreLosesProfile | sunnyside-insights.user.js:1224-1230 | for an incoming empty list, the cache merge drops the profile but the comparison merge keeps it |
| Pattern.PercentNumeralEndIff | sunnyside-insights.user.js:852 | the numeral scanner ends at `end` exactly when `digits(.digits)?%` spans from its start to `end` |
| Pattern.SynonymMatchEndIff | sunnyside-insights.user.js:851-852 | a synonym match ends at `end` exactly when the synonym occurs there (ignoring case), followed by separators and a percent numeral ending at `end` |
| Pattern.CannabinoidAt | sunnyside-insights.user.js:804-817 | a capture starts after the name and at least one `:` or space |
| Pattern.CaptureReadsBack | sunnyside-insights.user.js:804-817 | the captured `\d+\.?\d*` text starts with a digit and parses back to the value of the numeral there |
| Pattern.IntegerCapture | sunnyside-insights.user.js:804 | a capture `d+` before `%` reads back as the numeral |
| Pattern.PointCapture | sunnyside-insights.user.js:804 | a capture `d+.` before `%` reads back as the numeral |
| Pattern.FractionCapture | sunnyside-insights.user.js:804 | a capture `d+.d+` before `%` reads back as the numeral |
| Pattern.TotalAt | sunnyside-insights.user.js:899-903 | a total-terpenes match begins with `total` and its value is not negative |
| Pattern.FirstTotalLeftmost | sunnyside-insights.user.js:899 | the total-terpenes figure is taken from the leftmost match; there is none exactly when no position matches |
| TextScan.MatchAt | sunnyside-insights.user.js:852 | a match at a position is the first alternative that matches there; none exactly when no synonym matches there |
| TextScan.NextMatch | sunnyside-insights.user.js:854 | `re.exec` finds the leftmost match at or after `lastIndex`; none exactly when there is no match |
| TextScan.ScanEntryText | sunnyside-insights.user.js:852-864 | one entry's `exec` loop equals folding its hits, taken left to right and without overlap |
| TextScan.ScanSection | sunnyside-insights.user.js:850-865 | the whole pass equals the fold of all entries' hits in table order, and has the fold's summary properties |
| TextScan.SectionTerpenesCanonical | sunnyside-insights.user.js:850-865 | every reported name is a canonical table name, and its percentage is not negative |
| TextScan.EntryMatchReported | sunnyside-insights.user.js:850-865 | an entry with a match anywhere in the text is reported |
| TextScan.PhantomAlphaPinene | sunnyside-insights.user.js:836-865 | "Beta-Pinene 0.3%" also reports Alpha-Pinene |
| TextScan.FirstCannabinoidLeftmost | sunnyside-insights.user.js:804-817 | a cannabinoid regex captures at its leftmost matching position; there is no capture exactly when nothing matches |
| TextScan.TextCannabinoidsKeys | sunnyside-insights.user.js:797-817 | a key is stored exactly when its regex matches, and the value stored is the captured text |
| TextScan.TextCannabinoids | sunnyside-insights.user.js:797-817 | a key is stored exactly when its regex matches, with the captured text (TextCannabinoidsKeys) |
| TextScan.TextFiguresParse | sunnyside-insights.user.js:804-817 | every stored capture parses to a number |
| TextScan.ChooseFetchedTerpenes | sunnyside-insights.user.js:894-910 | the fetched terpenes are the breakdown list, else the total figure, else the empty list |
| TextScan.FetchProductDetails | sunnyside-insights.user.js:782-912 | an empty URL gives the error record; otherwise the record holds the cannabinoid captures, the chosen terpenes and the URL |
| TextScan.FetchedDetailedIff | sunnyside-insights.user.js:894-910 | the fetched terpenes are detailed exactly when the text pass found a terpene |
| TextScan.FetchedTerpenes | sunnyside-insights.user.js:894-910 | detailed exactly when a terpene was found (FetchedDetailedIff); has information exactly when a terpene or a total was found (FetchedInfoIff) |
| TextScan.FetchedRecord | sunnyside-insights.user.js:797-912 | the record passed to the callback: cannabinoid captures, chosen terpenes and the URL (FetchProductDetails) |
| TextScan.FetchedInfoIff | sunnyside-insights.user.js:894-910 | the fetched terpenes have information exactly when a terpene or a total figure was found |
| Order.BelowIrreflexive | sunnyside-insights.user.js:1372 | no label sorts before itself |
| Order.BelowTransitive | sunnyside-insights.user.js:1372 | the sort order is transitive |
| Order.BelowTotal | sunnyside-insights.user.js:1372 | of two different labels, one sorts before the other |
| Order.SortLabels | sunnyside-insights.user.js:1372 | the sorted labels are strictly increasing and are exactly the set's elements |
| Order.IncreasingUnique | sunnyside-insights.user.js:1372 | an increasing list is determined by its elements, so the sort has exactly one result |
| Compare.PreferredDistinct | sunnyside-insights.user.js:1310 | the nine preferred labels are distinct |
| Compare.ExtraKeys | sunnyside-insights.user.js:1366-1371 | `extraCanna` holds exactly the non-preferred cannabinoid keys of the products so far |
| Compare.CannabinoidLabels | sunnyside-insights.user.js:1365-1372 | the rows are the preferred labels in order, then, increasing, exactly the non-preferred keys that some product has |
| Compare.LabelsDistinct | sunnyside-insights.user.js:1372 | no label appears twice among the rows |
| Compare.Aliases | sunnyside-insights.user.js:1313-1324 | every row label has at least one alias to read |
| Compare.ReadFirstPresent | sunnyside-insights.user.js:1311-1324 | `readCannabinoid` returns the first alias, in listed order, that is neither null nor undefined |
| Compare.ReadCannabinoid | sunnyside-insights.user.js:1311-1325 | the first alias of the label that is neither null nor undefined (ReadFirstPresent); an extra label reads its own key (ExtraReadsOwnKey) |
| Compare.ExtraReadsOwnKey | sunnyside-insights.user.js:1323 | an extra label reads its own key |
| Compare.CbdaShownTwice | sunnyside-insights.user.js:1317-1369 | a fetched `CBDa` value is read by the `CBDA` row and by its own extra row |
| Compare.ThcFallsBackToTotal | sunnyside-insights.user.js:1314 | without a THC key, the THC row shows `totalTHC` |
| Compare.Guarded | sunnyside-insights.user.js:1341 | a write happens only with a non-empty name and a non-null number |
| Compare.ItemWrite | sunnyside-insights.user.js:1337-1346 | a list element writes only a non-empty name with a non-null value |
| Compare.FieldWrite | sunnyside-insights.user.js:1351-1355 | an object entry writes only a non-empty name with a non-null value |
| Compare.ForEachWrite | sunnyside-insights.user.js:1336-1355 | the `forEach` writing into `map` equals applying its writes in order |
| Compare.ApplyLastWins | sunnyside-insights.user.js:1336-1355 | a name is in the map exactly when some write names it, and the value kept is that of the last such write |
| Compare.NormalizeTerpenes | sunnyside-insights.user.js:1332-1363 | the method's map equals `Normalized` |
| Compare.Normalized | sunnyside-insights.user.js:1332-1363 | the name-to-number map: for a list, each name holds its last write (ApplyLastWins); no empty name or null value (NormalizedNoNull); a string gives at most the total (NormalizedText) |
| Compare.NormalizedNoNull | sunnyside-insights.user.js:1332-1363 | the normalised map has no empty name and no null value |
| Compare.NormalizedText | sunnyside-insights.user.js:1358-1361 | a string gives at most the key "Total Terpenes"; it has that key exactly when the string parses to a number, and then holds that number |
| Compare.NameUnion | sunnyside-insights.user.js:1429-1431 | the terpene name set holds exactly the keys of the products' maps |
| Compare.TerpeneLabels | sunnyside-insights.user.js:1428-1432 | the terpene rows are increasing and are exactly the union of the maps' keys |
| Compare.CannabinoidCells | sunnyside-insights.user.js:1376 | one cell per product: the parse of `readCannabinoid` for the row |
| Compare.TerpeneCells | sunnyside-insights.user.js:1448 | one cell per product: its map's value for the name, or null |
| Rank.Largest | sunnyside-insights.user.js:1405-1409 | the largest positive value below the bound, or none when there is no such value |
| Rank.VisibleIffMax | sunnyside-insights.user.js:1377-1381 | a row is shown exactly when it has a positive value; a shown row has some cell marked max |
| Rank.Rank | sunnyside-insights.user.js:1401-1425 | one mark per cell; the marks are those of the max, second and muted reference definitions (MaxMarkReference, SecondMarkReference, MutedReference) |
| Rank.MaxMarkReference | sunnyside-insights.user.js:1401-1417 | a cell is marked max exactly when it holds the row's largest number and that number is positive, ties included |
| Rank.SecondMarkReference | sunnyside-insights.user.js:1405-1420 | a cell is marked second exactly when it is positive and a single distinct number of the row lies above it |
| Rank.MutedReference | sunnyside-insights.user.js:1410-1425 | a cell is muted exactly when it is null, NaN or zero, or when the row has no positive value |
| Rank.NegativePlain | sunnyside-insights.user.js:1410-1421 | in a shown row, a negative number gets no class |
| Selection.FindIndex | sunnyside-insights.user.js:1048 | `findIndex` by URL: the first entry with the URL; none exactly when no entry has it |
| Selection.RemoveAt | sunnyside-insights.user.js:1052 | `splice(i, 1)` keeps the entries before `i` and shifts those after it |
| Selection.SecondLine | sunnyside-insights.user.js:1069 | the second line of the trimmed card text contains no newline |
| Selection.EntryName | sunnyside-insights.user.js:1069 | the entry's name is never empty |
| Selection.Entry | sunnyside-insights.user.js:1067-1072 | the pushed entry: a never-empty name (EntryName) in which the cached name wins (CachedNameWins), and the cached figures when truthy (EntryTerpenes) |
| Selection.TruthyOrAbsent | sunnyside-insights.user.js:1070-1071 | the cached terpenes are kept exactly when they are truthy |
| Selection.SelectionList.Toggle | sunnyside-insights.user.js:1048-1076 | the click handler's new list and outcome are `Toggled` of the old list, and the list stays valid |
| Selection.ToggleAllowed | sunnyside-insights.user.js:1048-1076 | a toggle keeps the list to at most three entries with distinct URLs |
| Selection.Toggled | sunnyside-insights.user.js:1042-1072 | keeps at most three entries with distinct URLs (ToggleAllowed); a selected URL is removed (DeselectRemovesOnly); a full list or a missing URL changes nothing (FullUnchanged, NoUrlUnchanged) |
| Selection.DeselectRemovesOnly | sunnyside-insights.user.js:1048-1052 | toggling a selected URL removes exactly its entry, keeps the others in order, and leaves no entry with that URL |
| Selection.FullUnchanged | sunnyside-insights.user.js:1059-1062 | selecting a new URL while three are selected changes nothing |
| Selection.NoUrlUnchanged | sunnyside-insights.user.js:1042-1046 | a click without a URL changes nothing |
| Selection.SelectThenDeselect | sunnyside-insights.user.js:1048-1072 | selecting then deselecting a URL restores the list |
| Selection.SecondLineOf | sunnyside-insights.user.js:1069 | the second line of `first\nsecond\n…` is `second` |
| Selection.SingleLineCard | sunnyside-insights.user.js:1069 | single-line card text has no second line, so without a cached name the entry is called "Product" |
| Selection.CachedNameWins | sunnyside-insights.user.js:1069 | a cached name wins over the card text |
| Selection.EntryTerpenes | sunnyside-insights.user.js:1070-1071 | a cached empty list is kept; an empty string or zero is dropped (a non-empty blank string is truthy and is kept) |

## Left out

- DOM and UI: tooltips, HTML builders, table, sidebar and button construction, styles. The comparison model stops at each cell's parsed value and its mark.
- `getProductUrl` and the page's product object lookup. The URL is an `Option<string>` parameter and the card text is a `string` parameter.
- Network and HTML parsing: `GM_xmlhttpRequest`, `DOMParser`, and the error callbacks for request and parse failures. The page's body text and the terpene section's text are parameters.
- The heading lookup that picks the terpene section (lines 821-826) is not modelled. The section text is a parameter: the `innerText` of the terpene section, or of the body when no heading matches. When that text is empty, the total-terpenes fallback reads the body's `textContent` instead (line 899).
- The DOM-proximity fallback (lines 868-892) is not modelled. The model behaves as if it found nothing, which is its result whenever no terpene section element exists.
- Concurrency: the fan-in of callbacks in the comparison view, the mutation observer and the timers. A single callback's merge step is modelled.
- The JSON round trip of the cache slot, which turns NaN into null and drops undefined. The slot holds the record itself.
- Floating point: percentages are reals with an explicit NaN. The rounding of `parseFloat` and the text of `formatCell` are left out.
- Integer-like object keys, which JavaScript lists before other keys: object keys keep insertion order.
- Case mapping is ASCII only. The `i` flag of the regexes and `toLowerCase`/`toUpperCase` are modelled on ASCII letters.
- Order.SortLabels: labels are compared in code-point order, the same as the code-unit order of `sort()` inside the Basic Multilingual Plane; `localeCompare` in the terpene sort is approximated by that order too.
- Canon.Canonicalize: every canonical name except "Caryophyllene Oxide" canonicalises to itself. That is proved only for "Beta-Caryophyllene" and "Alpha-Pinene" (`Canon.BetaCaryophylleneCanonical`, `Canon.AlphaPineneCanonical`), not for the other fourteen names; "Caryophyllene Oxide" canonicalises to "Beta-Caryophyllene" (`Canon.CaryophylleneOxideShadowed`).
- The `Object.keys(…).forEach(k => set.add(k))` loop over each terpene map is modelled as a set union (`Compare.NameUnion`) rather than key by key.
- Rank.Rank: its own contract gives only the length; the marks are stated by `Rank.MaxMarkReference`, `Rank.SecondMarkReference` and `Rank.MutedReference`. No cell gets two classes because a mark is one value of `Rank.Mark`.
