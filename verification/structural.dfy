/** `extractTerpenesFromObject`: a depth-bounded walk over an untyped record
    that reports every (name, percentage) pair it recognises to `addResult`. */
module Structural {
  import opened Text
  import opened JsonValue
  import opened Canon
  import opened Percent
  import opened Fold

  /** The walk stops below this depth. */
  const MAX_DEPTH := 3

  /** An array item read as a terpene: an object with `name` and
      `percentage` keys. */
  predicate IsNamedItem(item: Json)
  {
    IsObjectRef(item) && Has(item, "name") && Has(item, "percentage")
  }

  /** An entry value read as a terpene: an object with a `name` key and one
      of `percentage`, `percent`, `value`. */
  predicate IsNamedValue(v: Json)
  {
    IsObjectRef(v) && Has(v, "name") && (Has(v, "percentage") || Has(v, "percent") || Has(v, "value"))
  }

  /** The `addResult` call an array item of that shape makes. */
  function ItemCandidate(item: Json): Candidate
  {
    Candidate(LabelOf(Get(item, "name")), ParsePercent(Get(item, "percentage")))
  }

  /** The `addResult` call an entry value of that shape makes. */
  function ValueCandidate(v: Json): Candidate
  {
    Candidate(LabelOf(Get(v, "name")),
      ParsePercent(Coalesce([Get(v, "percentage"), Get(v, "percent"), Get(v, "value")])))
  }

  /** The `addResult` calls of `scan(obj, depth)`, in order. */
  function Candidates(obj: Json, depth: nat): seq<Candidate>
    decreases 4 - depth, 2, 0
  {
    if !IsObjectRef(obj) || depth > MAX_DEPTH then []
    else if obj.JArr? then ItemsCandidates(obj.items, depth)
    else FieldsCandidates(obj.fields, depth)
  }

  /** The calls of `obj.forEach(item => …)` over an array. */
  function ItemsCandidates(items: seq<Json>, depth: nat): seq<Candidate>
    requires depth <= MAX_DEPTH
    decreases 4 - depth, 1, |items|
  {
    if items == [] then []
    else ItemsCandidates(items[..|items| - 1], depth) + ItemCandidates(items[|items| - 1], depth)
  }

  function ItemCandidates(item: Json, depth: nat): seq<Candidate>
    requires depth <= MAX_DEPTH
    decreases 4 - depth, 0, 0
  {
    if IsNamedItem(item) then [ItemCandidate(item)] else Candidates(item, depth + 1)
  }

  /** The calls of `Object.entries(obj).forEach(([k, v]) => …)`. */
  function FieldsCandidates(fields: seq<(string, Json)>, depth: nat): seq<Candidate>
    requires depth <= MAX_DEPTH
    decreases 4 - depth, 1, |fields|
  {
    if fields == [] then []
    else
      var (k, v) := fields[|fields| - 1];
      FieldsCandidates(fields[..|fields| - 1], depth) + EntryCandidates(k, v, depth)
  }

  /** One entry: a key naming a terpene, a `{name, percentage}`-like value,
      or a nested scan (the `terp` branch and the generic branch). */
  function EntryCandidates(k: string, v: Json, depth: nat): seq<Candidate>
    requires depth <= MAX_DEPTH
    decreases 4 - depth, 0, 0
  {
    var keyLc := LowerStr(k);
    match Canonicalize(keyLc)
    case Some(name) => [Candidate(name, ParsePercent(v))]
    case None =>
      if IsNamedValue(v) then [ValueCandidate(v)]
      else if Contains(keyLc, "terp") then Candidates(v, depth + 1)
      else if TypeofObject(v) then Candidates(v, depth + 1)
      else []
  }

  /** `scan(obj, depth)`: walks `obj` and feeds each recognised pair to
      `addResult`, threading the shared `results` list. */
  method Scan(obj: Json, depth: nat, results: seq<Terpene>) returns (r: seq<Terpene>)
    ensures r == FoldAdd(results, Candidates(obj, depth))
    decreases 4 - depth, 2
  {
    if !IsObjectRef(obj) || depth > MAX_DEPTH {
      return results;
    }
    if obj.JArr? {
      r := ScanItems(obj.items, depth, results);
    } else {
      r := ScanFields(obj.fields, depth, results);
    }
  }

  /** The array branch of `scan`: `obj.forEach(item => …)`. */
  method ScanItems(items: seq<Json>, depth: nat, results: seq<Terpene>) returns (r: seq<Terpene>)
    requires depth <= MAX_DEPTH
    ensures r == FoldAdd(results, ItemsCandidates(items, depth))
    decreases 4 - depth, 1
  {
    r := results;
    var i := 0;
    while i < |items|
      invariant 0 <= i <= |items|
      invariant r == FoldAdd(results, ItemsCandidates(items[..i], depth))
    {
      r := ScanItem(items[i], depth, r);
      assert items[..i + 1][..i] == items[..i];
      FoldAddAppend(results, ItemsCandidates(items[..i], depth), ItemCandidates(items[i], depth));
      i := i + 1;
    }
    assert items[..i] == items;
  }

  /** One array item: a `{name, percentage}` object is reported, anything
      else is scanned one level deeper. */
  method ScanItem(item: Json, depth: nat, results: seq<Terpene>) returns (r: seq<Terpene>)
    requires depth <= MAX_DEPTH
    ensures r == FoldAdd(results, ItemCandidates(item, depth))
    decreases 4 - depth, 0
  {
    if IsNamedItem(item) {
      r := AddResult(results, ItemCandidate(item));
      assert [ItemCandidate(item)][..0] == [];
    } else {
      r := Scan(item, depth + 1, results);
    }
  }

  /** The object branch of `scan`: `Object.entries(obj).forEach(…)`. */
  method ScanFields(fields: seq<(string, Json)>, depth: nat, results: seq<Terpene>) returns (r: seq<Terpene>)
    requires depth <= MAX_DEPTH
    ensures r == FoldAdd(results, FieldsCandidates(fields, depth))
    decreases 4 - depth, 1
  {
    r := results;
    var i := 0;
    while i < |fields|
      invariant 0 <= i <= |fields|
      invariant r == FoldAdd(results, FieldsCandidates(fields[..i], depth))
    {
      var (k, v) := fields[i];
      r := ScanEntry(k, v, depth, r);
      assert fields[..i + 1][..i] == fields[..i] && fields[..i + 1][i] == (k, v);
      assert FieldsCandidates(fields[..i + 1], depth) == FieldsCandidates(fields[..i], depth) + EntryCandidates(k, v, depth);
      FoldAddAppend(results, FieldsCandidates(fields[..i], depth), EntryCandidates(k, v, depth));
      i := i + 1;
    }
    assert fields[..i] == fields;
  }

  /** One entry `[k, v]` of the object branch. */
  method ScanEntry(k: string, v: Json, depth: nat, results: seq<Terpene>) returns (r: seq<Terpene>)
    requires depth <= MAX_DEPTH
    ensures r == FoldAdd(results, EntryCandidates(k, v, depth))
    decreases 4 - depth, 0
  {
    var keyLc := LowerStr(k);
    var maybeName := Canonicalize(keyLc);
    if maybeName.Some? {
      r := AddResult(results, Candidate(maybeName.value, ParsePercent(v)));
    } else if IsNamedValue(v) {
      r := AddResult(results, ValueCandidate(v));
    } else if Contains(keyLc, "terp") {
      r := Scan(v, depth + 1, results);
    } else if TypeofObject(v) {
      r := Scan(v, depth + 1, results);
    } else {
      r := results;
    }
  }

  /** `extractTerpenesFromObject(source)`: one entry per accepted name, with
      the largest value reported for it, in order of first report. The final
      `filter` keeps every entry, since a kept percentage is always a number. */
  method ExtractTerpenesFromObject(source: Json) returns (r: seq<Terpene>)
    ensures r == FoldAdd([], Candidates(source, 0))
    ensures Summarizes(r, Candidates(source, 0))
    ensures !IsObjectRef(source) ==> r == []
  {
    if !IsObjectRef(source) {
      return [];
    }
    r := Scan(source, 0, []);
    FoldAddSummarizes(Candidates(source, 0));
  }

  /** Past the key-name and value-shape tests, an entry always scans its
      value one level deeper: the `terp` branch and the generic branch do
      the same thing, because a scan of a non-object reports nothing. */
  lemma TerpBranchLikeGeneric(k: string, v: Json, depth: nat)
    requires depth <= MAX_DEPTH
    requires Canonicalize(LowerStr(k)).None? && !IsNamedValue(v)
    ensures EntryCandidates(k, v, depth) == Candidates(v, depth + 1)
  {
  }

  /** An entry whose key names no terpene and whose value has the
      `{name, percentage}` shape reports that value. */
  lemma NamedValueEntry(k: string, v: Json, depth: nat)
    requires depth <= MAX_DEPTH
    requires Canonicalize(LowerStr(k)).None? && IsNamedValue(v)
    ensures EntryCandidates(k, v, depth) == [ValueCandidate(v)]
  {
  }

  /** Below depth 3 the walk returns at once, whatever the value. */
  lemma BelowMaxDepthIgnored(obj: Json, depth: nat)
    requires depth > MAX_DEPTH
    ensures Candidates(obj, depth) == []
  {
  }

  /** At depth 3 an array item is only tested for the `{name, percentage}`
      shape: nothing inside it is looked at. */
  lemma ItemAtMaxDepth(item: Json)
    ensures ItemCandidates(item, MAX_DEPTH) == if IsNamedItem(item) then [ItemCandidate(item)] else []
  {
  }

  /** At depth 3 an entry reports only what its key or its value's shape
      names: nothing inside the value is looked at. */
  lemma EntryAtMaxDepth(k: string, v: Json)
    ensures EntryCandidates(k, v, MAX_DEPTH) ==
      match Canonicalize(LowerStr(k))
      case Some(n) => [Candidate(n, ParsePercent(v))]
      case None => if IsNamedValue(v) then [ValueCandidate(v)] else []
  {
  }

  /** `{data: v}`: `v` one level down, under a key that names no terpene. */
  function Wrap(v: Json): Json
  {
    JObj([("data", v)])
  }

  lemma DataKeyUnknown()
    ensures Canonicalize(LowerStr("data")).None?
  {
    ShortInputUnknown(LowerStr("data"));
  }

  lemma SingleField(k: string, v: Json, depth: nat)
    requires depth <= MAX_DEPTH
    ensures Candidates(JObj([(k, v)]), depth) == EntryCandidates(k, v, depth)
  {
    var fs := [(k, v)];
    assert fs[..0] == [] && fs[0] == (k, v);
    assert FieldsCandidates(fs, depth) == FieldsCandidates([], depth) + EntryCandidates(k, v, depth);
  }

  /** A wrapper around a value that is itself a wrapper reports what that
      value reports one level deeper. */
  lemma WrapStep(v: Json, depth: nat, next: nat)
    requires depth <= MAX_DEPTH && next == depth + 1
    ensures Candidates(Wrap(Wrap(v)), depth) == Candidates(Wrap(v), next)
  {
    assert !Has(Wrap(v), "name");
    DataKeyUnknown();
    SingleField("data", Wrap(v), depth);
    TerpBranchLikeGeneric("data", Wrap(v), depth);
  }

  /** A value under five wrappers is never looked at: the walk stops after
      depth 3, and at depth 3 it only tests the shape of the values it finds
      there. */
  lemma DeepValueIgnored(x: Json)
    ensures Candidates(Wrap(Wrap(Wrap(Wrap(Wrap(x))))), 0) == []
  {
    WrapStep(Wrap(Wrap(Wrap(x))), 0, 1);
    WrapStep(Wrap(Wrap(x)), 1, 2);
    WrapStep(Wrap(x), 2, 3);
    WrapStep(x, 3, 4);
  }

  /** Under four wrappers a `{name, percentage}`-like value is still found:
      the walk reaches its wrapper at depth 3. */
  lemma ShallowValueFound(x: Json)
    requires IsNamedValue(x)
    ensures Candidates(Wrap(Wrap(Wrap(Wrap(x)))), 0) == [ValueCandidate(x)]
  {
    WrapStep(Wrap(Wrap(x)), 0, 1);
    WrapStep(Wrap(x), 1, 2);
    WrapStep(x, 2, 3);
    LastWrapFound(x);
  }

  lemma LastWrapFound(x: Json)
    requires IsNamedValue(x)
    ensures Candidates(Wrap(x), MAX_DEPTH) == [ValueCandidate(x)]
  {
    DataKeyUnknown();
    SingleField("data", x, MAX_DEPTH);
    NamedValueEntry("data", x, MAX_DEPTH);
  }
}
