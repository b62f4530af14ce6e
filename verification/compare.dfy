/** The data side of the comparison table: which cannabinoid and terpene
    rows it has, and the value each product shows in a row. */
module Compare {
  import opened Text
  import opened JsonValue
  import opened Percent
  import opened Canon
  import opened Record
  import opened Order

  /** The cannabinoid rows every table starts with, in this order. */
  const PREFERRED: seq<string> := ["THC", "THCA", "CBD", "CBDA", "CBN", "CBG", "CBC", "totalTHC", "totalCBD"]

  lemma PreferredDistinct()
    ensures forall i, j :: 0 <= i < j < |PREFERRED| ==> PREFERRED[i] != PREFERRED[j]
  {
  }

  // Cannabinoid labels.

  function CannabinoidKeys(p: Insight): set<string>
  {
    if p.cannabinoids.Some? then p.cannabinoids.value.Keys else {}
  }

  /** The keys of one product that are not preferred labels. */
  function ExtraKeysOf(p: Insight): set<string>
  {
    set k | k in CannabinoidKeys(p) && k !in PREFERRED
  }

  /** `extraCanna` after the first `n` products. */
  function ExtraKeys(ps: seq<Insight>, n: nat): (r: set<string>)
    requires n <= |ps|
    ensures forall k :: k in r <==> k !in PREFERRED && exists i :: 0 <= i < n && k in CannabinoidKeys(ps[i])
  {
    if n == 0 then {} else ExtraKeys(ps, n - 1) + ExtraKeysOf(ps[n - 1])
  }

  /** `[...preferredCannabinoids, ...Array.from(extraCanna).sort()]`: the
      loop over the products fills the set, then the extras are sorted. */
  method CannabinoidLabels(ps: seq<Insight>) returns (rows: seq<string>)
    ensures |rows| >= |PREFERRED| && rows[..|PREFERRED|] == PREFERRED
    ensures Increasing(rows[|PREFERRED|..])
    ensures forall k :: k in rows[|PREFERRED|..] <==> k !in PREFERRED && exists i :: 0 <= i < |ps| && k in CannabinoidKeys(ps[i])
  {
    var extra: set<string> := {};
    for i := 0 to |ps|
      invariant extra == ExtraKeys(ps, i)
    {
      extra := extra + ExtraKeysOf(ps[i]);
    }
    var sorted := SortLabels(extra);
    rows := PREFERRED + sorted;
    assert rows[|PREFERRED|..] == sorted;
  }

  /** The row labels hold every label once: the preferred ones and then
      every other key some product has. */
  lemma LabelsDistinct(rows: seq<string>)
    requires |rows| >= |PREFERRED| && rows[..|PREFERRED|] == PREFERRED
    requires Increasing(rows[|PREFERRED|..])
    requires forall k :: k in rows[|PREFERRED|..] ==> k !in PREFERRED
    ensures forall i, j :: 0 <= i < j < |rows| ==> rows[i] != rows[j]
  {
    var extras := rows[|PREFERRED|..];
    forall i, j | 0 <= i < j < |rows| ensures rows[i] != rows[j] {
      if j < |PREFERRED| {
        PreferredDistinct();
        assert rows[i] == PREFERRED[i] && rows[j] == PREFERRED[j];
      } else if i < |PREFERRED| {
        assert rows[j] == extras[j - |PREFERRED|] && rows[j] in extras;
        assert rows[i] in PREFERRED;
      } else {
        assert rows[i] == extras[i - |PREFERRED|] && rows[j] == extras[j - |PREFERRED|];
        BelowIrreflexive(rows[i]);
      }
    }
  }

  // Reading a cannabinoid.

  /** The keys `readCannabinoid` tries for a label, in order. */
  function Aliases(key: string): (r: seq<string>)
    ensures |r| > 0
  {
    match key
    case "THC" => ["THC", "thc", "totalTHC", "total_thc", "thcPercent", "thc_percentage"]
    case "THCA" => ["THCA", "thca", "totalTHCA", "total_thca"]
    case "CBD" => ["CBD", "cbd", "totalCBD", "total_cbd", "cbdPercent", "cbd_percentage"]
    case "CBDA" => ["CBDA", "CBDa", "cbda"]
    case "CBN" => ["CBN", "cbn"]
    case "CBG" => ["CBG", "cbg"]
    case "CBC" => ["CBC", "cbc"]
    case "totalTHC" => ["totalTHC", "total_thc", "usable_thc"]
    case "totalCBD" => ["totalCBD", "total_cbd", "usable_cbd"]
    case _ => [key, UpperStr(key), LowerStr(key)]
  }

  /** `obj[k]` on a cannabinoid object. */
  function Lookup(obj: map<string, Json>, k: string): Json
  {
    if k in obj then obj[k] else JUndef
  }

  /** Each alias of a label looked up in `obj`, in order. */
  function AliasReads(obj: map<string, Json>, aliases: seq<string>): (r: seq<Json>)
    ensures |r| == |aliases| && forall i :: 0 <= i < |aliases| ==> r[i] == Lookup(obj, aliases[i])
  {
    seq(|aliases|, i requires 0 <= i < |aliases| => Lookup(obj, aliases[i]))
  }

  /** `readCannabinoid(obj, label)`: null without an object, else the
      `??` chain of the label's aliases. */
  function ReadCannabinoid(obj: Option<map<string, Json>>, key: string): Json
  {
    if obj.None? then JNull else Coalesce(AliasReads(obj.value, Aliases(key)))
  }

  /** A row reads the first alias the object holds a value for that is
      neither null nor undefined. */
  lemma ReadFirstPresent(obj: map<string, Json>, key: string, i: nat)
    requires i < |Aliases(key)|
    requires !Nullish(Lookup(obj, Aliases(key)[i]))
    requires forall j :: 0 <= j < i ==> Nullish(Lookup(obj, Aliases(key)[j]))
    ensures ReadCannabinoid(Some(obj), key) == obj[Aliases(key)[i]]
  {
    var vals := AliasReads(obj, Aliases(key));
    var r := Coalesce(vals);
    var u :| 0 <= u < |vals| && vals[u] == r && forall j :: 0 <= j < u ==> Nullish(vals[j]);
    assert !Nullish(vals[u]) && !Nullish(vals[i]);
  }

  /** An extra row's label is a key of the product it came from, and the
      row shows that key's value unless it is null or undefined. */
  lemma ExtraReadsOwnKey(obj: map<string, Json>, key: string)
    requires key !in PREFERRED && key in obj && !Nullish(obj[key])
    ensures ReadCannabinoid(Some(obj), key) == obj[key]
  {
    assert Aliases(key)[0] == key;
    ReadFirstPresent(obj, key, 0);
  }

  /** A `CBDa` key (what the detail-page fetch writes) is shown twice: in
      the preferred `CBDA` row, and in an extra `CBDa` row of its own. */
  lemma CbdaShownTwice(v: Json)
    requires !Nullish(v)
    ensures "CBDa" !in PREFERRED
    ensures ReadCannabinoid(Some(map["CBDa" := v]), "CBDA") == v
    ensures ReadCannabinoid(Some(map["CBDa" := v]), "CBDa") == v
  {
    var obj := map["CBDa" := v];
    assert Aliases("CBDA")[1] == "CBDa" && Aliases("CBDA")[0] == "CBDA";
    ReadFirstPresent(obj, "CBDA", 1);
    ExtraReadsOwnKey(obj, "CBDa");
  }

  /** The THC row falls back to `totalTHC` when neither `THC` nor `thc` is
      present. */
  lemma ThcFallsBackToTotal(v: Json)
    requires !Nullish(v)
    ensures ReadCannabinoid(Some(map["totalTHC" := v]), "THC") == v
  {
    var obj := map["totalTHC" := v];
    var aliases := Aliases("THC");
    assert aliases[0] == "THC" && aliases[1] == "thc" && aliases[2] == "totalTHC";
    ReadFirstPresent(obj, "THC", 2);
  }

  // Normalised terpene maps.

  /** One `map[name] = num` write, or none. */
  type Write = Option<(string, Parsed)>

  /** `name && num !== null`: the write the loop body makes. */
  function Guarded(name: string, num: Parsed): (w: Write)
    ensures w.Some? ==> w.value.0 != [] && w.value.1 != PNull
  {
    if name != [] && num != PNull then Some((name, num)) else None
  }

  /** The write one element of a terpene list makes: a record with a `name`
      is read through `percentage ?? value ?? percent`; a string is both the
      name and the value. */
  function ItemWrite(t: Json): (w: Write)
    ensures w.Some? ==> w.value.0 != [] && w.value.1 != PNull
  {
    if Truthy(t) && TypeofObject(t) && Get(t, "name") != JUndef then
      Guarded(LabelOf(Get(t, "name")), ParsePercent(Coalesce([Get(t, "percentage"), Get(t, "value"), Get(t, "percent")])))
    else if t.JStr? then
      Guarded(LabelOf(t), ParsePercent(t))
    else None
  }

  /** The write one entry of a terpene object makes. */
  function EntryWrite(k: string, v: Json): Write
  {
    Guarded(LabelOf(JStr(k)), ParsePercent(v))
  }

  /** The map after the first `n` writes: a later write to a name replaces
      an earlier one. */
  function Apply(ws: seq<Write>, n: nat): map<string, Parsed>
    requires n <= |ws|
  {
    if n == 0 then map[]
    else
      var m := Apply(ws, n - 1);
      match ws[n - 1]
      case Some((k, v)) => m[k := v]
      case None => m
  }

  /** The write the entry `(k, v)` of `Object.entries(terps)` makes. */
  function FieldWrite(e: (string, Json)): (w: Write)
    ensures w.Some? ==> w.value.0 != [] && w.value.1 != PNull
  {
    EntryWrite(e.0, e.1)
  }

  /** The writes `xs.forEach(…)` makes, one per element. */
  function WritesOf<T>(xs: seq<T>, write: T -> Write): (ws: seq<Write>)
    ensures |ws| == |xs| && forall i :: 0 <= i < |xs| ==> ws[i] == write(xs[i])
  {
    seq(|xs|, i requires 0 <= i < |xs| => write(xs[i]))
  }

  /** `normalizeTerpenes(terps)`: name to parsed percentage. */
  function Normalized(terps: Json): map<string, Parsed>
  {
    if !Truthy(terps) then map[]
    else match terps
      case JArr(items) => Apply(WritesOf(items, ItemWrite), |items|)
      case JObj(fields) => Apply(WritesOf(fields, FieldWrite), |fields|)
      case JStr(_) =>
        var num := ParsePercent(terps);
        if num != PNull then map["Total Terpenes" := num] else map[]
      case _ => map[]
  }

  /** `normalizeTerpenes(terps)`, writing into `map`. */
  method NormalizeTerpenes(terps: Json) returns (m: map<string, Parsed>)
    ensures m == Normalized(terps)
  {
    m := map[];
    if !Truthy(terps) {
      return;
    }
    if terps.JArr? {
      m := ForEachWrite(terps.items, ItemWrite);
    } else if terps.JObj? {
      m := ForEachWrite(terps.fields, FieldWrite);
    } else if terps.JStr? {
      var num := ParsePercent(terps);
      if num != PNull {
        m := m["Total Terpenes" := num];
      }
    }
  }

  /** `xs.forEach(x => { …; if (name && num !== null) map[name] = num; })`
      with `write` the body's decision. */
  method ForEachWrite<T>(xs: seq<T>, write: T -> Write) returns (m: map<string, Parsed>)
    ensures m == Apply(WritesOf(xs, write), |xs|)
  {
    ghost var ws := WritesOf(xs, write);
    m := map[];
    for i := 0 to |xs|
      invariant m == Apply(ws, i)
    {
      var w := write(xs[i]);
      if w.Some? {
        m := m[w.value.0 := w.value.1];
      }
    }
  }

  /** A name is in the map exactly when some write wrote it, and it holds
      the value of the last such write. */
  lemma {:induction false} ApplyLastWins(ws: seq<Write>, n: nat, k: string)
    requires n <= |ws|
    ensures k in Apply(ws, n) <==> exists i :: 0 <= i < n && ws[i].Some? && ws[i].value.0 == k
    ensures k in Apply(ws, n) ==> exists i :: 0 <= i < n && ws[i] == Some((k, Apply(ws, n)[k]))
                                    && forall j :: i < j < n ==> ws[j].None? || ws[j].value.0 != k
  {
    if n > 0 {
      ApplyLastWins(ws, n - 1, k);
      if k in Apply(ws, n) && !(ws[n - 1].Some? && ws[n - 1].value.0 == k) {
        var i :| 0 <= i < n - 1 && ws[i] == Some((k, Apply(ws, n - 1)[k]))
          && forall j :: i < j < n - 1 ==> ws[j].None? || ws[j].value.0 != k;
        assert Apply(ws, n)[k] == Apply(ws, n - 1)[k];
      }
    }
  }

  /** Every write names something and carries a number or NaN. */
  lemma {:induction false} ApplyNoNull(ws: seq<Write>, n: nat, k: string)
    requires n <= |ws|
    requires forall i :: 0 <= i < |ws| && ws[i].Some? ==> ws[i].value.0 != [] && ws[i].value.1 != PNull
    requires k in Apply(ws, n)
    ensures k != [] && Apply(ws, n)[k] != PNull
  {
    ApplyLastWins(ws, n, k);
  }

  /** No name of a normalised map is empty, and no value is null. */
  lemma NormalizedNoNull(terps: Json, k: string)
    requires k in Normalized(terps)
    ensures k != [] && Normalized(terps)[k] != PNull
  {
    if Truthy(terps) && terps.JArr? {
      WritesNoNull(terps.items, ItemWrite, k);
    } else if Truthy(terps) && terps.JObj? {
      WritesNoNull(terps.fields, FieldWrite, k);
    }
  }

  lemma WritesNoNull<T>(xs: seq<T>, write: T -> Write, k: string)
    requires forall x :: write(x).Some? ==> write(x).value.0 != [] && write(x).value.1 != PNull
    requires k in Apply(WritesOf(xs, write), |xs|)
    ensures k != [] && Apply(WritesOf(xs, write), |xs|)[k] != PNull
  {
    ApplyNoNull(WritesOf(xs, write), |xs|, k);
  }

  /** A text value is read as a total: the map is `{'Total Terpenes': n}`
      or empty. */
  lemma NormalizedText(s: string)
    ensures Normalized(JStr(s)).Keys <= {"Total Terpenes"}
    ensures "Total Terpenes" in Normalized(JStr(s)) <==> ParsePercent(JStr(s)).PNum?
    ensures s != [] && ParsePercent(JStr(s)).PNum? ==> Normalized(JStr(s)) == map["Total Terpenes" := ParsePercent(JStr(s))]
  {
  }

  // Terpene labels.

  /** The names of the first `n` maps. */
  function NameUnion(maps: seq<map<string, Parsed>>, n: nat): (r: set<string>)
    requires n <= |maps|
    ensures forall k :: k in r <==> exists i :: 0 <= i < n && k in maps[i]
  {
    if n == 0 then {} else NameUnion(maps, n - 1) + maps[n - 1].Keys
  }

  /** `terpeneNames`: every name of every product's map, once, in order. */
  method TerpeneLabels(maps: seq<map<string, Parsed>>) returns (names: seq<string>)
    ensures Increasing(names)
    ensures forall k :: k in names <==> exists i :: 0 <= i < |maps| && k in maps[i]
  {
    var all: set<string> := {};
    for i := 0 to |maps|
      invariant all == NameUnion(maps, i)
    {
      all := all + maps[i].Keys;
    }
    names := SortLabels(all);
    assert forall k :: k in names <==> k in Elements(names);
  }

  // Row values.

  /** The parsed value each product shows in a cannabinoid row. */
  function CannabinoidCells(ps: seq<Insight>, key: string): (cells: seq<Parsed>)
    ensures |cells| == |ps|
    ensures forall i :: 0 <= i < |ps| ==> cells[i] == ParsePercent(ReadCannabinoid(ps[i].cannabinoids, key))
  {
    seq(|ps|, i requires 0 <= i < |ps| => ParsePercent(ReadCannabinoid(ps[i].cannabinoids, key)))
  }

  /** The parsed value each product shows in a terpene row: `undefined`
      (read as null) where its map lacks the name. */
  function TerpeneCells(maps: seq<map<string, Parsed>>, name: string): (cells: seq<Parsed>)
    ensures |cells| == |maps|
    ensures forall i :: 0 <= i < |maps| ==> cells[i] == (if name in maps[i] then maps[i][name] else PNull)
  {
    seq(|maps|, i requires 0 <= i < |maps| => if name in maps[i] then maps[i][name] else PNull)
  }
}
