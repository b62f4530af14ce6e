/** Terpene name canonicalisation: a loose, first-match substring lookup over
    an ordered synonym table. */
module Canon {
  import opened Text
  import opened JsonValue

  datatype Entry = Entry(name: string, keys: seq<string>)

  /** Number of entries of the synonym table. */
  const CANON_COUNT := 17

  /** Entry `j` of the synonym table, in its priority order. The detail-page
      text pass uses an identical table, so the model keeps one. */
  function CanonEntry(j: nat): Entry
    requires j < CANON_COUNT
  {
    match j
    case 0 => Entry("Beta-Caryophyllene", ["beta-caryophyllene", "b-caryophyllene", "beta caryophyllene", "caryophyllene"])
    case 1 => Entry("Limonene", ["limonene"])
    case 2 => Entry("Humulene", ["humulene"])
    case 3 => Entry("Linalool", ["linalool"])
    case 4 => Entry("Beta-Myrcene", ["beta-myrcene", "b-myrcene", "myrcene"])
    case 5 => Entry("Beta-Pinene", ["beta-pinene", "b-pinene"])
    case 6 => Entry("Alpha-Pinene", ["alpha-pinene", "a-pinene", "pinene"])
    case 7 => Entry("Ocimene", ["ocimene"])
    case 8 => Entry("Terpinolene", ["terpinolene"])
    case 9 => Entry("Nerolidol", ["nerolidol"])
    case 10 => Entry("Bisabolol", ["bisabolol"])
    case 11 => Entry("Caryophyllene Oxide", ["caryophyllene oxide", "caryophyllene-oxide"])
    case 12 => Entry("Eucalyptol", ["eucalyptol"])
    case 13 => Entry("Camphene", ["camphene"])
    case 14 => Entry("Geraniol", ["geraniol"])
    case 15 => Entry("Valencene", ["valencene"])
    case _ => Entry("Phellandrene", ["alpha-phellandrene", "beta-phellandrene", "phellandrene"])
  }

  /** The synonym table as a sequence. */
  function CanonTable(): (t: seq<Entry>)
    ensures |t| == CANON_COUNT && forall j :: 0 <= j < CANON_COUNT ==> t[j] == CanonEntry(j)
  {
    seq(CANON_COUNT, j requires 0 <= j < CANON_COUNT => CanonEntry(j))
  }

  const CARYOPHYLLENE_OXIDE := 11

  /** Lower-cased, `_` turned into `-`, trimmed. */
  function NormalizeKey(raw: string): string
  {
    Trim(UnderscoreToHyphen(LowerStr(raw)))
  }

  /** Some synonym of entry `j` occurs in `key`. */
  predicate EntryMatches(key: string, j: nat)
    requires j < CANON_COUNT
  {
    exists t :: 0 <= t < |CanonEntry(j).keys| && Contains(key, CanonEntry(j).keys[t])
  }

  /** The first entry at or after `from` whose synonyms match `key`. */
  function FirstEntry(key: string, from: nat): (r: Option<nat>)
    requires from <= CANON_COUNT
    ensures r.Some? ==> from <= r.value < CANON_COUNT && EntryMatches(key, r.value)
    ensures r.Some? ==> forall i :: from <= i < r.value ==> !EntryMatches(key, i)
    ensures r.None? ==> forall i :: from <= i < CANON_COUNT ==> !EntryMatches(key, i)
    decreases CANON_COUNT - from
  {
    if from == CANON_COUNT then None
    else if EntryMatches(key, from) then Some(from)
    else FirstEntry(key, from + 1)
  }

  /** `canonicalizeTerpeneName` on a string. */
  function Canonicalize(raw: string): (r: Option<string>)
    ensures r.Some? ==> exists j :: 0 <= j < CANON_COUNT && CanonEntry(j).name == r.value
    ensures r.None? <==> forall j :: 0 <= j < CANON_COUNT ==> !EntryMatches(NormalizeKey(raw), j)
  {
    match FirstEntry(NormalizeKey(raw), 0)
    case Some(j) => Some(CanonEntry(j).name)
    case None => None
  }

  /** `canonicalizeTerpeneName(raw)` for any value: `String(raw || '')`. */
  function CanonicalizeValue(raw: Json): Option<string>
  {
    Canonicalize(if Truthy(raw) then ToStr(raw) else "")
  }

  /** `canonicalizeTerpeneName(raw) || String(raw)`: the display label. */
  function LabelOf(raw: Json): string
  {
    match CanonicalizeValue(raw)
    case Some(n) => n
    case None => ToStr(raw)
  }

  lemma NamesDistinct()
    ensures forall i, j :: 0 <= i < j < CANON_COUNT ==> CanonEntry(i).name != CanonEntry(j).name
  {
  }

  /** The canonical name is that of the first entry, in table order, with a
      synonym contained in the normalised input. */
  lemma {:induction false} CanonicalizeIsFirstMatch(raw: string, j: nat)
    requires j < CANON_COUNT
    ensures Canonicalize(raw) == Some(CanonEntry(j).name)
        <==> EntryMatches(NormalizeKey(raw), j) && forall i :: 0 <= i < j ==> !EntryMatches(NormalizeKey(raw), i)
  {
    NamesDistinct();
    var key := NormalizeKey(raw);
    var first := FirstEntry(key, 0);
    if EntryMatches(key, j) && forall i :: 0 <= i < j ==> !EntryMatches(key, i) {
      assert first == Some(j);
    }
  }

  /** Both synonyms of "Caryophyllene Oxide" contain `caryophyllene`, a
      synonym of the earlier entry Beta-Caryophyllene, so the lookup never
      returns "Caryophyllene Oxide". */
  lemma {:induction false} CaryophylleneOxideShadowed(raw: string)
    ensures Canonicalize(raw) != Some("Caryophyllene Oxide")
  {
    var key := NormalizeKey(raw);
    if EntryMatches(key, CARYOPHYLLENE_OXIDE) {
      OxideSynonymsMatchFirstEntry(key);
      CanonicalizeIsFirstMatch(raw, 0);
    } else {
      CanonicalizeIsFirstMatch(raw, CARYOPHYLLENE_OXIDE);
    }
  }

  lemma OxideSynonymsMatchFirstEntry(key: string)
    requires EntryMatches(key, CARYOPHYLLENE_OXIDE)
    ensures EntryMatches(key, 0)
  {
    var t :| 0 <= t < 2 && Contains(key, CanonEntry(CARYOPHYLLENE_OXIDE).keys[t]);
    var k := CanonEntry(CARYOPHYLLENE_OXIDE).keys[t];
    assert k[0..13] == "caryophyllene";
    ContainsTransitive(key, k, "caryophyllene", 0);
    assert CanonEntry(0).keys[3] == "caryophyllene";
  }

  /** `NormalizeKey(raw)` is `key` when `key` is `raw` lower-cased with `_`
      turned into `-` and has no white space at either end. */
  lemma NormalizeKeyPlain(raw: string, key: string)
    requires |key| == |raw| && |raw| > 0
    requires forall i :: 0 <= i < |raw| ==> key[i] == (if Lower(raw[i]) == '_' then '-' else Lower(raw[i]))
    requires !IsSpace(key[0]) && !IsSpace(key[|key| - 1])
    ensures NormalizeKey(raw) == key
  {
    assert UnderscoreToHyphen(LowerStr(raw)) == key;
  }

  /** Entry `j` cannot match `key` when each of its synonyms has a character,
      `cs[t]` for synonym `t`, that `key` lacks. */
  lemma EntryMissed(key: string, j: nat, cs: seq<char>)
    requires j < CANON_COUNT && |cs| == |CanonEntry(j).keys|
    requires forall t :: 0 <= t < |cs| ==> cs[t] in CanonEntry(j).keys[t] && cs[t] !in key
    ensures !EntryMatches(key, j)
  {
    forall t | 0 <= t < |cs| ensures !Contains(key, CanonEntry(j).keys[t]) {
      NotContainsByChar(key, CanonEntry(j).keys[t], cs[t]);
    }
  }

  /** Every synonym has at least six characters. */
  lemma SynonymsAtLeastSix(j: nat, t: nat)
    requires j < CANON_COUNT && t < |CanonEntry(j).keys|
    ensures |CanonEntry(j).keys[t]| >= 6
  {
    match j
    case 0 => assert t < 4;
    case 4 => assert t < 3;
    case 5 => assert t < 2;
    case 6 => assert t < 3;
    case 11 => assert t < 2;
    case 16 => assert t < 3;
    case _ => assert t == 0;
  }

  /** A normalised input shorter than every synonym has no canonical name. */
  lemma {:induction false} ShortInputUnknown(raw: string)
    requires |NormalizeKey(raw)| < 6
    ensures Canonicalize(raw) == None
  {
    var key := NormalizeKey(raw);
    forall j, t | 0 <= j < CANON_COUNT && 0 <= t < |CanonEntry(j).keys|
      ensures !Contains(key, CanonEntry(j).keys[t])
    {
      SynonymsAtLeastSix(j, t);
      NotContainsShort(key, CanonEntry(j).keys[t]);
    }
  }

  /** `canonicalizeTerpeneName(null)` and `canonicalizeTerpeneName(undefined)`
      read the empty string and return null. */
  lemma NullishUnknown(raw: Json)
    requires Nullish(raw)
    ensures CanonicalizeValue(raw) == None && LabelOf(raw) == ToStr(raw)
  {
    assert NormalizeKey("") == "";
    ShortInputUnknown("");
  }

  /** The abbreviation "B-Myrcene" reaches the Beta-Myrcene entry through
      its synonym `b-myrcene`. */
  lemma MyrceneAbbreviation()
    ensures Canonicalize("B-Myrcene") == Some("Beta-Myrcene")
  {
    var key := "b-myrcene";
    NormalizeKeyPlain("B-Myrcene", key);
    BMyrceneUnshadowed();
    assert CanonEntry(4).keys[1] == key;
    ContainsAt(key, key, 0);
    CanonicalizeIsFirstMatch("B-Myrcene", 4);
  }

  lemma BMyrceneUnshadowed()
    ensures forall i :: 0 <= i < 4 ==> !EntryMatches("b-myrcene", i)
  {
    forall i | 0 <= i < 4 ensures !EntryMatches("b-myrcene", i) {
      BMyrceneMisses(i);
    }
  }

  lemma BMyrceneMisses(j: nat)
    requires j < 4
    ensures !EntryMatches("b-myrcene", j)
  {
    if j == 0 {
      EntryMissed("b-myrcene", 0, ['t', 'a', 't', 'a']);
    } else if j == 2 {
      EntryMissed("b-myrcene", 2, ['h']);
    } else {
      EntryMissed("b-myrcene", j, ['l']);
    }
  }

  /** Underscores count as hyphens: "Beta_Caryophyllene" is read as
      `beta-caryophyllene`. */
  lemma UnderscoreSpelling()
    ensures Canonicalize("Beta_Caryophyllene") == Some("Beta-Caryophyllene")
  {
    var key := "beta-caryophyllene";
    NormalizeKeyPlain("Beta_Caryophyllene", key);
    assert CanonEntry(0).keys[0] == key;
    ContainsAt(key, key, 0);
    CanonicalizeIsFirstMatch("Beta_Caryophyllene", 0);
  }

  /** "Caryophyllene Oxide" itself is reported as Beta-Caryophyllene. */
  lemma CaryophylleneOxideExample()
    ensures Canonicalize("Caryophyllene Oxide") == Some("Beta-Caryophyllene")
  {
    var key := "caryophyllene oxide";
    NormalizeKeyPlain("Caryophyllene Oxide", key);
    assert CanonEntry(0).keys[3] == "caryophyllene";
    ContainsAt(key, "caryophyllene", 0);
    CanonicalizeIsFirstMatch("Caryophyllene Oxide", 0);
  }

  /** "Beta-Caryophyllene", lower-cased, is the first synonym of the first
      entry, so the name maps back to itself. */
  lemma BetaCaryophylleneCanonical()
    ensures Canonicalize("Beta-Caryophyllene") == Some("Beta-Caryophyllene")
  {
    NormalizeKeyPlain("Beta-Caryophyllene", "beta-caryophyllene");
    assert CanonEntry(0).keys[0] == "beta-caryophyllene";
    ContainsAt("beta-caryophyllene", "beta-caryophyllene", 0);
    CanonicalizeIsFirstMatch("Beta-Caryophyllene", 0);
  }

  /** "Alpha-Pinene" contains none of the synonyms of the six earlier
      entries (the Beta-Pinene entry included, although both end in
      `pinene`), so it maps back to itself. */
  lemma AlphaPineneMissesCaryophyllene()
    ensures !EntryMatches("alpha-pinene", 0)
  {
    EntryMissed("alpha-pinene", 0, ['b', 'b', 'b', 'c']);
  }

  lemma AlphaPineneMissesSingleWords()
    ensures !EntryMatches("alpha-pinene", 1) && !EntryMatches("alpha-pinene", 2) && !EntryMatches("alpha-pinene", 3)
  {
    EntryMissed("alpha-pinene", 1, ['m']);
    EntryMissed("alpha-pinene", 2, ['u']);
    EntryMissed("alpha-pinene", 3, ['o']);
  }

  lemma AlphaPineneMissesMyrceneAndBetaPinene()
    ensures !EntryMatches("alpha-pinene", 4) && !EntryMatches("alpha-pinene", 5)
  {
    EntryMissed("alpha-pinene", 4, ['b', 'b', 'm']);
    EntryMissed("alpha-pinene", 5, ['b', 'b']);
  }

  lemma AlphaPineneCanonical()
    ensures Canonicalize("Alpha-Pinene") == Some("Alpha-Pinene")
  {
    NormalizeKeyPlain("Alpha-Pinene", "alpha-pinene");
    AlphaPineneMissesCaryophyllene();
    AlphaPineneMissesSingleWords();
    AlphaPineneMissesMyrceneAndBetaPinene();
    assert CanonEntry(6).keys[0] == "alpha-pinene";
    ContainsAt("alpha-pinene", "alpha-pinene", 0);
    assert FirstEntry("alpha-pinene", 0) == Some(6);
  }
}
