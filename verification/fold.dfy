/** `addResult`: the fold that both terpene extractors use to collect
    (name, percentage) pairs, keeping one entry per name with its largest
    value, in order of first appearance. */
module Fold {
  import opened JsonValue
  import opened Percent

  datatype Terpene = Terpene(name: string, percentage: real)

  /** One `addResult(name, pct)` call: a name and a parsed percentage. */
  datatype Candidate = Candidate(name: string, pct: Parsed)

  /** `addResult` ignores an empty name and a null, undefined or NaN value. */
  predicate Accepted(c: Candidate)
  {
    c.name != "" && c.pct.PNum?
  }

  /** `results.find(t => t.name === name)`, as an index. */
  function IndexOfName(rs: seq<Terpene>, name: string): (r: Option<nat>)
    ensures r.Some? ==> r.value < |rs| && rs[r.value].name == name
    ensures r.Some? ==> forall i :: 0 <= i < r.value ==> rs[i].name != name
    ensures r.None? <==> forall i :: 0 <= i < |rs| ==> rs[i].name != name
  {
    if rs == [] then None
    else if rs[0].name == name then Some(0)
    else match IndexOfName(rs[1..], name)
      case None => None
      case Some(i) => Some(i + 1)
  }

  /** The state of `results` after one `addResult` call. */
  function Add(rs: seq<Terpene>, c: Candidate): seq<Terpene>
  {
    if !Accepted(c) then rs
    else match IndexOfName(rs, c.name)
      case None => rs + [Terpene(c.name, c.pct.v)]
      case Some(i) => if c.pct.v > rs[i].percentage then rs[i := Terpene(c.name, c.pct.v)] else rs
  }

  /** The state of `results` after the calls `cs`, in order. */
  function FoldAdd(rs: seq<Terpene>, cs: seq<Candidate>): seq<Terpene>
  {
    if cs == [] then rs else Add(FoldAdd(rs, cs[..|cs| - 1]), cs[|cs| - 1])
  }

  /** Folding two runs of calls one after the other is folding their
      concatenation. */
  lemma {:induction false} FoldAddAppend(rs: seq<Terpene>, a: seq<Candidate>, b: seq<Candidate>)
    ensures FoldAdd(rs, a + b) == FoldAdd(FoldAdd(rs, a), b)
    decreases |b|
  {
    if b == [] {
      assert a + b == a;
    } else {
      FoldAddAppend(rs, a, b[..|b| - 1]);
      assert (a + b)[..|a + b| - 1] == a + b[..|b| - 1];
    }
  }

  /** `addResult` as the script runs it: search, then push or raise in place. */
  method AddResult(results: seq<Terpene>, c: Candidate) returns (r: seq<Terpene>)
    ensures r == Add(results, c)
  {
    r := results;
    if c.name == "" || !c.pct.PNum? {
      return;
    }
    var i := 0;
    while i < |r| && r[i].name != c.name
      invariant 0 <= i <= |r|
      invariant forall k :: 0 <= k < i ==> r[k].name != c.name
    {
      i := i + 1;
    }
    if i == |r| {
      r := r + [Terpene(c.name, c.pct.v)];
    } else if c.pct.v > r[i].percentage {
      assert IndexOfName(r, c.name) == Some(i);
      r := r[i := Terpene(c.name, c.pct.v)];
    }
  }

  /** Index of the first accepted call for `name`, if any. */
  function FirstAt(cs: seq<Candidate>, name: string): (r: Option<nat>)
    ensures r.Some? ==> r.value < |cs| && Accepted(cs[r.value]) && cs[r.value].name == name
  {
    if cs == [] then None
    else
      match FirstAt(cs[..|cs| - 1], name)
      case Some(k) => Some(k)
      case None =>
        if Accepted(cs[|cs| - 1]) && cs[|cs| - 1].name == name then Some(|cs| - 1) else None
  }

  /** No accepted call for `name` precedes the first, and there is none
      when the search finds none. */
  lemma {:induction false} FirstAtIsFirst(cs: seq<Candidate>, name: string)
    ensures FirstAt(cs, name).Some? ==> forall j :: 0 <= j < FirstAt(cs, name).value ==> !(Accepted(cs[j]) && cs[j].name == name)
    ensures FirstAt(cs, name).None? <==> forall j :: 0 <= j < |cs| ==> !(Accepted(cs[j]) && cs[j].name == name)
  {
    if cs != [] {
      FirstAtIsFirst(cs[..|cs| - 1], name);
      assert forall j :: 0 <= j < |cs| - 1 ==> cs[j] == cs[..|cs| - 1][j];
    }
  }

  /** The largest value among the accepted calls for `name`. */
  function MaxFor(cs: seq<Candidate>, name: string): (m: Option<real>)
    ensures m.None? <==> forall j :: 0 <= j < |cs| ==> !(Accepted(cs[j]) && cs[j].name == name)
    ensures m.Some? ==> exists j :: 0 <= j < |cs| && Accepted(cs[j]) && cs[j].name == name && cs[j].pct.v == m.value
    ensures m.Some? ==> forall j :: 0 <= j < |cs| && Accepted(cs[j]) && cs[j].name == name ==> cs[j].pct.v <= m.value
  {
    if cs == [] then None
    else
      var m := MaxFor(cs[..|cs| - 1], name);
      var c := cs[|cs| - 1];
      assert forall j :: 0 <= j < |cs| - 1 ==> cs[j] == cs[..|cs| - 1][j];
      if Accepted(c) && c.name == name && (m.None? || c.pct.v > m.value) then Some(c.pct.v) else m
  }

  predicate HasName(rs: seq<Terpene>, name: string)
  {
    exists i :: 0 <= i < |rs| && rs[i].name == name
  }

  predicate DistinctNames(rs: seq<Terpene>)
  {
    forall i, j :: 0 <= i < j < |rs| ==> rs[i].name != rs[j].name
  }

  /** Each entry holds the largest value accepted for its name. */
  predicate HoldsMax(rs: seq<Terpene>, cs: seq<Candidate>)
  {
    forall i :: 0 <= i < |rs| ==> MaxFor(cs, rs[i].name) == Some(rs[i].percentage)
  }

  /** Exactly the accepted names have an entry. */
  ghost predicate Covers(rs: seq<Terpene>, cs: seq<Candidate>)
  {
    forall name :: HasName(rs, name) <==> FirstAt(cs, name).Some?
  }

  /** `a` was accepted, and before `b` if `b` ever was. */
  predicate SeenBefore(cs: seq<Candidate>, a: string, b: string)
  {
    FirstAt(cs, a).Some? && (FirstAt(cs, b).None? || FirstAt(cs, a).value < FirstAt(cs, b).value)
  }

  /** Entries are in order of their names' first accepted call. */
  predicate FirstSeenOrder(rs: seq<Terpene>, cs: seq<Candidate>)
  {
    forall i, j :: 0 <= i < j < |rs| ==> SeenBefore(cs, rs[i].name, rs[j].name)
  }

  /** `rs` is what the calls `cs` should leave behind: one entry per accepted
      name, holding that name's largest value, in order of first appearance. */
  ghost predicate Summarizes(rs: seq<Terpene>, cs: seq<Candidate>)
  {
    DistinctNames(rs) && HoldsMax(rs, cs) && Covers(rs, cs) && FirstSeenOrder(rs, cs)
  }

  lemma FirstAtSnoc(cs: seq<Candidate>, c: Candidate, name: string)
    ensures FirstAt(cs + [c], name) == (if FirstAt(cs, name).Some? then FirstAt(cs, name)
      else if Accepted(c) && c.name == name then Some(|cs|) else None)
  {
    assert (cs + [c])[..|cs|] == cs;
  }

  lemma MaxForSnoc(cs: seq<Candidate>, c: Candidate, name: string)
    ensures MaxFor(cs + [c], name) == (if Accepted(c) && c.name == name && (MaxFor(cs, name).None? || c.pct.v > MaxFor(cs, name).value)
      then Some(c.pct.v) else MaxFor(cs, name))
  {
    assert (cs + [c])[..|cs|] == cs;
  }

  /** Folding the calls `cs` into an empty list summarises them. */
  lemma {:induction false} FoldAddSummarizes(cs: seq<Candidate>)
    ensures Summarizes(FoldAdd([], cs), cs)
  {
    if cs != [] {
      var init, c := cs[..|cs| - 1], cs[|cs| - 1];
      assert cs == init + [c];
      FoldAddSummarizes(init);
      var rs := FoldAdd([], init);
      if !Accepted(c) {
        AddRejected(rs, init, c);
      } else if IndexOfName(rs, c.name).None? {
        AddNew(rs, init, c);
      } else {
        AddExisting(rs, init, c);
      }
    }
  }

  lemma AddRejected(rs: seq<Terpene>, cs: seq<Candidate>, c: Candidate)
    requires Summarizes(rs, cs) && !Accepted(c)
    ensures Summarizes(Add(rs, c), cs + [c])
  {
    forall name ensures FirstAt(cs + [c], name) == FirstAt(cs, name) {
      FirstAtSnoc(cs, c, name);
    }
    forall name ensures MaxFor(cs + [c], name) == MaxFor(cs, name) {
      MaxForSnoc(cs, c, name);
    }
  }

  lemma AddNew(rs: seq<Terpene>, cs: seq<Candidate>, c: Candidate)
    requires Summarizes(rs, cs) && Accepted(c) && IndexOfName(rs, c.name).None?
    ensures Summarizes(Add(rs, c), cs + [c])
  {
    var rs' := rs + [Terpene(c.name, c.pct.v)];
    assert Add(rs, c) == rs';
    assert !HasName(rs, c.name);
    assert FirstAt(cs, c.name).None?;
    NewDistinct(rs, c);
    NewHoldsMax(rs, cs, c);
    NewCovers(rs, cs, c);
    forall k | 0 <= k < |rs| ensures FirstAt(cs, rs[k].name).Some? {
      assert HasName(rs, rs[k].name);
    }
    NewOrder(rs, rs', cs, c);
  }

  lemma NewDistinct(rs: seq<Terpene>, c: Candidate)
    requires DistinctNames(rs) && !HasName(rs, c.name) && Accepted(c)
    ensures DistinctNames(rs + [Terpene(c.name, c.pct.v)])
  {
  }

  lemma NewHoldsMax(rs: seq<Terpene>, cs: seq<Candidate>, c: Candidate)
    requires HoldsMax(rs, cs) && !HasName(rs, c.name) && Accepted(c) && FirstAt(cs, c.name).None?
    ensures HoldsMax(rs + [Terpene(c.name, c.pct.v)], cs + [c])
  {
    var rs' := rs + [Terpene(c.name, c.pct.v)];
    FirstAtIsFirst(cs, c.name);
    forall i | 0 <= i < |rs'| ensures MaxFor(cs + [c], rs'[i].name) == Some(rs'[i].percentage) {
      MaxForSnoc(cs, c, rs'[i].name);
      if i < |rs| {
        assert rs'[i] == rs[i] && rs[i].name != c.name;
      }
    }
  }

  lemma NewCovers(rs: seq<Terpene>, cs: seq<Candidate>, c: Candidate)
    requires Covers(rs, cs) && Accepted(c)
    ensures Covers(rs + [Terpene(c.name, c.pct.v)], cs + [c])
  {
    var rs' := rs + [Terpene(c.name, c.pct.v)];
    forall name ensures HasName(rs', name) <==> FirstAt(cs + [c], name).Some? {
      FirstAtSnoc(cs, c, name);
      assert HasName(rs, name) <==> FirstAt(cs, name).Some?;
      assert rs'[|rs|].name == c.name;
      if HasName(rs', name) && name != c.name {
        var i :| 0 <= i < |rs'| && rs'[i].name == name;
        assert rs[i].name == name;
      }
      if HasName(rs, name) {
        var i :| 0 <= i < |rs| && rs[i].name == name;
        assert rs'[i].name == name;
      }
    }
  }

  lemma NewOrder(rs: seq<Terpene>, rs': seq<Terpene>, cs: seq<Candidate>, c: Candidate)
    requires FirstSeenOrder(rs, cs) && Accepted(c) && FirstAt(cs, c.name).None?
    requires forall k :: 0 <= k < |rs| ==> FirstAt(cs, rs[k].name).Some?
    requires |rs'| == |rs| + 1 && rs'[|rs|].name == c.name
    requires forall k :: 0 <= k < |rs| ==> rs'[k].name == rs[k].name
    ensures FirstSeenOrder(rs', cs + [c])
  {
    forall i, j | 0 <= i < j < |rs'| ensures SeenBefore(cs + [c], rs'[i].name, rs'[j].name) {
      assert rs'[i].name == rs[i].name;
      if j < |rs| {
        assert rs'[j].name == rs[j].name;
        SeenBeforeKept(cs, c, rs'[i].name, rs'[j].name);
      } else {
        NewSeenLast(cs, c, rs'[i].name);
      }
    }
  }

  /** Appending a call keeps an earlier first appearance. */
  lemma SeenBeforeKept(cs: seq<Candidate>, c: Candidate, a: string, b: string)
    requires SeenBefore(cs, a, b) && FirstAt(cs, b).Some?
    ensures SeenBefore(cs + [c], a, b)
  {
    FirstAtSnoc(cs, c, a);
    FirstAtSnoc(cs, c, b);
  }

  /** A name seen before the call `c` that introduces a new name comes first. */
  lemma NewSeenLast(cs: seq<Candidate>, c: Candidate, a: string)
    requires FirstAt(cs, a).Some? && Accepted(c) && FirstAt(cs, c.name).None?
    ensures SeenBefore(cs + [c], a, c.name)
  {
    FirstAtSnoc(cs, c, a);
    FirstAtSnoc(cs, c, c.name);
  }

  lemma AddExisting(rs: seq<Terpene>, cs: seq<Candidate>, c: Candidate)
    requires Summarizes(rs, cs) && Accepted(c) && IndexOfName(rs, c.name).Some?
    ensures Summarizes(Add(rs, c), cs + [c])
  {
    var rs' := Add(rs, c);
    var i0 := IndexOfName(rs, c.name).value;
    assert HasName(rs, c.name);
    assert |rs'| == |rs| && forall k :: 0 <= k < |rs| ==> rs'[k].name == rs[k].name;
    assert forall k :: 0 <= k < |rs| && k != i0 ==> rs'[k] == rs[k];
    assert MaxFor(cs, c.name) == Some(rs[i0].percentage);
    assert DistinctNames(rs');
    ExistingHoldsMax(rs, cs, c, i0);
    SameNamesCovers(rs, rs', cs, c);
    SameNamesOrder(rs, rs', cs, c);
  }

  lemma ExistingHoldsMax(rs: seq<Terpene>, cs: seq<Candidate>, c: Candidate, i0: nat)
    requires HoldsMax(rs, cs) && DistinctNames(rs) && Accepted(c)
    requires i0 < |rs| && rs[i0].name == c.name
    ensures HoldsMax(if c.pct.v > rs[i0].percentage then rs[i0 := Terpene(c.name, c.pct.v)] else rs, cs + [c])
  {
    var rs' := if c.pct.v > rs[i0].percentage then rs[i0 := Terpene(c.name, c.pct.v)] else rs;
    forall i | 0 <= i < |rs'| ensures MaxFor(cs + [c], rs'[i].name) == Some(rs'[i].percentage) {
      MaxForSnoc(cs, c, rs'[i].name);
      if i != i0 {
        assert rs'[i] == rs[i] && rs[i].name != c.name;
      }
    }
  }

  lemma SameNamesCovers(rs: seq<Terpene>, rs': seq<Terpene>, cs: seq<Candidate>, c: Candidate)
    requires Covers(rs, cs) && HasName(rs, c.name)
    requires |rs'| == |rs| && forall k :: 0 <= k < |rs| ==> rs'[k].name == rs[k].name
    ensures Covers(rs', cs + [c])
  {
    forall name ensures HasName(rs', name) <==> FirstAt(cs + [c], name).Some? {
      FirstAtSnoc(cs, c, name);
      assert HasName(rs, name) <==> FirstAt(cs, name).Some?;
      assert HasName(rs, c.name) <==> FirstAt(cs, c.name).Some?;
      if HasName(rs', name) {
        var k :| 0 <= k < |rs'| && rs'[k].name == name;
        assert rs[k].name == name;
      }
      if HasName(rs, name) {
        var k :| 0 <= k < |rs| && rs[k].name == name;
        assert rs'[k].name == name;
      }
    }
  }

  lemma SameNamesOrder(rs: seq<Terpene>, rs': seq<Terpene>, cs: seq<Candidate>, c: Candidate)
    requires FirstSeenOrder(rs, cs) && Covers(rs, cs)
    requires |rs'| == |rs| && forall k :: 0 <= k < |rs| ==> rs'[k].name == rs[k].name
    ensures FirstSeenOrder(rs', cs + [c])
  {
    forall i, j | 0 <= i < j < |rs'| ensures SeenBefore(cs + [c], rs'[i].name, rs'[j].name) {
      assert HasName(rs, rs[i].name) && HasName(rs, rs[j].name);
      SeenBeforeKept(cs, c, rs[i].name, rs[j].name);
    }
  }
}
