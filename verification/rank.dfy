/** The highlighting of one comparison row: which rows are shown, and which
    cell is marked as the maximum, the runner-up, or muted. */
module Rank {
  import opened JsonValue
  import opened Percent

  /** The class a cell gets: `ssi-max`, `ssi-second`, `ssi-muted`, or none. */
  datatype Mark = MaxMark | SecondMark | Muted | Plain

  /** `n !== null && n > 0` for a parsed cell (NaN is not above 0). */
  predicate Positive(c: Parsed)
  {
    c.PNum? && c.v > 0.0
  }

  /** `hasAnyNonZero`: the row is shown. */
  predicate Visible(cells: seq<Parsed>)
  {
    exists i :: 0 <= i < |cells| && Positive(cells[i])
  }

  predicate Under(v: real, bound: Option<real>)
  {
    bound.None? || v < bound.value
  }

  /** The largest positive value of `cells[..n]` below `bound`: with no
      bound `uniq[0]`, below `uniq[0]` it is `uniq[1]`, where `uniq` is the
      distinct positive values sorted downwards. */
  function Largest(cells: seq<Parsed>, bound: Option<real>, n: nat): (r: Option<real>)
    requires n <= |cells|
    ensures r.Some? ==> r.value > 0.0 && Under(r.value, bound) && exists i :: 0 <= i < n && cells[i] == PNum(r.value)
    ensures r.Some? ==> forall i :: 0 <= i < n && Positive(cells[i]) && Under(cells[i].v, bound) ==> cells[i].v <= r.value
    ensures r.None? <==> forall i :: 0 <= i < n ==> !(Positive(cells[i]) && Under(cells[i].v, bound))
  {
    if n == 0 then None
    else
      var r := Largest(cells, bound, n - 1);
      var c := cells[n - 1];
      if Positive(c) && Under(c.v, bound) && (r.None? || c.v > r.value) then Some(c.v) else r
  }

  /** The class of one cell once `max` and `second` are known. */
  function CellMark(c: Parsed, max: real, second: Option<real>): Mark
  {
    if !c.PNum? || c.v == 0.0 then Muted
    else if c.v == max then MaxMark
    else if second.Some? && c.v == second.value then SecondMark
    else Plain
  }

  /** The classes of a row's cells, in order. */
  function Rank(cells: seq<Parsed>): (marks: seq<Mark>)
    ensures |marks| == |cells|
  {
    var max := Largest(cells, None, |cells|);
    if max.None? then seq(|cells|, i => Muted)
    else
      var second := Largest(cells, max, |cells|);
      seq(|cells|, i requires 0 <= i < |cells| => CellMark(cells[i], max.value, second))
  }

  /** Cell `i` holds the row's largest number, and it is positive. */
  predicate IsTop(cells: seq<Parsed>, i: nat)
    requires i < |cells|
  {
    Positive(cells[i]) && forall j :: 0 <= j < |cells| && cells[j].PNum? ==> cells[j].v <= cells[i].v
  }

  /** Cell `i` is positive and exactly one distinct number of the row lies
      above it. */
  predicate IsRunnerUp(cells: seq<Parsed>, i: nat)
    requires i < |cells|
  {
    Positive(cells[i])
    && (exists j :: 0 <= j < |cells| && cells[j].PNum? && cells[j].v > cells[i].v)
    && forall j, k ::
         (0 <= j < |cells| && 0 <= k < |cells| && cells[j].PNum? && cells[k].PNum? && cells[j].v > cells[i].v && cells[k].v > cells[i].v)
         ==> cells[j].v == cells[k].v
  }

  /** A row is shown exactly when it has a maximum. */
  lemma VisibleIffMax(cells: seq<Parsed>)
    ensures Visible(cells) <==> Largest(cells, None, |cells|).Some?
    ensures Visible(cells) ==> exists i :: 0 <= i < |cells| && Rank(cells)[i] == MaxMark
  {
    var max := Largest(cells, None, |cells|);
    if max.Some? {
      var i :| 0 <= i < |cells| && cells[i] == PNum(max.value);
      assert Rank(cells)[i] == MaxMark;
    }
  }

  /** Every cell holding the largest positive number is marked max, ties
      included, and no other cell is. */
  lemma MaxMarkReference(cells: seq<Parsed>, i: nat)
    requires i < |cells|
    ensures Rank(cells)[i] == MaxMark <==> IsTop(cells, i)
  {
    var max := Largest(cells, None, |cells|);
    if IsTop(cells, i) {
      assert max.Some?;
      assert cells[i].v == max.value;
    }
    if Rank(cells)[i] == MaxMark {
      forall j | 0 <= j < |cells| && cells[j].PNum? ensures cells[j].v <= cells[i].v {
        if cells[j].v > 0.0 {
          assert Positive(cells[j]);
        }
      }
    }
  }

  /** Cells holding the next distinct positive number below the maximum are
      marked second, and no other cell is. */
  lemma SecondMarkReference(cells: seq<Parsed>, i: nat)
    requires i < |cells|
    ensures Rank(cells)[i] == SecondMark <==> IsRunnerUp(cells, i)
  {
    var max := Largest(cells, None, |cells|);
    if max.Some? {
      var second := Largest(cells, max, |cells|);
      var t :| 0 <= t < |cells| && cells[t] == PNum(max.value);
      if Rank(cells)[i] == SecondMark {
        assert cells[t].v > cells[i].v;
        forall j | 0 <= j < |cells| && cells[j].PNum? && cells[j].v > cells[i].v ensures cells[j].v == max.value {
          assert Positive(cells[j]);
        }
      }
      if IsRunnerUp(cells, i) {
        var j :| 0 <= j < |cells| && cells[j].PNum? && cells[j].v > cells[i].v;
        assert Positive(cells[j]);
        assert cells[t].v > cells[i].v;
        assert Under(cells[i].v, max);
        assert second.Some?;
        var s :| 0 <= s < |cells| && cells[s] == PNum(second.value);
        assert cells[s].v >= cells[i].v;
        assert cells[s].v > cells[i].v ==> cells[s].v == cells[t].v;
      }
    }
  }

  /** Null, NaN and zero cells are muted, and so is every cell of a row
      with no positive number; nothing else is. */
  lemma MutedReference(cells: seq<Parsed>, i: nat)
    requires i < |cells|
    ensures Rank(cells)[i] == Muted <==> !Visible(cells) || !cells[i].PNum? || cells[i].v == 0.0
  {
    VisibleIffMax(cells);
  }

  /** In a shown row a negative number gets no class. */
  lemma NegativePlain(cells: seq<Parsed>, i: nat)
    requires i < |cells| && Visible(cells) && cells[i].PNum? && cells[i].v < 0.0
    ensures Rank(cells)[i] == Plain
  {
    VisibleIffMax(cells);
  }
}
