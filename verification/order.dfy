/** The order the comparison view sorts its row labels by: code-unit
    (lexicographic) order on strings, and the sort of a set of labels. */
module Order {

  /** `a` sorts strictly before `b`: a proper prefix comes first, otherwise
      the first differing character decides. */
  predicate Below(a: string, b: string)
    decreases |a|
  {
    |b| > 0 && (|a| == 0 || a[0] < b[0] || (a[0] == b[0] && Below(a[1..], b[1..])))
  }

  lemma {:induction false} BelowIrreflexive(a: string)
    ensures !Below(a, a)
    decreases |a|
  {
    if |a| > 0 {
      BelowIrreflexive(a[1..]);
    }
  }

  lemma {:induction false} BelowTransitive(a: string, b: string, c: string)
    requires Below(a, b) && Below(b, c)
    ensures Below(a, c)
    decreases |a|
  {
    if |a| > 0 && a[0] == b[0] && b[0] == c[0] {
      BelowTransitive(a[1..], b[1..], c[1..]);
    }
  }

  lemma {:induction false} BelowTotal(a: string, b: string)
    requires a != b
    ensures Below(a, b) || Below(b, a)
    decreases |a|
  {
    if |a| > 0 && |b| > 0 && a[0] == b[0] {
      assert a == [a[0]] + a[1..] && b == [b[0]] + b[1..];
      BelowTotal(a[1..], b[1..]);
    }
  }

  /** `r` is in strictly increasing order, hence free of duplicates. */
  predicate Increasing(r: seq<string>)
  {
    forall i, j :: 0 <= i < j < |r| ==> Below(r[i], r[j])
  }

  function Elements(r: seq<string>): set<string>
  {
    set x | x in r
  }

  /** Insert `x` at its place in the increasing list `r`. */
  method Insert(r: seq<string>, x: string) returns (q: seq<string>)
    requires Increasing(r) && x !in r
    ensures Increasing(q) && Elements(q) == Elements(r) + {x}
  {
    var i := 0;
    while i < |r| && Below(r[i], x)
      invariant i <= |r|
      invariant forall k :: 0 <= k < i ==> Below(r[k], x)
    {
      i := i + 1;
    }
    AfterPlace(r, x, i);
    q := r[..i] + [x] + r[i..];
    InsertedIncreasing(r, x, i);
    InsertedElements(r, x, i);
  }

  /** Past the first element not below `x`, every element is above `x`. */
  lemma AfterPlace(r: seq<string>, x: string, i: nat)
    requires Increasing(r) && x !in r && i <= |r|
    requires i < |r| ==> !Below(r[i], x)
    ensures forall k :: i <= k < |r| ==> Below(x, r[k])
  {
    if i < |r| {
      BelowTotal(r[i], x);
      forall k | i < k < |r| ensures Below(x, r[k]) {
        BelowTransitive(x, r[i], r[k]);
      }
    }
  }

  lemma InsertedIncreasing(r: seq<string>, x: string, i: nat)
    requires Increasing(r) && i <= |r|
    requires forall k :: 0 <= k < i ==> Below(r[k], x)
    requires forall k :: i <= k < |r| ==> Below(x, r[k])
    ensures Increasing(r[..i] + [x] + r[i..])
  {
    var q := r[..i] + [x] + r[i..];
    forall a, b | 0 <= a < b < |q| ensures Below(q[a], q[b]) {
      if b <= i {
      } else if a < i {
        assert q[b] == r[b - 1];
      } else if a == i {
        assert q[b] == r[b - 1];
      } else {
        assert q[a] == r[a - 1] && q[b] == r[b - 1];
      }
    }
  }

  lemma InsertedElements(r: seq<string>, x: string, i: nat)
    requires i <= |r|
    ensures Elements(r[..i] + [x] + r[i..]) == Elements(r) + {x}
  {
    assert r == r[..i] + r[i..];
  }

  /** `Array.from(labels).sort()`: the labels in increasing order. */
  method SortLabels(labels: set<string>) returns (r: seq<string>)
    ensures Increasing(r) && Elements(r) == labels
  {
    r := [];
    var rest := labels;
    while rest != {}
      invariant Increasing(r)
      invariant Elements(r) + rest == labels && Elements(r) !! rest
      decreases |rest|
    {
      var x :| x in rest;
      r := Insert(r, x);
      rest := rest - {x};
    }
  }

  /** An increasing list is determined by its elements: the sort has exactly
      one possible result. */
  lemma {:induction false} IncreasingUnique(a: seq<string>, b: seq<string>)
    requires Increasing(a) && Increasing(b) && Elements(a) == Elements(b)
    ensures a == b
    decreases |a|
  {
    assert a != [] ==> a[0] in Elements(a);
    assert b != [] ==> b[0] in Elements(b);
    if a != [] && b != [] {
      assert a[0] == b[0] by {
        if a[0] != b[0] {
          assert a[0] in Elements(b) && b[0] in Elements(a);
          var i :| 0 <= i < |b| && b[i] == a[0];
          var j :| 0 <= j < |a| && a[j] == b[0];
          BelowIrreflexive(a[0]);
          BelowIrreflexive(b[0]);
          assert Below(b[0], a[0]) && Below(a[0], b[0]);
          BelowTransitive(a[0], b[0], a[0]);
        }
      }
      assert Elements(a[1..]) == Elements(b[1..]) by {
        forall y ensures y in Elements(a[1..]) <==> y in Elements(b[1..]) {
          if y in a[1..] {
            assert y in Elements(b);
            BelowIrreflexive(a[0]);
            assert y != b[0];
          }
          if y in b[1..] {
            assert y in Elements(a);
            BelowIrreflexive(b[0]);
            assert y != a[0];
          }
        }
      }
      IncreasingUnique(a[1..], b[1..]);
      assert a == [a[0]] + a[1..] && b == [b[0]] + b[1..];
    }
  }
}
