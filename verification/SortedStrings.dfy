/** Go's string order, and the sorted listing of a set of strings (slices.Sorted, sets.List). */
module SortedStrings {

  /** Go compares strings byte by byte; a proper prefix comes first. */
  predicate AtMost(a: string, b: string) {
    a == "" || (b != "" && (a[0] < b[0] || (a[0] == b[0] && AtMost(a[1..], b[1..]))))
  }

  lemma {:induction false} AtMostTotal(a: string, b: string)
    ensures AtMost(a, b) || AtMost(b, a)
    ensures AtMost(a, b) && AtMost(b, a) ==> a == b
    decreases |a|
  {
    if a != "" && b != "" && a[0] == b[0] {
      AtMostTotal(a[1..], b[1..]);
      assert a == [a[0]] + a[1..] && b == [b[0]] + b[1..];
    }
  }

  lemma {:induction false} AtMostTransitive(a: string, b: string, c: string)
    requires AtMost(a, b) && AtMost(b, c)
    ensures AtMost(a, c)
    decreases |a|
  {
    if a != "" && a[0] == b[0] == c[0] {
      AtMostTransitive(a[1..], b[1..], c[1..]);
    }
  }

  predicate Least(s: set<string>, x: string) {
    x in s && forall y :: y in s ==> AtMost(x, y)
  }

  lemma {:induction false} LeastExists(s: set<string>)
    requires s != {}
    ensures exists x :: Least(s, x)
    decreases |s|
  {
    var x :| x in s;
    AtMostTotal(x, x);
    if s != {x} {
      var rest := s - {x};
      assert s == rest + {x};
      LeastExists(rest);
      var y :| Least(rest, y);
      AtMostTotal(x, y);
      if AtMost(x, y) {
        forall z | z in rest
          ensures AtMost(x, z)
        {
          AtMostTransitive(x, y, z);
        }
        assert Least(s, x);
      } else {
        assert Least(s, y);
      }
    } else {
      assert Least(s, x);
    }
  }

  lemma LeastUnique(s: set<string>, x: string, y: string)
    requires Least(s, x) && Least(s, y)
    ensures x == y
  {
    AtMostTotal(x, y);
  }

  /** The members of `s` in increasing order. */
  function Sorted(s: set<string>): (r: seq<string>)
    ensures |r| == |s|
    ensures forall x :: x in r <==> x in s
    decreases |s|
  {
    if s == {} then []
    else
      LeastExists(s);
      assert forall x, y :: Least(s, x) && Least(s, y) ==> x == y by {
        forall x, y | Least(s, x) && Least(s, y)
          ensures x == y
        {
          LeastUnique(s, x, y);
        }
      }
      var x :| Least(s, x);
      [x] + Sorted(s - {x})
  }

  lemma SortedStep(s: set<string>)
    requires s != {}
    ensures var x := Sorted(s)[0];
            Least(s, x) && Sorted(s) == [x] + Sorted(s - {x})
  {
  }

  ghost predicate Increasing(r: seq<string>) {
    forall i, j :: 0 <= i < j < |r| ==> AtMost(r[i], r[j]) && r[i] != r[j]
  }

  lemma {:induction false} SortedIncreasing(s: set<string>)
    ensures Increasing(Sorted(s))
    decreases |s|
  {
    if s != {} {
      var r := Sorted(s);
      SortedStep(s);
      hide Sorted, AtMost;
      SortedIncreasing(s - {r[0]});
      forall i, j | 0 <= i < j < |r|
        ensures AtMost(r[i], r[j]) && r[i] != r[j]
      {
        assert r[j] == Sorted(s - {r[0]})[j - 1];
        assert r[j] in Sorted(s - {r[0]});
        if i > 0 { assert r[i] == Sorted(s - {r[0]})[i - 1]; }
      }
    }
  }
}
