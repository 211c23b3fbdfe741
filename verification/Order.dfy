/** The order in which `BTreeMap<String, _>` and `BTreeSet<String>` iterate. */
module Order {

  predicate AtMost(a: string, b: string) {
    a == "" || (b != "" && (a[0] < b[0] || (a[0] == b[0] && AtMost(a[1..], b[1..]))))
  }

  lemma {:induction false} AtMostTotal(a: string, b: string)
    ensures AtMost(a, b) || AtMost(b, a)
    ensures AtMost(a, b) && AtMost(b, a) ==> a == b
  {
    if a != "" && b != "" {
      AtMostTotal(a[1..], b[1..]);
      assert a == [a[0]] + a[1..] && b == [b[0]] + b[1..];
    }
  }

  lemma {:induction false} AtMostTransitive(a: string, b: string, c: string)
    requires AtMost(a, b) && AtMost(b, c)
    ensures AtMost(a, c)
  {
    if a != "" && a[0] == c[0] {
      assert a[0] == b[0] && b[0] == c[0];
      AtMostTransitive(a[1..], b[1..], c[1..]);
    }
  }

  predicate IsLeast(m: string, s: set<string>) { m in s && forall x <- s :: AtMost(m, x) }

  lemma {:induction false} LeastExists(s: set<string>)
    requires s != {}
    ensures exists m :: IsLeast(m, s)
    decreases |s|
  {
    var x :| x in s;
    var rest := s - {x};
    AtMostTotal(x, x);
    if rest == {} {
      assert s == {x};
      assert IsLeast(x, s);
    } else {
      LeastExists(rest);
      var m :| IsLeast(m, rest);
      AtMostTotal(x, m);
      var least := if AtMost(x, m) then x else m;
      forall y | y in s ensures AtMost(least, y) {
        if y != x && least == x {
          AtMostTransitive(x, m, y);
        }
      }
      assert IsLeast(least, s);
    }
  }

  function Least(s: set<string>): (m: string)
    requires s != {}
    ensures IsLeast(m, s)
  {
    LeastExists(s);
    assert forall a, b | IsLeast(a, s) && IsLeast(b, s) :: a == b by {
      forall a, b | IsLeast(a, s) && IsLeast(b, s) ensures a == b {
        AtMostTotal(a, b);
      }
    }
    var m :| IsLeast(m, s);
    m
  }

  /** The elements in ascending order, each once. */
  function Sorted(s: set<string>): (r: seq<string>)
    ensures forall x :: x in r <==> x in s
    ensures forall i, j | 0 <= i < j < |r| :: r[i] != r[j] && AtMost(r[i], r[j])
    decreases |s|
  {
    if s == {} then []
    else
      var m := Least(s);
      [m] + Sorted(s - {m})
  }

  /** The elements of a sequence that are in a set, in order. */
  function Keep(xs: seq<string>, s: set<string>): seq<string> {
    if xs == [] then [] else if xs[0] in s then [xs[0]] + Keep(xs[1..], s) else Keep(xs[1..], s)
  }

  lemma LeastOfPart(all: set<string>, part: set<string>)
    requires part <= all && all != {} && Least(all) in part
    ensures Least(part) == Least(all)
  {
    AtMostTotal(Least(part), Least(all));
  }

  lemma SortedStep(s: set<string>)
    requires s != {}
    ensures Sorted(s) == [Least(s)] + Sorted(s - {Least(s)})
  {}

  lemma SortedOne(x: string)
    ensures Sorted({x}) == [x]
  {
    SortedStep({x});
    assert {x} - {x} == {};
  }

  lemma KeepStep(m: string, rest: seq<string>, s: set<string>)
    ensures Keep([m] + rest, s) == if m in s then [m] + Keep(rest, s) else Keep(rest, s)
  {
    assert ([m] + rest)[1..] == rest;
  }

  lemma SortedPart(all: set<string>, part: set<string>)
    requires part <= all && all != {} && Least(all) in part
    ensures Sorted(part) == [Least(all)] + Sorted(part - {Least(all)})
  {
    LeastOfPart(all, part);
    SortedStep(part);
  }

  lemma PartWithout(all: set<string>, s: set<string>, m: string)
    ensures all * s - {m} == (all - {m}) * s
    ensures m !in s ==> all * s == (all - {m}) * s
  {}

  /** Part of a set sorts as part of the sorted whole. */
  lemma {:induction false} SortedKeep(all: set<string>, s: set<string>)
    ensures Keep(Sorted(all), s) == Sorted(all * s)
    decreases |all|
  {
    if all == {} {
      assert all * s == {};
    } else {
      var m := Least(all);
      var rest := all - {m};
      SortedStep(all);
      KeepStep(m, Sorted(rest), s);
      SortedKeep(rest, s);
      PartWithout(all, s, m);
      if m in s {
        SortedPart(all, all * s);
      }
    }
  }
}
