/** Facts about sequences of ids shared by the back end and the front end. */
module Sequences {

  /** No string occurs twice in `s`. */
  predicate Distinct(s: seq<string>) {
    forall i, j :: 0 <= i < j < |s| ==> s[i] != s[j]
  }

  /** The strings of a sequence. */
  function Elems(s: seq<string>): set<string> {
    set x | x in s
  }

  /** A duplicate-free sequence drawn from `s` is no longer than `s`. */
  lemma DistinctSubsetLength(r: seq<string>, s: seq<string>)
    requires Distinct(r)
    requires forall x :: x in r ==> x in s
    ensures |r| <= |s|
  {
    DistinctCardinality(r);
    SetLength(s);
    assert Elems(r) <= Elems(s);
    assert |Elems(r)| <= |Elems(s)| by {
      SubsetCardinality(Elems(r), Elems(s));
    }
  }

  lemma {:induction false} DistinctCardinality(r: seq<string>)
    requires Distinct(r)
    ensures |Elems(r)| == |r|
  {
    if r != [] {
      assert Distinct(r[1..]);
      DistinctCardinality(r[1..]);
      assert Elems(r) == Elems(r[1..]) + {r[0]};
      assert r[0] !in Elems(r[1..]);
    }
  }

  lemma {:induction false} SetLength(s: seq<string>)
    ensures |Elems(s)| <= |s|
  {
    if s != [] {
      SetLength(s[1..]);
      assert Elems(s) == Elems(s[1..]) + {s[0]};
    }
  }

  lemma SubsetCardinality(a: set<string>, b: set<string>)
    requires a <= b
    ensures |a| <= |b|
  {
    assert b == a + (b - a);
  }
}
