/**
 * Python's ordering of strings (code point by code point, a proper prefix
 * first), `sorted` on a set of stage names, and the stage facet order that
 * moves "Other" to the end.
 */
module Ordering {

  /** `a < b` on Python strings. */
  predicate StrLt(a: string, b: string)
    decreases |a|
  {
    if a == [] then b != []
    else b != [] && (a[0] < b[0] || (a[0] == b[0] && StrLt(a[1..], b[1..])))
  }

  lemma {:induction false} StrLtIrreflexive(a: string)
    ensures !StrLt(a, a)
  {
    if a != [] {
      StrLtIrreflexive(a[1..]);
    }
  }

  lemma {:induction false} StrLtTransitive(a: string, b: string, c: string)
    requires StrLt(a, b) && StrLt(b, c)
    ensures StrLt(a, c)
    decreases |a|
  {
    if a != [] && a[0] == b[0] && b[0] == c[0] {
      StrLtTransitive(a[1..], b[1..], c[1..]);
    }
  }

  lemma {:induction false} StrLtTotal(a: string, b: string)
    ensures a == b || StrLt(a, b) || StrLt(b, a)
    decreases |a|
  {
    if a != [] && b != [] && a[0] == b[0] {
      StrLtTotal(a[1..], b[1..]);
      if a[1..] == b[1..] {
        assert a == [a[0]] + a[1..] && b == [b[0]] + b[1..];
      }
    }
  }

  lemma StrLtAsymmetric(a: string, b: string)
    requires StrLt(a, b)
    ensures !StrLt(b, a)
  {
    if StrLt(b, a) {
      StrLtTransitive(a, b, a);
      StrLtIrreflexive(a);
    }
  }

  /** Ascending without repetitions. */
  predicate StrictlySorted(s: seq<string>) {
    forall i, j :: 0 <= i < j < |s| ==> StrLt(s[i], s[j])
  }

  /** `s` lists the elements of `t` in ascending order, each once: `sorted(t)`. */
  ghost predicate SortedOver(s: seq<string>, t: set<string>) {
    StrictlySorted(s) && (forall x :: x in s <==> x in t)
  }

  /** Insertion of a new element into an ascending list. */
  function InsertSorted(s: seq<string>, x: string): (r: seq<string>)
    requires StrictlySorted(s) && x !in s
    ensures StrictlySorted(r)
    ensures forall y :: y in r <==> y in s || y == x
    ensures |r| == |s| + 1
  {
    if s == [] then [x]
    else if StrLt(x, s[0]) then
      assert forall j :: 0 <= j < |s| ==> StrLt(x, s[j]) by {
        forall j | 0 <= j < |s| ensures StrLt(x, s[j]) {
          if j > 0 { StrLtTransitive(x, s[0], s[j]); }
        }
      }
      [x] + s
    else
      StrLtTotal(x, s[0]);
      var tail := InsertSorted(s[1..], x);
      assert forall y :: y in tail ==> StrLt(s[0], y);
      [s[0]] + tail
  }

  /** The only ascending list of a set: `sorted` has exactly one possible result. */
  lemma {:induction false} SortedOverUnique(a: seq<string>, b: seq<string>, t: set<string>)
    requires SortedOver(a, t) && SortedOver(b, t)
    ensures a == b
    decreases |a|
  {
    if a != [] {
      assert a[0] in b;
      if b == [] {
        assert false;
      }
      if a[0] != b[0] {
        assert b[0] in a;
        var i :| 0 < i < |a| && a[i] == b[0];
        var j :| 0 < j < |b| && b[j] == a[0];
        assert StrLt(a[0], a[i]) && StrLt(b[0], b[j]);
        StrLtAsymmetric(a[0], a[i]);
      }
      var t' := t - {a[0]};
      forall x
        ensures x in a[1..] <==> x in t'
      {
        if x in a[1..] {
          StrLtIrreflexive(x);
        }
      }
      forall x
        ensures x in b[1..] <==> x in t'
      {
        if x in b[1..] {
          StrLtIrreflexive(x);
        }
      }
      SortedOverUnique(a[1..], b[1..], t');
      assert a == [a[0]] + a[1..] && b == [b[0]] + b[1..];
    } else {
      HeadIn(b);
    }
  }

  lemma HeadIn(s: seq<string>)
    ensures s != [] ==> s[0] in s
  {
  }

  /**
   * The stage facet list: every element of `t` exactly once; when "Other"
   * is one of them it comes last, and the others are ascending.
   */
  ghost predicate IsFacetOrder(r: seq<string>, t: set<string>) {
    if "Other" in t then |r| > 0 && r[|r| - 1] == "Other" && SortedOver(r[..|r| - 1], t - {"Other"})
    else SortedOver(r, t)
  }

  /** What a facet list promises its reader. */
  lemma FacetOrderProperties(r: seq<string>, t: set<string>)
    requires IsFacetOrder(r, t)
    ensures forall x :: x in r <==> x in t
    ensures forall i, j :: 0 <= i < j < |r| ==> r[i] != r[j]
    ensures forall i, j :: 0 <= i < j < |r| && r[i] != "Other" && r[j] != "Other" ==> StrLt(r[i], r[j])
    ensures "Other" in t ==> r[|r| - 1] == "Other"
  {
    var body := if "Other" in t then r[..|r| - 1] else r;
    assert forall i :: 0 <= i < |body| ==> body[i] == r[i];
    forall i, j | 0 <= i < j < |r|
      ensures r[i] != r[j]
    {
      if j < |body| {
        StrLtIrreflexive(r[i]);
      } else {
        assert r[i] in body;
      }
    }
    forall x
      ensures x in r <==> x in t
    {
      if "Other" in t {
        assert r == body + ["Other"];
      }
    }
  }

  /** There is exactly one facet list for a set of stage names. */
  lemma FacetOrderUnique(a: seq<string>, b: seq<string>, t: set<string>)
    requires IsFacetOrder(a, t) && IsFacetOrder(b, t)
    ensures a == b
  {
    if "Other" in t {
      SortedOverUnique(a[..|a| - 1], b[..|b| - 1], t - {"Other"});
      assert a == a[..|a| - 1] + ["Other"] && b == b[..|b| - 1] + ["Other"];
    } else {
      SortedOverUnique(a, b, t);
    }
  }

  /** The position of the first occurrence of `x`. */
  function IndexOf(s: seq<string>, x: string): (i: nat)
    requires x in s
    ensures i < |s| && s[i] == x && x !in s[..i]
  {
    if s[0] == x then 0 else 1 + IndexOf(s[1..], x)
  }

  /** Dropping one element of an ascending list leaves it ascending, without that element. */
  lemma {:induction false} RemoveAtSorted(s: seq<string>, t: set<string>, i: nat)
    requires SortedOver(s, t) && i < |s|
    ensures SortedOver(s[..i] + s[i + 1..], t - {s[i]})
  {
    var r := s[..i] + s[i + 1..];
    assert forall k :: 0 <= k < |r| ==> r[k] == s[if k < i then k else k + 1];
    forall k | 0 <= k < |s| && k != i
      ensures s[k] != s[i]
    {
      StrLtIrreflexive(s[i]);
      assert StrLt(s[if k < i then k else i], s[if k < i then i else k]);
    }
    forall x
      ensures x in r <==> x in t - {s[i]}
    {
      if x in s && x != s[i] {
        var k :| 0 <= k < |s| && s[k] == x;
        assert x == r[if k < i then k else k - 1];
      }
      if x in r {
        var k :| 0 <= k < |r| && r[k] == x;
        var k' := if k < i then k else k + 1;
        assert s[k'] == x && k' != i;
      }
    }
  }

  /**
   * `stages = sorted(t)` followed by `if "Other" in stages:
   * stages.remove("Other"); stages.append("Other")`.
   */
  method OrderFacets(t: set<string>) returns (stages: seq<string>)
    ensures IsFacetOrder(stages, t)
  {
    stages := [];
    var rest := t;
    while rest != {}
      invariant rest <= t
      invariant SortedOver(stages, t - rest)
      decreases |rest|
    {
      var x :| x in rest;
      stages := InsertSorted(stages, x);
      rest := rest - {x};
    }
    assert SortedOver(stages, t);
    if "Other" in stages {
      var i := IndexOf(stages, "Other");
      RemoveAtSorted(stages, t, i);
      stages := stages[..i] + stages[i + 1..];
      stages := stages + ["Other"];
    }
  }
}
