/**
 * The filter steps shared by the tool and method pages: list comprehensions
 * that keep the elements satisfying a condition, the AND filter over selected
 * regulatory questions and the case-insensitive search on `service`.
 */
module Filters {
  import opened Wrappers
  import opened PyValues
  import opened RegQuestions

  /** `a` is `b` with some elements dropped, the rest in their original order. */
  predicate IsSubsequence<T(==)>(a: seq<T>, b: seq<T>)
    decreases |b|
  {
    a == [] || (b != [] && ((a[0] == b[0] && IsSubsequence(a[1..], b[1..])) || IsSubsequence(a, b[1..])))
  }

  lemma {:induction false} SubsequenceReflexive<T>(xs: seq<T>)
    ensures IsSubsequence(xs, xs)
  {
    if xs != [] {
      SubsequenceReflexive(xs[1..]);
    }
  }

  /** Dropping elements twice is dropping elements once. */
  lemma {:induction false} SubsequenceTransitive<T>(a: seq<T>, b: seq<T>, c: seq<T>)
    requires IsSubsequence(a, b) && IsSubsequence(b, c)
    ensures IsSubsequence(a, c)
    decreases |c|
  {
    if a != [] {
      if b[0] == c[0] && IsSubsequence(b[1..], c[1..]) {
        if a[0] == b[0] && IsSubsequence(a[1..], b[1..]) {
          SubsequenceTransitive(a[1..], b[1..], c[1..]);
        } else {
          SubsequenceTransitive(a, b[1..], c[1..]);
        }
      } else {
        SubsequenceTransitive(a, b, c[1..]);
      }
    }
  }

  /** `[x for x in xs if p(x)]` */
  function Keep<T(==)>(xs: seq<T>, p: T -> bool): (r: seq<T>)
    ensures |r| <= |xs|
    ensures forall i :: 0 <= i < |r| ==> r[i] in xs && p(r[i])
    ensures forall i :: 0 <= i < |xs| && p(xs[i]) ==> xs[i] in r
    ensures IsSubsequence(r, xs)
  {
    if xs == [] then []
    else if p(xs[0]) then [xs[0]] + Keep(xs[1..], p)
    else Keep(xs[1..], p)
  }

  lemma {:induction false} KeepAppend<T>(a: seq<T>, b: seq<T>, p: T -> bool)
    ensures Keep(a + b, p) == Keep(a, p) + Keep(b, p)
  {
    if a != [] {
      assert (a + b)[0] == a[0];
      assert (a + b)[1..] == a[1..] + b;
      KeepAppend(a[1..], b, p);
      if p(a[0]) {
        calc {
          Keep(a + b, p);
          [a[0]] + Keep(a[1..] + b, p);
          [a[0]] + (Keep(a[1..], p) + Keep(b, p));
          ([a[0]] + Keep(a[1..], p)) + Keep(b, p);
        }
      }
    } else {
      assert a + b == b;
    }
  }

  /** A filter whose condition already holds everywhere changes nothing. */
  lemma {:induction false} KeepAllHold<T>(xs: seq<T>, p: T -> bool)
    requires forall i :: 0 <= i < |xs| ==> p(xs[i])
    ensures Keep(xs, p) == xs
  {
    if xs != [] {
      KeepAllHold(xs[1..], p);
    }
  }

  /** Only the condition's values on the elements matter. */
  lemma {:induction false} KeepCongruent<T>(xs: seq<T>, p: T -> bool, q: T -> bool)
    requires forall i :: 0 <= i < |xs| ==> p(xs[i]) == q(xs[i])
    ensures Keep(xs, p) == Keep(xs, q)
  {
    if xs != [] {
      KeepCongruent(xs[1..], p, q);
    }
  }

  /** Two filters in a row keep what both conditions together keep. */
  lemma {:induction false} KeepKeep<T>(xs: seq<T>, p: T -> bool, q: T -> bool)
    ensures Keep(Keep(xs, p), q) == Keep(xs, x => p(x) && q(x))
  {
    if xs != [] {
      KeepKeep(xs[1..], p, q);
    }
  }

  /** Filtering a list is filtering all but its last element, then the last. */
  lemma KeepLast<T>(xs: seq<T>, p: T -> bool)
    requires xs != []
    ensures Keep(xs, p) == Keep(xs[..|xs| - 1], p) + (if p(xs[|xs| - 1]) then [xs[|xs| - 1]] else [])
  {
    var init, last := xs[..|xs| - 1], xs[|xs| - 1];
    assert xs == init + [last];
    KeepAppend(init, [last], p);
    assert [last][1..] == [];
  }

  /** Filtering is idempotent. */
  lemma KeepIdempotent<T>(xs: seq<T>, p: T -> bool)
    ensures Keep(Keep(xs, p), p) == Keep(xs, p)
  {
    KeepAllHold(Keep(xs, p), p);
  }

  // ------------------------------------------------ regulatory questions

  /**
   * The record answers "true" for every selected question the label map
   * knows; labels it does not know impose nothing.
   */
  predicate AllQuestionsHold(r: Record, labels: map<string, string>, questions: seq<string>) {
    forall i :: 0 <= i < |questions| && QuestionField(labels, questions[i]).Some? ==>
      FlagTrue(r, QuestionField(labels, questions[i]).value)
  }

  /** Selecting more questions is a conjunction, never a disjunction. */
  lemma QuestionsConjoin(r: Record, labels: map<string, string>, qs1: seq<string>, qs2: seq<string>)
    ensures AllQuestionsHold(r, labels, qs1 + qs2) <==> AllQuestionsHold(r, labels, qs1) && AllQuestionsHold(r, labels, qs2)
  {
    var qs := qs1 + qs2;
    assert forall i :: 0 <= i < |qs1| ==> qs[i] == qs1[i];
    assert forall i :: 0 <= i < |qs2| ==> qs[|qs1| + i] == qs2[i];
    if AllQuestionsHold(r, labels, qs1) && AllQuestionsHold(r, labels, qs2) {
      forall i | 0 <= i < |qs| && QuestionField(labels, qs[i]).Some?
        ensures FlagTrue(r, QuestionField(labels, qs[i]).value)
      {
        if i >= |qs1| {
          assert qs[i] == qs2[i - |qs1|];
        }
      }
    }
  }

  /** An unknown label neither adds nor removes records. */
  lemma UnknownQuestionIgnored(r: Record, labels: map<string, string>, qs: seq<string>, unknown: string)
    requires QuestionField(labels, unknown).None?
    ensures AllQuestionsHold(r, labels, qs + [unknown]) <==> AllQuestionsHold(r, labels, qs)
  {
    QuestionsConjoin(r, labels, qs, [unknown]);
  }

  /** A second filter that adds one conjunct to the first. */
  lemma KeepRefine<T>(xs: seq<T>, before: T -> bool, flag: T -> bool, after: T -> bool)
    requires forall k :: 0 <= k < |xs| ==> (before(xs[k]) && flag(xs[k])) == after(xs[k])
    ensures Keep(Keep(xs, before), flag) == Keep(xs, after)
  {
    KeepKeep(xs, before, flag);
    KeepCongruent(xs, x => before(x) && flag(x), after);
  }

  /** Appending a known question to the selection adds its flag as a conjunct. */
  lemma KnownQuestionSnoc(r: Record, labels: map<string, string>, questions: seq<string>, i: nat, field: string)
    requires i < |questions| && QuestionField(labels, questions[i]) == Some(field)
    ensures AllQuestionsHold(r, labels, questions[..i + 1]) == (AllQuestionsHold(r, labels, questions[..i]) && FlagTrue(r, field))
  {
    assert questions[..i + 1] == questions[..i] + [questions[i]];
    QuestionsConjoin(r, labels, questions[..i], [questions[i]]);
  }

  /** One iteration of the question loop with a known label: the filter extends the conjunction. */
  lemma KnownQuestionStep<T>(xs: seq<T>, raw: T -> Record, labels: map<string, string>, questions: seq<string>, i: nat, field: string)
    requires i < |questions| && QuestionField(labels, questions[i]) == Some(field)
    ensures Keep(Keep(xs, x => AllQuestionsHold(raw(x), labels, questions[..i])), x => FlagTrue(raw(x), field))
            == Keep(xs, x => AllQuestionsHold(raw(x), labels, questions[..i + 1]))
  {
    var before := x => AllQuestionsHold(raw(x), labels, questions[..i]);
    var flag := x => FlagTrue(raw(x), field);
    var after := x => AllQuestionsHold(raw(x), labels, questions[..i + 1]);
    forall k | 0 <= k < |xs|
      ensures (before(xs[k]) && flag(xs[k])) == after(xs[k])
    {
      KnownQuestionSnoc(raw(xs[k]), labels, questions, i, field);
    }
    KeepRefine(xs, before, flag, after);
  }

  /** One iteration of the question loop with an unknown label: nothing changes. */
  lemma UnknownQuestionStep<T>(xs: seq<T>, raw: T -> Record, labels: map<string, string>, questions: seq<string>, i: nat)
    requires i < |questions| && QuestionField(labels, questions[i]).None?
    ensures Keep(xs, x => AllQuestionsHold(raw(x), labels, questions[..i]))
            == Keep(xs, x => AllQuestionsHold(raw(x), labels, questions[..i + 1]))
  {
    assert questions[..i + 1] == questions[..i] + [questions[i]];
    forall k | 0 <= k < |xs|
      ensures AllQuestionsHold(raw(xs[k]), labels, questions[..i]) == AllQuestionsHold(raw(xs[k]), labels, questions[..i + 1])
    {
      UnknownQuestionIgnored(raw(xs[k]), labels, questions[..i], questions[i]);
    }
    KeepCongruent(xs, x => AllQuestionsHold(raw(x), labels, questions[..i]), x => AllQuestionsHold(raw(x), labels, questions[..i + 1]));
  }

  /** The question condition on elements whose raw record `raw` gives. */
  function QuestionsHold<T>(raw: T -> Record, labels: map<string, string>, questions: seq<string>): T -> bool {
    x => AllQuestionsHold(raw(x), labels, questions)
  }

  /**
   * The loop over the selected questions: each known label narrows the list
   * to the records whose field for that question reads "true".
   */
  method FilterByQuestions<T(==)>(xs: seq<T>, raw: T -> Record, labels: map<string, string>, questions: seq<string>) returns (r: seq<T>)
    ensures r == Keep(xs, QuestionsHold(raw, labels, questions))
  {
    r := xs;
    KeepAllHold(xs, x => AllQuestionsHold(raw(x), labels, questions[..0]));
    for i := 0 to |questions|
      invariant r == Keep(xs, x => AllQuestionsHold(raw(x), labels, questions[..i]))
    {
      var field := QuestionField(labels, questions[i]);
      if field.Some? {
        var f := field.value;
        KnownQuestionStep(xs, raw, labels, questions, i, f);
        r := Keep(r, x => FlagTrue(raw(x), f));
      } else {
        UnknownQuestionStep(xs, raw, labels, questions, i);
      }
    }
    assert questions[..|questions|] == questions;
    KeepCongruent(xs, x => AllQuestionsHold(raw(x), labels, questions), QuestionsHold(raw, labels, questions));
  }

  // ------------------------------------------------------------- search

  /** `request.args.get("search", "").strip().lower()` */
  function SearchTerm(raw: string): (q: string)
    ensures forall i :: 0 <= i < |q| ==> !IsUpper(q[i])
    ensures q == [] || (!IsSpace(q[0]) && !IsSpace(q[|q| - 1]))
  {
    Lower(Strip(raw))
  }

  /** Normalising the search term twice is normalising it once. */
  lemma SearchTermIdempotent(raw: string)
    ensures SearchTerm(SearchTerm(raw)) == SearchTerm(raw)
  {
    var q := SearchTerm(raw);
    StripUnpadded(q);
    LowerIdempotent(Strip(raw));
  }

  /** The search condition on one element whose `service` is a string. */
  predicate ServiceMatches(service: Value, q: string) {
    service.Str? && Contains(Lower(service.s), q)
  }

  /**
   * `[x for x in xs if q in x.get("service", "").lower()]` when `q` is not
   * empty. `.lower()` on a `service` that is not a string raises.
   */
  function SearchFilter<T(==)>(xs: seq<T>, service: T -> Value, q: string): (r: Result<seq<T>, PyError>)
    ensures q == "" ==> r == Success(xs)
    ensures r.Failure? <==> q != "" && exists i :: 0 <= i < |xs| && !service(xs[i]).Str?
    ensures r.Failure? ==> r.error == AttributeError("lower")
    ensures r.Success? ==> IsSubsequence(r.value, xs)
    ensures r.Success? && q != "" ==>
              (forall i :: 0 <= i < |r.value| ==> ServiceMatches(service(r.value[i]), q)) &&
              (forall i :: 0 <= i < |xs| && ServiceMatches(service(xs[i]), q) ==> xs[i] in r.value)
  {
    SubsequenceReflexive(xs);
    if q == "" then Success(xs)
    else if forall i :: 0 <= i < |xs| ==> service(xs[i]).Str? then
      Success(Keep(xs, x => ServiceMatches(service(x), q)))
    else Failure(AttributeError("lower"))
  }

  /**
   * A search after a filter is one filter with both conditions (`both`);
   * it fails when a kept element has a non-string `service`.
   */
  lemma SearchAfterKeep<T>(xs: seq<T>, p: T -> bool, service: T -> Value, q: string, both: T -> bool)
    requires forall i :: 0 <= i < |xs| ==> both(xs[i]) == (p(xs[i]) && (q == "" || ServiceMatches(service(xs[i]), q)))
    ensures SearchFilter(Keep(xs, p), service, q).Failure? <==>
              q != "" && exists i :: 0 <= i < |xs| && p(xs[i]) && !service(xs[i]).Str?
    ensures SearchFilter(Keep(xs, p), service, q).Success? ==>
              SearchFilter(Keep(xs, p), service, q).value == Keep(xs, both)
  {
    var s := Keep(xs, p);
    if q == "" {
      KeepCongruent(xs, p, both);
    } else if forall k :: 0 <= k < |s| ==> service(s[k]).Str? {
      var m := x => ServiceMatches(service(x), q);
      KeepRefine(xs, p, m, both);
      forall i | 0 <= i < |xs| && p(xs[i])
        ensures service(xs[i]).Str?
      {
        var k :| 0 <= k < |s| && s[k] == xs[i];
      }
    } else {
      var k :| 0 <= k < |s| && !service(s[k]).Str?;
      var i :| 0 <= i < |xs| && xs[i] == s[k];
      assert p(xs[i]);
    }
  }
}
