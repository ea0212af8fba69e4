/**
 * The two pieces of the `/data` page that are not a BioStudies call: the
 * list of (facet, value) filters passed on to the extractor, and the
 * pagination flags.
 */
module DataPage {
  import opened Filters

  /** The three optional filters in the order the page checks them. */
  function Candidates(caseStudy: string, question: string, flowStep: string): seq<(string, string)> {
    [("case_study", caseStudy), ("regulatory_question", question), ("flow_step", flowStep)]
  }

  /**
   * `filters.append((name, value))` for each non-empty query parameter, in
   * the order case study, regulatory question, flow step.
   */
  method BuildFilters(caseStudy: string, question: string, flowStep: string) returns (filters: seq<(string, string)>)
    ensures forall f :: f in filters <==> f in Candidates(caseStudy, question, flowStep) && f.1 != ""
    ensures IsSubsequence(filters, Candidates(caseStudy, question, flowStep))
  {
    filters := [];
    if caseStudy != "" {
      filters := filters + [("case_study", caseStudy)];
    }
    if question != "" {
      filters := filters + [("regulatory_question", question)];
    }
    if flowStep != "" {
      filters := filters + [("flow_step", flowStep)];
    }
    FiltersInOrder(filters, caseStudy, question, flowStep);
  }

  /** Each of the eight possible filter lists is an ordered selection of the candidates. */
  lemma FiltersInOrder(filters: seq<(string, string)>, caseStudy: string, question: string, flowStep: string)
    requires filters == (if caseStudy != "" then [("case_study", caseStudy)] else [])
                      + (if question != "" then [("regulatory_question", question)] else [])
                      + (if flowStep != "" then [("flow_step", flowStep)] else [])
    ensures IsSubsequence(filters, Candidates(caseStudy, question, flowStep))
  {
    var c := Candidates(caseStudy, question, flowStep);
    assert c[1..][1..][1..] == [];
    assert c[1..][1..] == [("flow_step", flowStep)];
    assert c[1..] == [("regulatory_question", question), ("flow_step", flowStep)];
    var tail := if flowStep != "" then [("flow_step", flowStep)] else [];
    assert IsSubsequence(tail, c[1..][1..]);
    var mid := (if question != "" then [("regulatory_question", question)] else []) + tail;
    if question != "" {
      assert mid[0] == c[1..][0] && mid[1..] == tail;
    } else {
      assert mid == tail;
    }
    assert IsSubsequence(mid, c[1..]);
    if caseStudy != "" {
      assert filters[0] == c[0] && filters[1..] == mid;
    } else {
      assert filters == mid;
    }
  }

  /** `has_next = (page * page_size) < total` */
  predicate HasNext(page: int, pageSize: int, total: int) {
    page * pageSize < total
  }

  /** `has_prev = page > 1` */
  predicate HasPrev(page: int) {
    page > 1
  }

  /** The number of pages needed for `total` hits, `ceil(total / pageSize)`. */
  function PageCount(total: int, pageSize: int): int
    requires pageSize > 0
  {
    (total + pageSize - 1) / pageSize
  }

  /** A whole multiple of `n` fits below a remainder `r < n` only when it is not positive. */
  lemma MultipleBelowRemainder(k: int, n: int, r: int)
    requires n > 0 && 0 <= r < n
    ensures k * n <= r <==> k <= 0
  {
    if k >= 1 {
      MulStep(k, n);
      MulNonneg(k - 1, n);
    } else {
      MulNegate(k, n);
      MulNonneg(-k, n);
    }
  }

  lemma MulStep(k: int, n: int)
    ensures k * n == (k - 1) * n + n
  {
  }

  lemma MulNonneg(a: int, b: int)
    requires a >= 0 && b >= 0
    ensures a * b >= 0
  {
  }

  lemma MulNegate(k: int, n: int)
    ensures k * n == -((-k) * n)
  {
  }

  /** With a positive page size there is a next page exactly before the last one. */
  lemma HasNextBeforeLastPage(page: int, pageSize: int, total: int)
    requires pageSize > 0
    ensures HasNext(page, pageSize, total) <==> page < PageCount(total, pageSize)
  {
    var q := total + pageSize - 1;
    var c, r := q / pageSize, q % pageSize;
    assert q == c * pageSize + r && 0 <= r < pageSize;
    var k := page - c + 1;
    assert k * pageSize == page * pageSize - c * pageSize + pageSize;
    MultipleBelowRemainder(k, pageSize, r);
  }

  /** On a page in range there is somewhere to go exactly when there is more than one page. */
  lemma NavigationOnValidPage(page: int, pageSize: int, total: int)
    requires pageSize > 0 && 1 <= page <= PageCount(total, pageSize)
    ensures HasNext(page, pageSize, total) || HasPrev(page) <==> PageCount(total, pageSize) > 1
  {
    HasNextBeforeLastPage(page, pageSize, total);
  }
}
