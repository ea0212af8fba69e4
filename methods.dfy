/**
 * The `/methods` page: normalising the entries of the methods index,
 * collecting the workflow stage facets from the comma-separated stage field,
 * and the stage, question and search filters over the normalised entries.
 */
module MethodCatalog {
  import opened Wrappers
  import opened PyValues
  import opened Filters
  import opened RegQuestions
  import opened Ordering

  /** The raw field holding a method's comma-separated workflow stages. */
  const STAGE_FIELD: string := "vhp4safety_workflow_stage_content"

  /** The fields tried, in order, for the display name. */
  const SERVICE_ALIASES: seq<string> := ["method", "method_name_content", "method_name"]

  /** The fields tried, in order, for the description. */
  const DESCRIPTION_ALIASES: seq<string> := ["method_description_content", "method_description"]

  const NO_URL: Value := Str("no_url")

  /** A normalised method: the fields the template reads, and the raw entry. */
  datatype MethodEntry = MethodEntry(
    id: Value,
    service: Value,
    description: Value,
    mainUrl: Value,
    instUrl: Value,
    metaData: Value,
    png: Value,
    raw: Record)

  /** `v` is what `r.get(a0) or r.get(a1) or ... or default` evaluates to. */
  ghost predicate Resolves(r: Record, aliases: seq<string>, default: Value, v: Value) {
    && ((forall i :: 0 <= i < |aliases| ==> !Truthy(Get(r, aliases[i], Null))) ==> v == default)
    && (forall i :: FirstTruthyAt(r, aliases, i) ==> v == Get(r, aliases[i], Null))
  }

  /** The normalisation of one entry of the methods index. */
  function NormalizeMethod(m: Record): MethodEntry {
    MethodEntry(
      Get(m, "id", Str("")),
      Resolve(m, SERVICE_ALIASES, Str("")),
      Resolve(m, DESCRIPTION_ALIASES, Str("")),
      Resolve(m, ["catalog_webpage_url"], NO_URL),
      Resolve(m, ["inst_url"], NO_URL),
      Resolve(m, ["meta_data"], Str("")),
      Null,
      m)
  }

  /**
   * Each display field is the first truthy alias or its default, and the
   * two link fields are never empty.
   */
  lemma NormalizeMethodFields(m: Record)
    ensures var e := NormalizeMethod(m);
            && e.raw == m && e.png == Null
            && e.id == Get(m, "id", Str(""))
            && Resolves(m, SERVICE_ALIASES, Str(""), e.service)
            && Resolves(m, DESCRIPTION_ALIASES, Str(""), e.description)
            && Resolves(m, ["catalog_webpage_url"], NO_URL, e.mainUrl) && Truthy(e.mainUrl)
            && Resolves(m, ["inst_url"], NO_URL, e.instUrl) && Truthy(e.instUrl)
            && Resolves(m, ["meta_data"], Str(""), e.metaData)
  {
    assert FirstTruthyAt(m, ["catalog_webpage_url"], 0) || !Truthy(Get(m, "catalog_webpage_url", Null));
    assert FirstTruthyAt(m, ["inst_url"], 0) || !Truthy(Get(m, "inst_url", Null));
  }

  // ------------------------------------------------------------- stages

  /**
   * `(m.get(STAGE_FIELD) or "").strip()`; `None` when the field holds JSON
   * `true`, which has no `strip` method.
   */
  function StageText(m: Record): (r: Option<string>)
    ensures r.None? <==> Get(m, STAGE_FIELD, Null) == Bool(true)
    ensures r.Some? && !Truthy(Get(m, STAGE_FIELD, Null)) ==> r.value == ""
    ensures r.Some? && Truthy(Get(m, STAGE_FIELD, Null)) ==> r.value == Strip(m[STAGE_FIELD].s)
  {
    var v := Or(Get(m, STAGE_FIELD, Null), Str(""));
    if v.Str? then Some(Strip(v.s)) else None
  }

  /** `[p.strip() for p in parts]` */
  function StripAll(parts: seq<string>): (r: seq<string>)
    ensures |r| == |parts| && forall j :: 0 <= j < |parts| ==> r[j] == Strip(parts[j])
  {
    seq(|parts|, j requires 0 <= j < |parts| => Strip(parts[j]))
  }

  /** `if part` on a string */
  predicate NonEmpty(s: string) {
    s != ""
  }

  /** The non-empty stripped parts, in order. */
  function Tokens(parts: seq<string>): seq<string> {
    Keep(StripAll(parts), NonEmpty)
  }

  /** Extending the parts by one extends the tokens by its stripped form, unless that is empty. */
  lemma TokensSnoc(parts: seq<string>, j: nat)
    requires j < |parts|
    ensures Tokens(parts[..j + 1]) == Tokens(parts[..j]) + (if Strip(parts[j]) != "" then [Strip(parts[j])] else [])
  {
    var p := Strip(parts[j]);
    assert StripAll(parts[..j + 1]) == StripAll(parts[..j]) + [p];
    KeepAppend(StripAll(parts[..j]), [p], NonEmpty);
    assert [p][1..] == [];
  }

  /** Every token is non-empty, already stripped, and free of the separator the parts were split on. */
  lemma TokensShape(parts: seq<string>, sep: char)
    requires forall j :: 0 <= j < |parts| ==> sep !in parts[j]
    ensures forall i :: 0 <= i < |Tokens(parts)| ==>
              Tokens(parts)[i] != "" && Strip(Tokens(parts)[i]) == Tokens(parts)[i] && sep !in Tokens(parts)[i]
  {
    var stripped := StripAll(parts);
    var ts := Keep(stripped, NonEmpty);
    forall i | 0 <= i < |ts|
      ensures ts[i] != "" && Strip(ts[i]) == ts[i] && sep !in ts[i]
    {
      assert ts[i] in stripped && NonEmpty(ts[i]);
      var j :| 0 <= j < |stripped| && stripped[j] == ts[i];
      StripIdempotent(parts[j]);
      StripSubstring(parts[j], sep);
    }
  }

  /** The stages one stage text contributes to the facets. */
  function StageTokens(text: string): (ts: seq<string>)
    ensures forall i :: 0 <= i < |ts| ==> ts[i] != "" && Strip(ts[i]) == ts[i] && ',' !in ts[i]
  {
    TokensShape(Split(text, ','), ',');
    Tokens(Split(text, ','))
  }

  /** The elements of a list. */
  function Elements(s: seq<string>): set<string> {
    set x | x in s
  }

  lemma ElementsAppend(a: seq<string>, b: seq<string>)
    ensures Elements(a + b) == Elements(a) + Elements(b)
  {
  }

  /** The stages one stage text contributes, as a set. */
  function TokenSet(text: string): set<string> {
    Elements(StageTokens(text))
  }

  /** The stages the first `i` methods list. */
  ghost function StagesUpTo(ms: seq<Record>, i: nat): set<string>
    requires i <= |ms|
  {
    set k, x | 0 <= k < i && StageText(ms[k]).Some? && x in StageTokens(StageText(ms[k]).value) :: x
  }

  /** All stages any method of the index lists. */
  ghost function AllStages(ms: seq<Record>): set<string> {
    StagesUpTo(ms, |ms|)
  }

  lemma StagesUpToStep(ms: seq<Record>, i: nat)
    requires i < |ms| && StageText(ms[i]).Some?
    ensures StagesUpTo(ms, i + 1) == StagesUpTo(ms, i) + TokenSet(StageText(ms[i]).value)
  {
    forall x | x in StagesUpTo(ms, i + 1)
      ensures x in StagesUpTo(ms, i) + TokenSet(StageText(ms[i]).value)
    {
      var k :| 0 <= k < i + 1 && StageText(ms[k]).Some? && x in StageTokens(StageText(ms[k]).value);
      if k < i {
        assert x in StagesUpTo(ms, i);
      }
    }
  }

  /** The stripped, non-empty parts, collected from the front as the inner loop does. */
  function PartStages(parts: seq<string>): set<string> {
    if parts == [] then {}
    else
      var p := Strip(parts[|parts| - 1]);
      PartStages(parts[..|parts| - 1]) + (if p != "" then {p} else {})
  }

  lemma PartStagesSnoc(parts: seq<string>, j: nat)
    requires j < |parts|
    ensures PartStages(parts[..j + 1]) == PartStages(parts[..j]) + (if Strip(parts[j]) != "" then {Strip(parts[j])} else {})
  {
    assert parts[..j + 1][..j] == parts[..j];
  }

  lemma {:induction false} PartStagesAreTokens(parts: seq<string>)
    ensures PartStages(parts) == Elements(Tokens(parts))
  {
    if parts != [] {
      var n := |parts| - 1;
      PartStagesAreTokens(parts[..n]);
      TokensSnoc(parts, n);
      var p := Strip(parts[n]);
      assert parts[..n + 1] == parts;
      ElementsAppend(Tokens(parts[..n]), if p != "" then [p] else []);
      assert Elements([p]) == {p};
    } else {
      assert Tokens(parts) == [];
    }
  }

  /** The inner loop: add the stripped, non-empty comma-separated parts of `text` to `stages`. */
  method AddStages(stages: set<string>, text: string) returns (added: set<string>)
    ensures added == stages + TokenSet(text)
  {
    var parts := Split(text, ',');
    added := stages;
    for j := 0 to |parts|
      invariant added == stages + PartStages(parts[..j])
    {
      PartStagesSnoc(parts, j);
      var part := Strip(parts[j]);
      if part != "" {
        added := added + {part};
      }
    }
    assert parts[..|parts|] == parts;
    PartStagesAreTokens(parts);
  }

  /** The normalised list with the set of stages collected on the way. */
  datatype MethodIndex = MethodIndex(entries: seq<MethodEntry>, stages: set<string>)

  /**
   * The loop over the methods index: normalise each entry and add the
   * stripped, non-empty parts of its stage field to the stage set. A stage
   * field holding `true` ends the request.
   */
  method NormalizeMethods(ms: seq<Record>) returns (res: Result<MethodIndex, PyError>)
    ensures res.Failure? <==> exists k :: 0 <= k < |ms| && StageText(ms[k]).None?
    ensures res.Failure? ==> res.error == AttributeError("strip")
    ensures res.Success? ==>
              && |res.value.entries| == |ms|
              && (forall k :: 0 <= k < |ms| ==> res.value.entries[k] == NormalizeMethod(ms[k]))
              && res.value.stages == AllStages(ms)
  {
    var entries: seq<MethodEntry> := [];
    var stages: set<string> := {};
    for i := 0 to |ms|
      invariant |entries| == i
      invariant forall k :: 0 <= k < i ==> entries[k] == NormalizeMethod(ms[k])
      invariant forall k :: 0 <= k < i ==> StageText(ms[k]).Some?
      invariant stages == StagesUpTo(ms, i)
    {
      var text := StageText(ms[i]);
      if text.None? {
        return Failure(AttributeError("strip"));
      }
      StagesUpToStep(ms, i);
      stages := AddStages(stages, text.value);
      entries := entries + [NormalizeMethod(ms[i])];
    }
    res := Success(MethodIndex(entries, stages));
  }

  // ------------------------------------------------------------ filters

  /** The raw entry a normalised method keeps. */
  function RawOf(e: MethodEntry): Record {
    e.raw
  }

  /** The normalised `service` the search reads. */
  function ServiceOf(e: MethodEntry): Value {
    e.service
  }

  /** The unstripped comma-separated parts of the raw stage field, as the stage filter splits it. */
  function RawStageParts(e: MethodEntry): Option<seq<string>> {
    var v := Or(Get(e.raw, STAGE_FIELD, Null), Str(""));
    if v.Str? then Some(Split(v.s, ',')) else None
  }

  /** Some selected stage is one of the unstripped parts. */
  predicate MethodStageSelected(e: MethodEntry, selected: seq<string>) {
    var parts := RawStageParts(e);
    parts.Some? && exists i :: 0 <= i < |selected| && selected[i] in parts.value
  }

  /** The stage filter of `/methods`; selecting nothing keeps every entry. */
  function MethodStageFilter(es: seq<MethodEntry>, selected: seq<string>): (r: seq<MethodEntry>)
    ensures selected == [] ==> r == es
    ensures selected != [] ==> forall i :: 0 <= i < |r| ==> MethodStageSelected(r[i], selected)
    ensures selected != [] ==> forall i :: 0 <= i < |es| && MethodStageSelected(es[i], selected) ==> es[i] in r
    ensures IsSubsequence(r, es)
  {
    SubsequenceReflexive(es);
    if selected != [] then Keep(es, e => MethodStageSelected(e, selected)) else es
  }

  /** A stage facet selects a method when the method's stage field has no blanks around its commas. */
  lemma FacetSelectsUnpadded(m: Record, x: string)
    requires STAGE_FIELD in m && m[STAGE_FIELD].Str? && m[STAGE_FIELD].s != ""
    requires Strip(m[STAGE_FIELD].s) == m[STAGE_FIELD].s
    requires forall p :: p in Split(m[STAGE_FIELD].s, ',') ==> Strip(p) == p
    requires x in StageTokens(m[STAGE_FIELD].s)
    ensures x in StageTokens(StageText(m).value)
    ensures MethodStageSelected(NormalizeMethod(m), [x])
  {
    var s := m[STAGE_FIELD].s;
    var parts := Split(s, ',');
    assert RawStageParts(NormalizeMethod(m)) == Some(parts);
    assert x in StripAll(parts);
    var j :| 0 <= j < |parts| && x == StripAll(parts)[j];
    assert parts[j] in parts;
    assert [x][0] in parts;
  }

  /** "a, b" splits into a and " b". */
  lemma SplitPadded(a: string, b: string)
    requires ',' !in a && ',' !in b
    ensures Split(a + ", " + b, ',') == [a, " " + b]
  {
    var padded := " " + b;
    assert a + ", " + b == a + [','] + padded;
    assert ',' !in padded;
    SplitFirst(a, ',', padded);
    SplitNoSeparator(padded, ',');
  }

  /** Joining two unpadded names keeps the whole unpadded. */
  lemma StripJoined(a: string, b: string)
    requires a != "" && b != "" && Strip(a) == a && Strip(b) == b
    ensures Strip(a + ", " + b) == a + ", " + b
  {
    var s := a + ", " + b;
    assert s[0] == a[0] && s[|s| - 1] == b[|b| - 1];
    StripUnpadded(s);
  }

  /** The tokens of two parts, when the second strips to a non-empty name. */
  lemma TokensPair(p: string, q: string)
    requires Strip(p) != "" && Strip(q) != ""
    ensures Tokens([p, q]) == [Strip(p), Strip(q)]
  {
    var parts := [p, q];
    TokensSnoc(parts, 0);
    TokensSnoc(parts, 1);
    assert parts[..0] == [] && parts[..2] == parts;
  }

  /**
   * The facets and the filter disagree on padded fields: a method whose stage
   * field reads "a, b" (two different unpadded names without commas) offers
   * the facet b, and selecting that facet drops the method, whose unstripped
   * second part is " b".
   */
  lemma PaddedFacetSelectsNothing(m: Record, a: string, b: string)
    requires a != "" && b != "" && a != b && ',' !in a && ',' !in b
    requires Strip(a) == a && Strip(b) == b
    requires Get(m, STAGE_FIELD, Null) == Str(a + ", " + b)
    ensures b in StageTokens(StageText(m).value)
    ensures !MethodStageSelected(NormalizeMethod(m), [b])
  {
    var padded := " " + b;
    assert padded[1..] == b;
    assert Strip(padded) == b;
    StripJoined(a, b);
    SplitPadded(a, b);
    TokensPair(a, padded);
    assert RawStageParts(NormalizeMethod(m)) == Some([a, padded]);
    assert |padded| != |b|;
  }

  /**
   * Stage filter, then the selected regulatory questions, then the search
   * term: the entries that remain, in their order, and no exception without
   * a search term.
   */
  function MethodFilters(es: seq<MethodEntry>, selected: seq<string>, labels: map<string, string>, questions: seq<string>, q: string)
    : (r: Result<seq<MethodEntry>, PyError>)
    ensures q == "" ==> r.Success?
    ensures r.Success? ==> IsSubsequence(r.value, es)
  {
    var staged := MethodStageFilter(es, selected);
    var answered := Keep(staged, QuestionsHold(RawOf, labels, questions));
    var r := SearchFilter(answered, ServiceOf, q);
    if r.Success? then
      SubsequenceTransitive(answered, staged, es);
      SubsequenceTransitive(r.value, answered, es);
      r
    else r
  }

  /** The stage and question conditions of one entry. */
  predicate PassesStageAndQuestions(e: MethodEntry, selected: seq<string>, labels: map<string, string>, questions: seq<string>) {
    (selected == [] || MethodStageSelected(e, selected)) && AllQuestionsHold(e.raw, labels, questions)
  }

  /** What an entry must satisfy to survive all three filters. */
  predicate PassesFilters(e: MethodEntry, selected: seq<string>, labels: map<string, string>, questions: seq<string>, q: string) {
    PassesStageAndQuestions(e, selected, labels, questions) && (q == "" || ServiceMatches(e.service, q))
  }

  lemma StageThenQuestions(es: seq<MethodEntry>, selected: seq<string>, labels: map<string, string>, questions: seq<string>)
    ensures Keep(MethodStageFilter(es, selected), QuestionsHold(RawOf, labels, questions))
            == Keep(es, e => PassesStageAndQuestions(e, selected, labels, questions))
  {
    var stageP := e => selected == [] || MethodStageSelected(e, selected);
    if selected == [] {
      KeepAllHold(es, stageP);
    } else {
      KeepCongruent(es, e => MethodStageSelected(e, selected), stageP);
    }
    assert MethodStageFilter(es, selected) == Keep(es, stageP);
    var answers := QuestionsHold(RawOf, labels, questions);
    forall k | 0 <= k < |es|
      ensures answers(es[k]) == AllQuestionsHold(es[k].raw, labels, questions)
    {
      assert RawOf(es[k]) == es[k].raw;
    }
    KeepRefine(es, stageP, answers, e => PassesStageAndQuestions(e, selected, labels, questions));
  }

  /**
   * The `/methods` filters are one order-preserving filter with the
   * conjunction of the three conditions; they fail only on a search over a
   * `service` that is not a string.
   */
  lemma MethodFiltersIsOneFilter(es: seq<MethodEntry>, selected: seq<string>, labels: map<string, string>, questions: seq<string>, q: string)
    ensures MethodFilters(es, selected, labels, questions, q).Failure? <==>
              q != "" && exists i :: 0 <= i < |es| && PassesStageAndQuestions(es[i], selected, labels, questions) &&
                                     !es[i].service.Str?
    ensures MethodFilters(es, selected, labels, questions, q).Success? ==>
              MethodFilters(es, selected, labels, questions, q).value == Keep(es, e => PassesFilters(e, selected, labels, questions, q))
  {
    var both := e => PassesStageAndQuestions(e, selected, labels, questions);
    StageThenQuestions(es, selected, labels, questions);
    var f := SearchFilter(Keep(es, both), ServiceOf, q);
    assert MethodFilters(es, selected, labels, questions, q) == f;
    SearchAfterKeep(es, both, ServiceOf, q, e => PassesFilters(e, selected, labels, questions, q));
  }

  /** Filtering an already filtered list again with the same selection returns it unchanged. */
  lemma MethodFiltersIdempotent(es: seq<MethodEntry>, selected: seq<string>, labels: map<string, string>, questions: seq<string>, q: string)
    requires MethodFilters(es, selected, labels, questions, q).Success?
    ensures MethodFilters(MethodFilters(es, selected, labels, questions, q).value, selected, labels, questions, q)
            == MethodFilters(es, selected, labels, questions, q)
  {
    var r := MethodFilters(es, selected, labels, questions, q).value;
    MethodFiltersIsOneFilter(es, selected, labels, questions, q);
    MethodFiltersIsOneFilter(r, selected, labels, questions, q);
    var p := e => PassesFilters(e, selected, labels, questions, q);
    assert forall i :: 0 <= i < |r| ==> p(r[i]);
    KeepAllHold(r, p);
  }

  // --------------------------------------------------------------- page

  /** What `/methods` renders: the filtered entries and the stage facets. */
  datatype MethodsView = MethodsView(methods: seq<MethodEntry>, stages: seq<string>)

  /**
   * The `/methods` handler after the index has been fetched and its values
   * listed: normalise, filter, and order the stage facets.
   */
  method MethodsPage(ms: seq<Record>, selectedStages: seq<string>, selectedQuestions: seq<string>, search: string)
    returns (r: Result<MethodsView, PyError>)
    ensures (exists k :: 0 <= k < |ms| && StageText(ms[k]).None?) ==> r == Failure(AttributeError("strip"))
    ensures (forall k :: 0 <= k < |ms| ==> StageText(ms[k]).Some?) ==>
              var es := seq(|ms|, k requires 0 <= k < |ms| => NormalizeMethod(ms[k]));
              var filtered := MethodFilters(es, selectedStages, LabelToKey(), selectedQuestions, SearchTerm(search));
              && (r.Failure? <==> filtered.Failure?)
              && (r.Success? ==> filtered == Success(r.value.methods) && IsFacetOrder(r.value.stages, AllStages(ms)))
  {
    var index := NormalizeMethods(ms);
    if index.Failure? {
      return Failure(index.error);
    }
    var es := index.value.entries;
    assert es == seq(|ms|, k requires 0 <= k < |ms| => NormalizeMethod(ms[k]));
    var q := SearchTerm(search);
    var staged := MethodStageFilter(es, selectedStages);
    var answered := FilterByQuestions(staged, RawOf, LabelToKey(), selectedQuestions);
    var found := SearchFilter(answered, ServiceOf, q);
    assert found == MethodFilters(es, selectedStages, LabelToKey(), selectedQuestions, q);
    if found.Failure? {
      return Failure(found.error);
    }
    var stages := OrderFacets(index.value.stages);
    return Success(MethodsView(found.value, stages));
  }
}
