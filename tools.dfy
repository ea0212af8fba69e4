/**
 * The `/tools` page: per-tool normalisation (stage labels, links, logo,
 * instance URL) done in place on the list of records, then the stage filter,
 * the stage facet list, the regulatory-question filter and the search.
 */
module ToolCatalog {
  import opened Wrappers
  import opened PyValues
  import opened Filters
  import opened RegQuestions
  import opened Ordering

  const SERVICE_BASE := "https://cloud.vhp4safety.nl/service/"
  const RAW_GITHUB: string := "https://raw.githubusercontent.com/"
  const DOCS_BASE: string := RAW_GITHUB + "VHP4Safety/cloud/main/docs/service/"
  const PLACEHOLDER_LOGO := "https://github.com/VHP4Safety/ui-design/blob/main/static/images/logo.png"
  const MD_MISSING := "md file not found"
  const NO_URL := "no_url"

  /** Glossary identifiers of the workflow stages and their labels. */
  const STAGE_MAPPING: map<string, string> := map[
    "https://vhp4safety.github.io/glossary#VHP0000056" := "ADME",
    "https://vhp4safety.github.io/glossary#VHP0000102" := "Hazard Assessment",
    "https://vhp4safety.github.io/glossary#VHP0000148" := "Chemical Information",
    "https://vhp4safety.github.io/glossary#VHP0000149" := "General"
  ]

  /** The fields normalisation writes; every other field is left as it was. */
  const WRITTEN_FIELDS: set<string> := {"stage", "url", "meta_data", "png", "inst_url"}

  predicate IsGlossaryStage(v: Value) {
    v.Str? && v.s in STAGE_MAPPING
  }

  predicate IsUnknownStage(v: Value) {
    v == Str("NA") || v == Str("Unknown")
  }

  /** A stage value normalisation never rewrites. */
  predicate IsSettledStage(v: Value) {
    !IsGlossaryStage(v) && !IsUnknownStage(v)
  }

  /**
   * The stage a tool ends up with: a glossary URL becomes its label, "NA"
   * and "Unknown" become "Other", anything else stays; `tool["stage"]`
   * raises when the key is missing.
   */
  function NormalizeStage(t: Record): (r: Result<Value, PyError>)
    ensures r.Failure? <==> "stage" !in t
    ensures r.Failure? ==> r.error == KeyError("stage")
    ensures r.Success? ==> IsSettledStage(r.value)
    ensures r.Success? && IsGlossaryStage(t["stage"]) ==> r.value == Str(STAGE_MAPPING[t["stage"].s])
    ensures r.Success? && IsUnknownStage(t["stage"]) ==> r.value == Str("Other")
    ensures r.Success? && IsSettledStage(t["stage"]) ==> r.value == t["stage"]
  {
    var full := Get(t, "stage", Str(""));
    if IsGlossaryStage(full) then Success(Str(STAGE_MAPPING[full.s]))
    else if "stage" !in t then Failure(KeyError("stage"))
    else if IsUnknownStage(t["stage"]) then Success(Str("Other"))
    else Success(t["stage"])
  }

  /** `png`: None for the shared placeholder, else an absolute URL; `.startswith` raises on a non-string. */
  function LogoUrl(png: Value): (r: Result<Value, PyError>)
    ensures r.Failure? <==> png != Str(PLACEHOLDER_LOGO) && !png.Str?
    ensures r.Failure? ==> r.error == AttributeError("startswith")
    ensures r.Success? ==> (r.value == Null <==> png == Str(PLACEHOLDER_LOGO))
    ensures r.Success? && png.Str? && png != Str(PLACEHOLDER_LOGO) ==>
              r.value.Str? && StartsWith(r.value.s, "http") &&
              r.value == (if StartsWith(png.s, "http") then png else Str(DOCS_BASE + png.s))
  {
    if png == Str(PLACEHOLDER_LOGO) then Success(Null)
    else if !png.Str? then Failure(AttributeError("startswith"))
    else if StartsWith(png.s, "http") then Success(png)
    else
      assert (DOCS_BASE + png.s)[..4] == RAW_GITHUB[..4] == "http";
      Success(Str(DOCS_BASE + png.s))
  }

  /**
   * The tool after the assignments to `stage`, `url` and `meta_data`, which
   * the loop makes before it looks at the logo.
   */
  function StageAndLinks(t: Record, stage: Value): Record {
    var html := Get(t, "html_name", Null);
    var md := Get(t, "md_file_name", Null);
    t["stage" := stage]
     ["url" := Str(SERVICE_BASE + PyStr(html))]
     ["meta_data" := if Truthy(md) then Str(DOCS_BASE + PyStr(md)) else Str(MD_MISSING)]
  }

  /**
   * The body of the per-tool loop: the new record, or the exception it
   * raises. It raises exactly when the stage is missing or the logo is not a
   * string; what it writes is stated by `NormalizeToolFields`.
   */
  function NormalizeTool(t: Record): (r: Result<Record, PyError>)
    ensures r.Failure? <==> "stage" !in t || LogoUrl(Get(t, "png_file_name", Null)).Failure?
  {
    var stage :- NormalizeStage(t);
    var png :- LogoUrl(Get(t, "png_file_name", Null));
    var inst := Get(t, "inst_url", Str(NO_URL));
    Success(StageAndLinks(t, stage)["png" := png]["inst_url" := if Truthy(inst) then inst else Str(NO_URL)])
  }

  /** The three ways one pass of the loop body ends. */
  lemma NormalizeToolSteps(t: Record)
    ensures NormalizeStage(t).Failure? ==> NormalizeTool(t) == Failure(NormalizeStage(t).error)
    ensures NormalizeStage(t).Success? && LogoUrl(Get(t, "png_file_name", Null)).Failure? ==>
              NormalizeTool(t) == Failure(LogoUrl(Get(t, "png_file_name", Null)).error)
    ensures NormalizeStage(t).Success? && LogoUrl(Get(t, "png_file_name", Null)).Success? ==>
              var inst := Get(t, "inst_url", Str(NO_URL));
              NormalizeTool(t) == Success(StageAndLinks(t, NormalizeStage(t).value)
                                            ["png" := LogoUrl(Get(t, "png_file_name", Null)).value]
                                            ["inst_url" := if Truthy(inst) then inst else Str(NO_URL)])
  {
  }

  /**
   * A tool fails exactly when its stage or its logo does; otherwise the five
   * written fields are set as described and every other field is kept.
   */
  lemma NormalizeToolFields(t: Record)
    ensures var r := NormalizeTool(t);
            && (r.Failure? <==> NormalizeStage(t).Failure? || LogoUrl(Get(t, "png_file_name", Null)).Failure?)
            && (r.Failure? && "stage" !in t ==> r.error == KeyError("stage"))
    ensures var r := NormalizeTool(t);
            r.Success? ==>
              && r.value.Keys == t.Keys + WRITTEN_FIELDS
              && (forall k :: k in t && k !in WRITTEN_FIELDS ==> r.value[k] == t[k])
              && r.value["stage"] == NormalizeStage(t).value
              && r.value["url"] == Str(SERVICE_BASE + PyStr(Get(t, "html_name", Null)))
              && r.value["meta_data"] == (if Truthy(Get(t, "md_file_name", Null))
                                          then Str(DOCS_BASE + PyStr(Get(t, "md_file_name", Null)))
                                          else Str(MD_MISSING))
              && r.value["png"] == LogoUrl(Get(t, "png_file_name", Null)).value
              && Truthy(r.value["inst_url"])
              && r.value["inst_url"] == (if Truthy(Get(t, "inst_url", Null)) then t["inst_url"] else Str(NO_URL))
  {
  }

  /** Every tool link points into the service catalogue. */
  lemma ToolUrlInCatalogue(t: Record)
    requires NormalizeTool(t).Success?
    ensures NormalizeTool(t).value["url"].Str?
    ensures StartsWith(NormalizeTool(t).value["url"].s, SERVICE_BASE)
  {
    NormalizeToolFields(t);
    var u := NormalizeTool(t).value["url"].s;
    assert u[..|SERVICE_BASE|] == SERVICE_BASE;
  }

  /** Normalising an already normalised tool changes nothing. */
  lemma NormalizeToolIdempotent(t: Record)
    requires NormalizeTool(t).Success?
    ensures NormalizeTool(NormalizeTool(t).value) == NormalizeTool(t)
  {
    NormalizeToolFields(t);
    var n := NormalizeTool(t).value;
    NormalizeToolFields(n);
    assert NormalizeStage(n) == Success(n["stage"]);
    assert Get(n, "html_name", Null) == Get(t, "html_name", Null);
    assert Get(n, "md_file_name", Null) == Get(t, "md_file_name", Null);
    assert Get(n, "png_file_name", Null) == Get(t, "png_file_name", Null);
    assert Get(n, "inst_url", Str(NO_URL)) == n["inst_url"];
    var r := NormalizeTool(n);
    assert r.Success?;
    var m := r.value;
    assert m.Keys == n.Keys;
    forall k | k in m
      ensures m[k] == n[k]
    {
      if k !in WRITTEN_FIELDS {
        assert m[k] == n[k];
      }
    }
    assert m == n;
  }

  /**
   * The `for tool in tools` loop as a whole: the list of normalised tools,
   * or the exception of the first tool that raises.
   */
  function NormalizeAll(ts: seq<Record>): (r: Result<seq<Record>, PyError>)
    ensures r.Success? <==> forall i :: 0 <= i < |ts| ==> NormalizeTool(ts[i]).Success?
    ensures r.Success? ==> |r.value| == |ts| && forall i :: 0 <= i < |ts| ==> NormalizeTool(ts[i]) == Success(r.value[i])
    ensures r.Failure? ==> exists i :: FirstFailureAt(ts, NormalizeTool, i) && NormalizeTool(ts[i]) == Failure(r.error)
  {
    MapResult(ts, NormalizeTool)
  }

  /**
   * What is left of a tool whose pass raised: nothing is assigned when its
   * stage is missing, and `stage`, `url` and `meta_data` are already
   * assigned when its logo raises.
   */
  function LeftOnRaise(t: Record): Record {
    if "stage" in t then StageAndLinks(t, NormalizeStage(t).value) else t
  }

  /** One pass of the loop body, assigning the fields of `tools[i]` in the handler's order. */
  method NormalizeOne(tools: array<Record>, i: nat) returns (err: Option<PyError>)
    requires i < tools.Length
    modifies tools
    ensures forall j :: 0 <= j < tools.Length && j != i ==> tools[j] == old(tools[j])
    ensures NormalizeTool(old(tools[i])).Success? ==> err == None && tools[i] == NormalizeTool(old(tools[i])).value
    ensures NormalizeTool(old(tools[i])).Failure? ==>
              err == Some(NormalizeTool(old(tools[i])).error) && tools[i] == LeftOnRaise(old(tools[i]))
  {
    var t := tools[i];
    NormalizeToolSteps(t);
    var stage := NormalizeStage(t);
    if stage.Failure? {
      return Some(stage.error);
    }
    tools[i] := StageAndLinks(t, stage.value);
    var png := LogoUrl(Get(t, "png_file_name", Null));
    if png.Failure? {
      return Some(png.error);
    }
    var inst := Get(t, "inst_url", Str(NO_URL));
    tools[i] := tools[i]["png" := png.value]["inst_url" := if Truthy(inst) then inst else Str(NO_URL)];
    return None;
  }

  /**
   * `after` is what the loop leaves of `before` when tool `i` is the first
   * to raise: the tools before it rewritten, tool `i` as the exception left
   * it, and the tools after it untouched.
   */
  ghost predicate RaisedAt(before: seq<Record>, after: seq<Record>, i: int) {
    && FirstFailureAt(before, NormalizeTool, i)
    && |after| == |before|
    && (forall j :: 0 <= j < i ==> NormalizeTool(before[j]) == Success(after[j]))
    && after[i] == LeftOnRaise(before[i])
    && (forall j :: i < j < |before| ==> after[j] == before[j])
  }

  /** The loop stops at the first tool that raises, with the earlier tools done. */
  lemma RaisedAtFirstFailure(before: seq<Record>, after: seq<Record>, i: nat, done: seq<Record>)
    requires i < |before| == |after| && MapResult(before[..i], NormalizeTool) == Success(done)
    requires after[..i] == done && NormalizeTool(before[i]).Failure? && after[i] == LeftOnRaise(before[i])
    requires forall j :: i < j < |before| ==> after[j] == before[j]
    ensures RaisedAt(before, after, i)
  {
    MapResultStep(before, NormalizeTool, i, done);
    assert forall j :: 0 <= j < i ==> after[j] == done[j];
  }

  /**
   * The loop at the top of the handler, which rewrites each tool record in
   * place. When a tool raises, the tools before it are already rewritten,
   * the raising tool keeps the assignments made before the exception, and
   * the tools after it are untouched.
   */
  method NormalizeInPlace(tools: array<Record>) returns (err: Option<PyError>)
    modifies tools
    ensures match MapResult(old(tools[..]), NormalizeTool)
            case Success(ts) => err == None && tools[..] == ts
            case Failure(e) => err == Some(e)
    ensures err.Some? ==> exists i :: RaisedAt(old(tools[..]), tools[..], i)
  {
    ghost var before := tools[..];
    var i := 0;
    while i < tools.Length
      invariant 0 <= i <= tools.Length
      invariant MapResult(before[..i], NormalizeTool) == Success(tools[..i])
      invariant forall j :: i <= j < tools.Length ==> tools[j] == before[j]
    {
      MapResultStep(before, NormalizeTool, i, tools[..i]);
      ghost var done := tools[..i];
      err := NormalizeOne(tools, i);
      assert tools[..i] == done;
      if err.Some? {
        RaisedAtFirstFailure(before, tools[..], i, done);
        return;
      }
      assert tools[..i + 1] == tools[..i] + [tools[i]];
      i := i + 1;
    }
    assert before[..tools.Length] == before;
    assert tools[..tools.Length] == tools[..];
    return None;
  }

  // ------------------------------------------------------------ filters

  /** `tool.get("stage")` */
  function StageOf(t: Record): Value {
    Get(t, "stage", Null)
  }

  /** `tool.get("stage") in selected_stages` */
  predicate StageSelected(t: Record, selected: seq<string>) {
    StageOf(t).Str? && StageOf(t).s in selected
  }

  /** The stage filter: any selected stage may match; selecting nothing keeps every tool. */
  function StageFilter(ts: seq<Record>, selected: seq<string>): (r: seq<Record>)
    ensures selected == [] ==> r == ts
    ensures selected != [] ==> forall i :: 0 <= i < |r| ==> StageSelected(r[i], selected)
    ensures selected != [] ==> forall i :: 0 <= i < |ts| && StageSelected(ts[i], selected) ==> ts[i] in r
    ensures IsSubsequence(r, ts)
  {
    SubsequenceReflexive(ts);
    if selected != [] then Keep(ts, t => StageSelected(t, selected)) else ts
  }

  /** `tool.get("service", "")` */
  function ServiceOf(t: Record): Value {
    Get(t, "service", Str(""))
  }

  /** A tool is its own raw record for the question filter. */
  function AsRaw(t: Record): Record {
    t
  }

  /**
   * Stage filter, then the selected regulatory questions, then the search
   * term: the tools that remain, in their order, and no exception without a
   * search term.
   */
  function ApplyFilters(ts: seq<Record>, selected: seq<string>, labels: map<string, string>, questions: seq<string>, q: string)
    : (r: Result<seq<Record>, PyError>)
    ensures q == "" ==> r.Success?
    ensures r.Success? ==> IsSubsequence(r.value, ts)
  {
    var staged := StageFilter(ts, selected);
    var answered := Keep(staged, QuestionsHold(AsRaw, labels, questions));
    var r := SearchFilter(answered, ServiceOf, q);
    if r.Success? then
      SubsequenceTransitive(answered, staged, ts);
      SubsequenceTransitive(r.value, answered, ts);
      r
    else r
  }

  /** What a tool must satisfy to survive all three filters. */
  predicate PassesFilters(t: Record, selected: seq<string>, labels: map<string, string>, questions: seq<string>, q: string) {
    PassesStageAndQuestions(t, selected, labels, questions) && (q == "" || ServiceMatches(ServiceOf(t), q))
  }

  /** The stage and question conditions of one tool. */
  predicate PassesStageAndQuestions(t: Record, selected: seq<string>, labels: map<string, string>, questions: seq<string>) {
    (selected == [] || StageSelected(t, selected)) && AllQuestionsHold(t, labels, questions)
  }

  /** The stage and question filters together keep the tools that satisfy both. */
  lemma StageThenQuestions(ts: seq<Record>, selected: seq<string>, labels: map<string, string>, questions: seq<string>)
    ensures Keep(StageFilter(ts, selected), QuestionsHold(AsRaw, labels, questions))
            == Keep(ts, t => PassesStageAndQuestions(t, selected, labels, questions))
  {
    var stageP := t => selected == [] || StageSelected(t, selected);
    if selected == [] {
      KeepAllHold(ts, stageP);
    } else {
      KeepCongruent(ts, t => StageSelected(t, selected), stageP);
    }
    assert StageFilter(ts, selected) == Keep(ts, stageP);
    var answers := QuestionsHold(AsRaw, labels, questions);
    forall k | 0 <= k < |ts|
      ensures answers(ts[k]) == AllQuestionsHold(ts[k], labels, questions)
    {
      assert AsRaw(ts[k]) == ts[k];
    }
    KeepRefine(ts, stageP, answers, t => PassesStageAndQuestions(t, selected, labels, questions));
  }

  /**
   * The pipeline is one order-preserving filter with the conjunction of the
   * three conditions; it fails only on a search over a non-string `service`.
   */
  lemma ApplyFiltersIsOneFilter(ts: seq<Record>, selected: seq<string>, labels: map<string, string>, questions: seq<string>, q: string)
    ensures ApplyFilters(ts, selected, labels, questions, q).Failure? <==>
              q != "" && exists i :: 0 <= i < |ts| && PassesStageAndQuestions(ts[i], selected, labels, questions) &&
                                     !ServiceOf(ts[i]).Str?
    ensures ApplyFilters(ts, selected, labels, questions, q).Success? ==>
              ApplyFilters(ts, selected, labels, questions, q).value == Keep(ts, t => PassesFilters(t, selected, labels, questions, q))
  {
    var both := t => PassesStageAndQuestions(t, selected, labels, questions);
    StageThenQuestions(ts, selected, labels, questions);
    var f := SearchFilter(Keep(ts, both), ServiceOf, q);
    assert ApplyFilters(ts, selected, labels, questions, q) == f;
    SearchAfterKeep(ts, both, ServiceOf, q, t => PassesFilters(t, selected, labels, questions, q));
  }

  /** Filtering an already filtered list again with the same selection returns it unchanged. */
  lemma ApplyFiltersIdempotent(ts: seq<Record>, selected: seq<string>, labels: map<string, string>, questions: seq<string>, q: string)
    requires ApplyFilters(ts, selected, labels, questions, q).Success?
    ensures ApplyFilters(ApplyFilters(ts, selected, labels, questions, q).value, selected, labels, questions, q)
            == ApplyFilters(ts, selected, labels, questions, q)
  {
    var r := ApplyFilters(ts, selected, labels, questions, q).value;
    ApplyFiltersIsOneFilter(ts, selected, labels, questions, q);
    ApplyFiltersIsOneFilter(r, selected, labels, questions, q);
    var p := t => PassesFilters(t, selected, labels, questions, q);
    assert forall i :: 0 <= i < |r| ==> p(r[i]);
    KeepAllHold(r, p);
  }

  // ------------------------------------------------------------- facets

  /** The non-empty string stages among the tools. */
  function StageNames(ts: seq<Record>): (names: set<string>)
    ensures forall x :: x in names <==> x != "" && exists i :: 0 <= i < |ts| && StageOf(ts[i]) == Str(x)
  {
    if ts == [] then {}
    else
      var init := ts[..|ts| - 1];
      assert forall i :: 0 <= i < |init| ==> init[i] == ts[i];
      var v := StageOf(ts[|ts| - 1]);
      StageNames(init) + (if v.Str? && v.s != "" then {v.s} else {})
  }

  /** Some tool has the JSON stage `true`, which Python cannot order against strings. */
  predicate HasTrueStage(ts: seq<Record>) {
    exists i :: 0 <= i < |ts| && StageOf(ts[i]) == Bool(true)
  }

  /** The facet labels as the template receives them. */
  function AsValues(names: seq<string>): (vs: seq<Value>)
    ensures |vs| == |names| && forall i :: 0 <= i < |vs| ==> vs[i] == Str(names[i])
  {
    if names == [] then [] else [Str(names[0])] + AsValues(names[1..])
  }

  /**
   * `sorted(set(tool.get("stage") for tool in tools if tool.get("stage")))`
   * with "Other" moved last. Sorting a JSON `true` together with a string
   * raises TypeError; `true` alone is its own one-element list.
   */
  method StageFacets(ts: seq<Record>) returns (r: Result<seq<Value>, PyError>)
    ensures r.Failure? <==> HasTrueStage(ts) && StageNames(ts) != {}
    ensures r.Failure? ==> r.error == TypeError
    ensures r.Success? && HasTrueStage(ts) ==> r.value == [Bool(true)]
    ensures r.Success? && !HasTrueStage(ts) ==>
              exists names :: IsFacetOrder(names, StageNames(ts)) && r.value == AsValues(names)
  {
    var names := StageNames(ts);
    if HasTrueStage(ts) {
      if names != {} {
        return Failure(TypeError);
      }
      return Success([Bool(true)]);
    }
    var ordered := OrderFacets(names);
    return Success(AsValues(ordered));
  }

  // --------------------------------------------------------------- page

  /** What `/tools` renders: the filtered tools and the stage facets. */
  datatype ToolsView = ToolsView(tools: seq<Record>, stages: seq<Value>)

  /**
   * The `/tools` handler after the catalogue has been fetched and decoded:
   * normalise in place, filter by stage, derive the facets from the
   * stage-filtered list, then filter by question and search term.
   */
  method ToolsPage(tools: array<Record>, selectedStages: seq<string>, selectedQuestions: seq<string>, search: string)
    returns (r: Result<ToolsView, PyError>)
    modifies tools
    ensures NormalizeAll(old(tools[..])).Failure? ==> r == Failure(NormalizeAll(old(tools[..])).error)
    ensures NormalizeAll(old(tools[..])).Success? ==> tools[..] == NormalizeAll(old(tools[..])).value
    ensures NormalizeAll(old(tools[..])).Success? ==>
              var staged := StageFilter(tools[..], selectedStages);
              var filtered := ApplyFilters(tools[..], selectedStages, LabelToKey(), selectedQuestions, SearchTerm(search));
              && (r.Failure? <==> (HasTrueStage(staged) && StageNames(staged) != {}) || filtered.Failure?)
              && (r.Success? ==> filtered == Success(r.value.tools))
              && (r.Success? && HasTrueStage(staged) ==> r.value.stages == [Bool(true)])
              && (r.Success? && !HasTrueStage(staged) ==>
                    exists names :: IsFacetOrder(names, StageNames(staged)) && r.value.stages == AsValues(names))
  {
    var err := NormalizeInPlace(tools);
    if err.Some? {
      return Failure(err.value);
    }
    var ts := tools[..];
    var q := SearchTerm(search);
    var staged := StageFilter(ts, selectedStages);
    var stages := StageFacets(staged);
    if stages.Failure? {
      return Failure(stages.error);
    }
    var answered := FilterByQuestions(staged, AsRaw, LabelToKey(), selectedQuestions);
    var found := SearchFilter(answered, ServiceOf, q);
    assert found == ApplyFilters(ts, selectedStages, LabelToKey(), selectedQuestions, q);
    if found.Failure? {
      return Failure(found.error);
    }
    return Success(ToolsView(found.value, stages.value));
  }
}
