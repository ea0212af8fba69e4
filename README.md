# VHP4Safety catalog core in Dafny

This project models the data handling inside the VHP4Safety platform's web
handlers (`app.py`). The handlers take the decoded service catalogue and the
decoded methods index and turn them into the tool and method lists the site
shows. The model covers:

- **Normalising tool records in place.** Glossary stage URLs become labels.
  "NA" and "Unknown" become "Other". The handler also builds the service URL
  and the documentation link, drops the shared placeholder logo, prefixes
  relative logo names, and keeps a truthy instance URL, putting the sentinel
  "no_url" in place of a missing or falsy one.
- **Normalising the methods index.** `id` is the entry's `id` as it is
  (`""` when absent) and `png` is None; every other field is the first
  truthy field among its aliases, else its default. The stage facet set is the trimmed,
  non-empty comma-separated parts of each method's workflow stage field.
- **The three filters, applied one after another.**
  - A stage filter: selecting any of the record's stages keeps it (OR).
  - A regulatory-question filter: every selected question the label-to-key
    map knows must be answered "true" (AND). Unknown labels are ignored.
  - A search: the stripped, lowercased term must occur in the lowercased
    `service`.
- **The stage facet list.** Python's `sorted` of the stage set, with "Other"
  moved to the end.
- **The Methods dropdown.** Titles fall back to the method's key. Entries are
  stable-sorted by lowercased title.
- **Helpers of the `/data` and compound pages:** the filter list sent to the
  BioStudies extractor, the pagination flags, and the `Q\d+` identifier guard.

The model follows the code, and the code's behaviour is reached under its own
conditions:

- Python exceptions become `Failure` values that carry a `KeyError`,
  `AttributeError` or `TypeError`. The handler's outer `except` turns these
  into HTTP 500.
- A record is a `map<string, Value>`. `Value` is a string, a boolean or JSON
  null. A missing key is a key that is absent from the map.
- The per-tool loop rewrites an `array` of records in place.
- The question loop rebinds the list once per selected label.
- The method loop and its inner stage loop build the list and the stage set
  step by step.
- Each of these loops is a method proved equal to a specification function.
  The properties are proved about that function.

Files:

- `pyvalues.dfy`: the Python value semantics the handlers rely on. This
  covers `get`, `or`, truthiness, `str`, ASCII `lower`/`strip`, `startswith`,
  `in` and `split`.
- `wrappers.dfy`: `Option`, `Result`, and a loop that stops at the first
  exception.
- `regquestions.dfy`: the regulatory questions and the label-to-key map.
- `filters.dfy`: the list comprehensions and the question and search filters.
- `ordering.dfy`: Python string order, `sorted` and the "Other"-last facet
  order.
- `tools.dfy`: the `/tools` page.
- `methods.dfy`: the `/methods` page.
- `menu.dfy`: the Methods dropdown.
- `datapage.dfy`: the `/data` filter list and pagination flags.
- `compound.dfy`: the compound identifier guard.

### Behaviour worth knowing

- **Stage facet sort order.** The stage facet lists are sorted with Python's
  plain `sorted`, which orders strings by code point, so upper case comes
  before lower case (app.py:470, 589). Only the dropdown sorts on lowercased
  titles (app.py:104).
- **Which tools the facets come from.** The tool facets are taken from the
  list left after the stage filter (app.py:466-470). The method facets are
  taken from the whole index (app.py:560-564).
- **Tool stages.**
  - Only "NA" and "Unknown" become "Other" (app.py:430). An empty stage stays
    empty.
  - A stage value that is neither a glossary URL nor "NA"/"Unknown" is kept
    as it is.
  - A tool without a `stage` key raises `KeyError` (app.py:430).
- **What the search matches.** The search term is looked up in the lowercased
  `service` field (app.py:497, 587).
- **Trimmed facets, untrimmed filter.** The method stage filter compares the
  selected stages with the *untrimmed* parts of the raw stage field
  (app.py:576). The facets are the *trimmed* parts (app.py:562).
  - Consequence: a method whose stage field reads "ADME, General" offers the
    facet "General", but selecting "General" drops that method.
  - `MethodCatalog.PaddedFacetSelectsNothing` states this for every field of
    the form "a, b".
  - `MethodCatalog.FacetSelectsUnpadded` states that unpadded fields do
    select.

## Model

| member | source | states |
|---|---|---|
| Wrappers.MapResult | app.py:420-460 | the loop over tools either yields every result, in order, or stops with the error of the first element that raises |
| PyValues.Resolve | app.py:537-553 | an `or`-chain of `get`s returns the value of the first alias holding a truthy value, and the default when none does |
| PyValues.Lower | app.py:486 | lowercasing keeps the length, maps each character by ASCII case folding, and leaves no upper-case letter |
| PyValues.LowerIdempotent | app.py:490 | lowercasing twice is lowercasing once |
| PyValues.Strip | app.py:560-562 | the stripped string is no longer than the input and has no whitespace at either end |
| PyValues.StripSlice | app.py:560-562 | the stripped string is a slice of the input, and everything outside that slice is whitespace |
| PyValues.StripSubstring | app.py:562 | stripping introduces no character, so a comma-free part stays comma-free |
| PyValues.StripIdempotent | app.py:490 | stripping twice is stripping once |
| PyValues.ContainsIffOccurs | app.py:497 | `q in s` holds exactly when `q` occurs at some position of `s` |
| PyValues.Split | app.py:562 | `split(",")` yields at least one part, and no part contains the separator |
| PyValues.SplitNoSeparator | app.py:576 | a string without the separator splits into itself alone |
| PyValues.SplitFirst | app.py:576 | splitting `a + "," + b`, where `a` has no comma, gives `a` followed by the parts of `b` |
| PyValues.JoinSplit | app.py:562 | joining the parts with the separator gives back the original string |
| PyValues.FlagTrue | app.py:486 | `str(tool.get(field, "")).lower() == "true"`; `FlagTrueCases` states which values pass |
| PyValues.FlagTrueCases | app.py:486 | `str(tool.get(field, "")).lower() == "true"` holds exactly for JSON `true` and for strings spelling "true" in any case; a missing field never passes |
| RegQuestions.LabelToKey | app.py:478 | the `reg_questions` map, the inversion of the case-study questions; `QuestionFieldSpec` states its entries |
| RegQuestions.QuestionField | app.py:483-484 | `reg_questions.get(question)` followed by `if field:`: a field only for a listed label whose key is non-empty; `InvertedField` and `QuestionFieldSpec` state which |
| RegQuestions.InvertLabels | app.py:478 | the inverted map has every label as a key, and each entry comes from some (key, label) pair |
| RegQuestions.InvertLabelsExact | app.py:478 | with distinct labels, every label maps back to its own key |
| RegQuestions.RegLabelsDistinct | app.py:36-61 | the six case-study labels are pairwise different |
| RegQuestions.RegKeysNonEmpty | app.py:36-61 | every case-study key is a non-empty field name |
| RegQuestions.InvertedField | app.py:478-484 | with distinct labels and non-empty keys, a label yields a field exactly when it is listed, and that field is its own key |
| RegQuestions.QuestionFieldSpec | app.py:478-484 | exactly the six case-study labels select a field, each its own `reg_q_*` key |
| Filters.Keep | app.py:467 | a list comprehension keeps only elements meeting the condition, keeps every element that meets it, and keeps the original order |
| Filters.KeepAppend | app.py:485-487 | filtering distributes over concatenation |
| Filters.KeepKeep | app.py:482-487 | two filters in a row are one filter with the conjunction |
| Filters.KeepIdempotent | app.py:485-487 | filtering twice with one condition is filtering once |
| Filters.AllQuestionsHold | app.py:482-487 | the condition the question loop leaves: every selected label that finds a field has that field's flag answered "true" |
| Filters.QuestionsConjoin | app.py:482-487 | the question condition for two selections together is the conjunction of the two |
| Filters.UnknownQuestionIgnored | app.py:483-484 | appending a label the map does not know changes nothing |
| Filters.KnownQuestionSnoc | app.py:483-486 | appending a known label adds the flag of its field as one more conjunct |
| Filters.FilterByQuestions | app.py:482-487 | the rebinding loop over the selected labels returns exactly the elements for which every known selected question holds, in order |
| Filters.SearchTerm | app.py:490 | the search term has no upper-case letter and no whitespace at either end |
| Filters.SearchTermIdempotent | app.py:490 | normalising the term twice is normalising it once |
| Filters.ServiceMatches | app.py:497 | `search_query in tool.get("service", "").lower()` for a string service, the term already normalised |
| Filters.SearchFilter | app.py:493-498 | an empty term keeps everything; otherwise the result is the elements whose lowercased service contains the term, in order; it fails with `AttributeError` exactly when some `service` is not a string |
| Filters.SearchAfterKeep | app.py:485-498 | the search after a filter is one filter with the conjunction; it fails exactly when a kept element has a non-string service |
| Ordering.StrLt | app.py:470 | Python's `<` on strings: a proper prefix is smaller, otherwise the first differing code point decides; `StrLtIrreflexive`, `StrLtTransitive` and `StrLtTotal` state that it is a strict total order |
| Ordering.StrLtTransitive | app.py:470 | Python string order is transitive |
| Ordering.StrLtTotal | app.py:470 | any two distinct strings are ordered one way or the other |
| Ordering.InsertSorted | app.py:470 | inserting a new element into an ascending list keeps it ascending and adds exactly that element |
| Ordering.SortedOverUnique | app.py:470 | a set has exactly one ascending duplicate-free listing, so `sorted(set)` is determined |
| Ordering.RemoveAtSorted | app.py:474 | `remove` of one element leaves the rest ascending |
| Ordering.FacetOrderProperties | app.py:470-475 | a facet list holds every stage once, the non-"Other" stages ascend, and "Other" is last when present |
| Ordering.FacetOrderUnique | app.py:470-475 | there is exactly one facet list for a set of stages |
| Ordering.OrderFacets | app.py:589-592 | `sorted` followed by moving "Other" to the end yields the facet list of the set |
| ToolCatalog.NormalizeStage | app.py:421-433 | a glossary URL becomes its label, "NA"/"Unknown" become "Other", every other value stays, and a missing key raises `KeyError("stage")`; the result is never rewritten again |
| ToolCatalog.LogoUrl | app.py:446-455 | the placeholder logo gives None and nothing else does; a string starting "http" passes through; any other string gets the docs prefix; a non-string raises on `startswith` |
| ToolCatalog.NormalizeTool | app.py:420-460 | one pass of the loop body raises exactly when the tool has no `stage` key or its logo is neither the placeholder nor a string |
| ToolCatalog.StageAndLinks | app.py:429-444 | the record after the assignments to `stage`, `url` (the service base plus `html_name`) and `meta_data` (the docs link, or "md file not found" when `md_file_name` is falsy) |
| ToolCatalog.NormalizeToolFields | app.py:420-460 | a tool fails exactly when its stage or logo does; otherwise it gains exactly the five written fields, keeps every other field, and has a `url` under the service base, a `meta_data` link or "md file not found", and an `inst_url` that is the original value when it is truthy and "no_url" otherwise (absent, "", `false` or null) |
| ToolCatalog.ToolUrlInCatalogue | app.py:439 | every normalised `url` starts with "https://cloud.vhp4safety.nl/service/" |
| ToolCatalog.NormalizeToolIdempotent | app.py:420-460 | normalising a normalised tool changes nothing |
| ToolCatalog.NormalizeAll | app.py:420 | the loop over all tools succeeds exactly when every tool normalises, giving each tool's result in order; otherwise it fails with the error of the first tool that raises |
| ToolCatalog.LeftOnRaise | app.py:427-455 | the tool as an exception leaves it: unchanged when `tool["stage"]` raises, with only `stage`, `url` and `meta_data` assigned when `png_name.startswith` raises |
| ToolCatalog.NormalizeOne | app.py:421-459 | one pass rewrites only `tools[i]`: into the normalised tool when it succeeds; when it raises, `tools[i]` is untouched if `stage` is missing, and has its new `stage`, `url` and `meta_data` if the logo raises |
| ToolCatalog.NormalizeInPlace | app.py:420-460 | the array ends as the list of normalised tools; if one raises, the earlier tools are already rewritten, the raising tool keeps the assignments made before the exception, the later tools are untouched, and the error is that tool's |
| ToolCatalog.StageSelected | app.py:467 | `tool.get("stage") in selected_stages`: the stage is present, a string, and one of the selected stages |
| ToolCatalog.StageFilter | app.py:466-467 | an empty selection keeps every tool; otherwise the result is exactly the tools whose stage is selected, in order |
| ToolCatalog.ApplyFilters | app.py:466-498 | the three tool filters leave an order-preserving subsequence of the tools, and cannot raise without a search term |
| ToolCatalog.StageThenQuestions | app.py:466-487 | the stage filter followed by the question loop keeps the tools meeting both conditions |
| ToolCatalog.ApplyFiltersIsOneFilter | app.py:466-498 | the three filters together equal one order-preserving filter with the conjunction of the three conditions, and fail exactly on a search over a surviving tool whose `service` is not a string |
| ToolCatalog.ApplyFiltersIdempotent | app.py:466-498 | filtering the result again with the same selection returns it unchanged |
| ToolCatalog.StageNames | app.py:470 | the set of facet candidates is exactly the non-empty string stages present |
| ToolCatalog.StageFacets | app.py:470-475 | the facets are the facet list of the stage set; a JSON `true` stage next to any non-empty string stage raises `TypeError`, and alone yields `[true]` (an empty string never reaches `sorted`) |
| ToolCatalog.ToolsPage | app.py:420-498 | the handler rewrites the array into the normalised tools, derives the facets from the stage-filtered list (`[true]` when JSON `true` is its only truthy stage, the facet list of the stage set otherwise), and renders exactly the filter pipeline's result; it fails exactly when normalisation, the facet sort or the search raises |
| MethodCatalog.NormalizeMethod | app.py:533-557 | one entry of the methods index becomes the fields the template reads: `id` as a plain `get` with default `""`, `png` None, every other field an `or`-chain over its aliases ending in its default, plus the raw entry; `NormalizeMethodFields` states each field |
| MethodCatalog.NormalizeMethodFields | app.py:533-557 | each display field is the first truthy alias or its default, `main_url` and `inst_url` are never empty ("no_url" by default), `png` is None, and the raw entry is kept |
| MethodCatalog.StageText | app.py:560 | the stage text is the stripped field, "" when the field is falsy, and absent exactly when the field is JSON `true` (no `strip`) |
| MethodCatalog.TokensShape | app.py:562-564 | every collected stage is non-empty, already stripped and comma-free |
| MethodCatalog.StageTokens | app.py:562-564 | the stages of one stage text are non-empty, stripped and comma-free |
| MethodCatalog.PartStagesAreTokens | app.py:562-564 | adding the stripped non-empty parts one by one gives the set of the text's tokens |
| MethodCatalog.AddStages | app.py:561-564 | the inner loop adds exactly the stage text's tokens to the set |
| MethodCatalog.NormalizeMethods | app.py:531-566 | the loop normalises every entry in order and collects exactly the union of all entries' stage tokens; it fails with `AttributeError("strip")` exactly when some stage field is JSON `true` |
| MethodCatalog.RawStageParts | app.py:576 | `(m["raw"].get(F) or "").split(",")` with the parts left untrimmed; absent when the field is JSON `true` |
| MethodCatalog.MethodStageSelected | app.py:576 | `any(s in parts for s in selected_stages)` over those untrimmed parts |
| MethodCatalog.MethodStageFilter | app.py:575-576 | an empty selection keeps every method; otherwise the result is exactly the methods one of whose untrimmed stage parts is selected, in order |
| MethodCatalog.FacetSelectsUnpadded | app.py:560-576 | when the stage field has no blanks around its parts, selecting any of its facets keeps the method |
| MethodCatalog.PaddedFacetSelectsNothing | app.py:560-576 | for a stage field "a, b", b is offered as a facet, yet selecting b drops the method |
| MethodCatalog.MethodFilters | app.py:573-587 | the three method filters leave an order-preserving subsequence of the entries, and cannot raise without a search term |
| MethodCatalog.StageThenQuestions | app.py:575-584 | the stage filter followed by the question loop keeps the methods meeting both conditions |
| MethodCatalog.MethodFiltersIsOneFilter | app.py:573-587 | the three filters together equal one order-preserving filter with the conjunction, and fail exactly on a search over a surviving method whose `service` is not a string |
| MethodCatalog.MethodFiltersIdempotent | app.py:573-587 | filtering the result again with the same selection returns it unchanged |
| MethodCatalog.MethodsPage | app.py:531-592 | the handler fails on a JSON `true` stage field; otherwise it renders exactly the filter pipeline's result over the normalised methods and the facet list of all methods' stage tokens |
| MethodsMenu.Title | app.py:101 | the title is the first truthy alias, or the key when none is truthy; it is a string or JSON `true` |
| MethodsMenu.MenuItems | app.py:104 | computing the lowercased keys fails exactly when some title is not a string; otherwise each item keeps its id and title |
| MethodsMenu.SortBy | app.py:104 | `sorted(items, key=...)` as one insertion per item, returning as many items as it is given |
| MethodsMenu.SortPermutes | app.py:104 | `sorted` returns a permutation of the items |
| MethodsMenu.SortIsSorted | app.py:104 | no item is preceded by one with a greater lowercased title |
| MethodsMenu.SortIsStable | app.py:104 | items with equal lowercased titles keep their original relative order |
| MethodsMenu.Menu | app.py:89-107 | the menu is empty when the index is unavailable or a title is not a string; otherwise it is a permutation of the items, ordered by lowercased title and stable |
| DataPage.BuildFilters | app.py:158-164 | the list holds exactly the (facet, value) pairs whose value is non-empty, in the order case study, regulatory question, flow step |
| DataPage.FiltersInOrder | app.py:158-164 | each of the eight possible lists is an ordered selection of the three candidates |
| DataPage.HasNext | app.py:191 | `has_next` is `page * page_size < total`; `HasNextBeforeLastPage` states what it means |
| DataPage.HasPrev | app.py:192 | `has_prev` is `page > 1`; `NavigationOnValidPage` states it together with `has_next` |
| DataPage.HasNextBeforeLastPage | app.py:191 | with a positive page size, `has_next` holds exactly when the page is before the last page, `ceil(total / page_size)` |
| DataPage.NavigationOnValidPage | app.py:191-192 | on a page in range, there is a next or a previous page exactly when there is more than one page |
| Compound.IsValidQid | app.py:740-741 | `re.fullmatch(r"Q\d+", qid)` as a four-state automaton that must end in the digit state; `ValidQidShape` states the strings it accepts |
| Compound.ValidQidShape | app.py:740-741 | the automaton accepts exactly "Q" followed by one or more ASCII digits |
| Compound.CompoundTarget | app.py:754-755 | an invalid identifier is answered with "Invalid compound identifier" before any query exists, and only then |
| Compound.CompoundTargetSafe | app.py:754-761 | what reaches the query clause is "wd:" and the identifier, made only of "Q" and digits, with no blank, brace, quote or newline |

## Left out

- HTTP and I/O are outside the model:
  - Flask routing, request arguments, templates, `abort` and the 404 pages;
  - every `requests.get`, JSON decoding, timeouts and the status-code branches.
  - The handlers are modelled from the decoded catalogue onward. The menu takes
    an optional index, with None for a failed or non-object response.
- The BioStudies extractor, the results defaults read from it (app.py:180-188),
  the SPARQL queries and the formatting of their results are calls into code
  that is not part of this model. `total` and the query parameters are inputs.
- The `/models_page` handler (app.py:221-294) repeats the filter list and
  pagination code of `/data` (app.py:236-242 and 269-270). The copy is
  identical, and `DataPage` covers both.
- JSON numbers, arrays and nested objects inside records are not modelled.
  `Value` has only strings, booleans and null. What the handlers do with the
  other kinds is therefore not captured:
  - a list- or object-valued `stage` raises `TypeError` at the lookup in the
    stage mapping (app.py:427), because it cannot be hashed;
  - a numeric `png_file_name` raises `AttributeError` at `startswith`
    (app.py:453);
  - a numeric stage sorted together with a string stage raises `TypeError`
    (app.py:470);
  - a number or list anywhere else reaches `str`, `or` or a comparison, with
    Python's rules for that kind.
- Dict order: `list(d.values())` and `d.items()` are modelled as the sequence
  the caller passes in. Duplicate keys cannot arise and are not modelled.
- Index entries that are not JSON objects are not modelled; every entry is a
  record. Such an entry raises `AttributeError` at `.get` and the request
  ends with HTTP 500, in each of the three loops:
  - a tool in the service index (`tool.get`, app.py:421);
  - a method in the methods index (`m.get`, app.py:535);
  - a menu entry (`val.get`, app.py:101).
- Unicode is modelled as ASCII:
  - `lower()` folds only A-Z;
  - `strip()` removes ASCII whitespace and the separators 28-31;
  - `\d` matches only 0-9.
- MethodCatalog.MethodStageFilter: a JSON `true` stage field would raise in the
  filter's `split`. That is unreachable, because normalisation has already
  raised on `strip` for the same field, so the filter simply drops such an
  entry.
- The commented-out legacy `/tools` handler, the static and legal pages,
  `RegexConverter` and `app.run` are not modelled.
