/**
  `GitHubIngestService.ParseAiResponse`: turns the raw completion text into
  an `IngestResult`. The greedy `\{[\s\S]*\}` match picks the JSON
  candidate; field extraction follows `JsonElement`'s throwing accessors;
  any exception stops extraction, keeps what was already appended, sets the
  overview to the raw text and appends a raw-text section; finally an empty
  section list gets one raw-text section.
*/
module ResponseParser {
  import opened Wrappers
  import opened JsonModel
  import opened IngestTypes

  const OverviewTitle := "Overview"
  const OverviewSummary := "High-level introduction to the repository"
  const OverviewType := "overview"

  /** The section synthesised from the `overview` field. */
  function OverviewSection(text: string): SectionResult {
    SectionResult(OverviewTitle, text, OverviewSummary, 1, OverviewType, [])
  }

  /** The section holding the whole raw response (catch block and final guard). */
  function FallbackSection(raw: string): SectionResult {
    SectionResult(OverviewTitle, raw, DefaultSummary, 1, OverviewType, [])
  }

  // ----- locating the JSON candidate -----

  function FirstIndexOf(s: string, c: char): (r: Option<nat>)
    ensures r.None? <==> c !in s
    ensures r.Some? ==> r.value < |s| && s[r.value] == c && c !in s[..r.value]
  {
    if |s| == 0 then None
    else if s[0] == c then Some(0)
    else match FirstIndexOf(s[1..], c)
      case None => None
      case Some(i) => Some(i + 1)
  }

  function LastIndexOf(s: string, c: char): (r: Option<nat>)
    ensures r.None? <==> c !in s
    ensures r.Some? ==> r.value < |s| && s[r.value] == c && c !in s[r.value + 1..]
  {
    if |s| == 0 then None
    else if s[|s| - 1] == c then Some(|s| - 1)
    else LastIndexOf(s[..|s| - 1], c)
  }

  /** When the first `{` is not before the last `}`, no `{` precedes any `}`. */
  lemma NoBracePair(text: string, first: nat, last: nat)
    requires first < |text| && '{' !in text[..first]
    requires last < |text| && '}' !in text[last + 1..]
    requires last <= first
    ensures forall a, b :: 0 <= a < b < |text| && text[a] == '{' ==> text[b] != '}'
  {
    assert forall k :: 0 <= k < first ==> text[..first][k] == text[k];
    assert forall k :: last < k < |text| ==> text[last + 1..][k - last - 1] == text[k];
  }

  /** The first `{` before the last `}` bound a span of the stated form. */
  lemma SpanWitness(text: string, first: nat, last: nat)
    requires first < last < |text| && text[first] == '{' && text[last] == '}'
    requires '{' !in text[..first] && '}' !in text[last + 1..]
    ensures exists i, j :: (0 <= i < j < |text| && text[i] == '{' && text[j] == '}' &&
                            '{' !in text[..i] && '}' !in text[j + 1..] && text[first..last + 1] == text[i..j + 1])
  {
  }

  /**
    The text of the leftmost-longest match of `\{[\s\S]*\}`: it exists iff
    some `{` precedes some `}`, and it runs from the first `{` to the last `}`.
  */
  function JsonCandidate(text: string): (r: Option<string>)
    ensures r.Some? <==> exists i, j :: 0 <= i < j < |text| && text[i] == '{' && text[j] == '}'
    ensures r.Some? ==>
      exists i, j :: 0 <= i < j < |text| && text[i] == '{' && text[j] == '}' &&
        '{' !in text[..i] && '}' !in text[j + 1..] && r.value == text[i..j + 1]
  {
    match FirstIndexOf(text, '{')
    case None =>
      assert forall k :: 0 <= k < |text| ==> text[k] != '{';
      None
    case Some(i) =>
      (match LastIndexOf(text, '}')
       case None =>
         assert forall k :: 0 <= k < |text| ==> text[k] != '}';
         None
       case Some(j) =>
         if i < j then
           SpanWitness(text, i, j);
           Some(text[i..j + 1])
         else
           NoBracePair(text, i, j);
           None)
  }

  // ----- field extraction -----

  /** `TryGetProperty(name, …) ? v.GetString() ?? fallback : fallback`. */
  function OptionalString(e: Json, name: string, fallback: string): Option<string> {
    var p :- TryGetProperty(e, name);
    if p.None? then Some(fallback) else StringOr(p.value, fallback)
  }

  /** `TryGetProperty(name, …) ? v.GetInt32() : fallback`. */
  function OptionalInt(e: Json, name: string, fallback: int): Option<int> {
    var p :- TryGetProperty(e, name);
    if p.None? then Some(fallback) else GetInt32(p.value)
  }

  /** `TryGetProperty(name, …) ? v.GetString() : null`: `Some(None)` is a C# null. */
  function OptionalNullableString(e: Json, name: string): Option<Option<string>> {
    var p :- TryGetProperty(e, name);
    if p.None? then Some(None) else GetString(p.value)
  }

  /** `items.Select(f => f.GetString() ?? "").Where(f => !string.IsNullOrEmpty(f))`. */
  function RelatedFiles(items: seq<Json>): (r: Option<seq<string>>)
    ensures r.Some? <==> forall k :: 0 <= k < |items| ==> items[k].JString? || items[k].JNull?
    ensures r.Some? ==> forall f :: f in r.value ==> f != "" && JString(f) in items
    ensures r.Some? ==> forall k :: 0 <= k < |items| && items[k].JString? && items[k].s != "" ==> items[k].s in r.value
    decreases |items|
  {
    if |items| == 0 then Some([])
    else
      var name :- StringOr(items[0], "");
      var rest :- RelatedFiles(items[1..]);
      assert forall k :: 1 <= k < |items| ==> items[k] == items[1..][k - 1];
      Some(if name == "" then rest else [name] + rest)
  }

  /** The `files` property: absent gives `[]`; present must be an array of strings or nulls. */
  function FilesProperty(e: Json): Option<seq<string>> {
    var p :- TryGetProperty(e, "files");
    if p.None? then Some([])
    else
      var items :- EnumerateArray(p.value);
      RelatedFiles(items)
  }

  /** One element of `sections`; `None` where the C# object initializer throws. */
  function ParseSection(e: Json): Option<SectionResult> {
    var titleEl :- GetProperty(e, "title");
    var title :- StringOr(titleEl, "");
    var contentEl :- GetProperty(e, "content");
    var content :- StringOr(contentEl, "");
    var summary :- OptionalString(e, "summary", DefaultSummary);
    var level :- OptionalInt(e, "level", DefaultLevel);
    var sectionType :- OptionalString(e, "type", DefaultSectionType);
    var files :- FilesProperty(e);
    Some(SectionResult(title, content, summary, level, sectionType, files))
  }

  /** One element of `relations`; a present `description` may be null. */
  function ParseRelation(e: Json): Option<RelationResult> {
    var fromEl :- GetProperty(e, "from");
    var from :- StringOr(fromEl, "");
    var toEl :- GetProperty(e, "to");
    var to :- StringOr(toEl, "");
    var relationType :- OptionalString(e, "type", DefaultRelationType);
    var description :- OptionalNullableString(e, "description");
    Some(RelationResult(from, to, relationType, description))
  }

  /** One element of `diagrams`. */
  function ParseDiagram(e: Json): Option<DiagramResult> {
    var titleEl :- GetProperty(e, "title");
    var title :- StringOr(titleEl, "");
    var diagramType :- OptionalString(e, "type", DefaultDiagramType);
    var contentEl :- GetProperty(e, "content");
    var content :- StringOr(contentEl, "");
    Some(DiagramResult(title, diagramType, content))
  }

  /**
    A `foreach` that adds each parsed element until one throws: the parsed
    prefix, and whether an element threw.
  */
  function ParseEach<T>(items: seq<Json>, parse: Json -> Option<T>): (r: (seq<T>, bool))
    ensures |r.0| <= |items|
    ensures forall k :: 0 <= k < |r.0| ==> parse(items[k]) == Some(r.0[k])
    ensures !r.1 ==> |r.0| == |items|
    ensures r.1 ==> |r.0| < |items| && parse(items[|r.0|]).None?
    decreases |items|
  {
    if |items| == 0 then ([], false)
    else match parse(items[0])
      case None => ([], true)
      case Some(x) =>
        var rest := ParseEach(items[1..], parse);
        ([x] + rest.0, rest.1)
  }

  /** The four ensures of `ParseEach` pin its result down: nothing else satisfies them. */
  lemma {:induction false} ParseEachDetermined<T>(items: seq<Json>, parse: Json -> Option<T>, done: seq<T>, failed: bool)
    requires |done| <= |items|
    requires forall k :: 0 <= k < |done| ==> parse(items[k]) == Some(done[k])
    requires !failed ==> |done| == |items|
    requires failed ==> |done| < |items| && parse(items[|done|]).None?
    ensures ParseEach(items, parse) == (done, failed)
    decreases |items|
  {
    if |items| > 0 && parse(items[0]).Some? {
      assert |done| > 0;
      ParseEachDetermined(items[1..], parse, done[1..], failed);
      assert done == [done[0]] + done[1..];
    }
  }

  // ----- the stages of the try block -----

  /** What the try block has collected, and whether it ended by an exception. */
  datatype Attempt = Attempt(result: IngestResult, failed: bool)

  function WithOverview(json: Json, r: IngestResult): Attempt {
    match TryGetProperty(json, "overview")
    case None => Attempt(r, true)
    case Some(None) => Attempt(r, false)
    case Some(Some(el)) =>
      match StringOr(el, "")
      case None => Attempt(r, true)
      case Some(text) => Attempt(r.(overview := text, sections := r.sections + [OverviewSection(text)]), false)
  }

  function WithSections(json: Json, r: IngestResult): Attempt {
    match TryGetProperty(json, "sections")
    case None => Attempt(r, true)
    case Some(None) => Attempt(r, false)
    case Some(Some(el)) =>
      match EnumerateArray(el)
      case None => Attempt(r, true)
      case Some(items) =>
        var p := ParseEach(items, ParseSection);
        Attempt(r.(sections := r.sections + p.0), p.1)
  }

  function WithRelations(json: Json, r: IngestResult): Attempt {
    match TryGetProperty(json, "relations")
    case None => Attempt(r, true)
    case Some(None) => Attempt(r, false)
    case Some(Some(el)) =>
      match EnumerateArray(el)
      case None => Attempt(r, true)
      case Some(items) =>
        var p := ParseEach(items, ParseRelation);
        Attempt(r.(relations := r.relations + p.0), p.1)
  }

  function WithDiagrams(json: Json, r: IngestResult): Attempt {
    match TryGetProperty(json, "diagrams")
    case None => Attempt(r, true)
    case Some(None) => Attempt(r, false)
    case Some(Some(el)) =>
      match EnumerateArray(el)
      case None => Attempt(r, true)
      case Some(items) =>
        var p := ParseEach(items, ParseDiagram);
        Attempt(r.(diagrams := r.diagrams + p.0), p.1)
  }

  /** The try block on a deserialized element: overview, sections, relations, diagrams, in order. */
  function ExtractFields(json: Json): Attempt {
    var a1 := WithOverview(json, EmptyResult);
    if a1.failed then a1
    else
      var a2 := WithSections(json, a1.result);
      if a2.failed then a2
      else
        var a3 := WithRelations(json, a2.result);
        if a3.failed then a3 else WithDiagrams(json, a3.result)
  }

  /** The whole try block: no candidate is not an exception; bad JSON is. */
  function Extract(raw: string, deserialize: string -> Option<Json>): Attempt {
    match JsonCandidate(raw)
    case None => Attempt(EmptyResult, false)
    case Some(span) =>
      match deserialize(span)
      case None => Attempt(EmptyResult, true)
      case Some(json) => ExtractFields(json)
  }

  /**
    The result of `ParseAiResponse`: the catch block overwrites the overview
    and appends a raw-text section, then the guard fills an empty section list.
    It never returns a document without sections.
  */
  function Parse(raw: string, deserialize: string -> Option<Json>): (r: IngestResult)
    ensures |r.sections| >= 1
  {
    var a := Extract(raw, deserialize);
    var caught :=
      if a.failed then a.result.(overview := raw, sections := a.result.sections + [FallbackSection(raw)])
      else a.result;
    if |caught.sections| == 0 then caught.(sections := [FallbackSection(raw)]) else caught
  }

  // ----- the imperative parser -----

  /** A `foreach (… in items) list.Add(parse(…))` that stops at the first element that throws. */
  method AppendParsed<T>(items: seq<Json>, parse: Json -> Option<T>, list: seq<T>)
    returns (extended: seq<T>, threw: bool)
    ensures extended == list + ParseEach(items, parse).0
    ensures threw == ParseEach(items, parse).1
  {
    extended := list;
    threw := false;
    var i := 0;
    while i < |items|
      invariant 0 <= i <= |items|
      invariant |extended| == |list| + i
      invariant extended[..|list|] == list
      invariant forall k :: 0 <= k < i ==> parse(items[k]) == Some(extended[|list| + k])
    {
      var element := parse(items[i]);
      if element.None? {
        threw := true;
        break;
      }
      extended := extended + [element.value];
      i := i + 1;
    }
    ParseEachDetermined(items, parse, extended[|list|..], threw);
    assert extended == list + extended[|list|..];
  }

  /** The `overview` block: a present overview is copied and becomes the first section. */
  method ApplyOverview(json: Json, before: IngestResult) returns (result: IngestResult, threw: bool)
    ensures Attempt(result, threw) == WithOverview(json, before)
  {
    result, threw := before, false;
    var overviewEl := TryGetProperty(json, "overview");
    if overviewEl.None? {
      return before, true;
    }
    if overviewEl.value.Some? {
      var text := StringOr(overviewEl.value.value, "");
      if text.None? {
        return before, true;
      }
      result := before.(overview := text.value, sections := before.sections + [OverviewSection(text.value)]);
    }
  }

  /** The `sections` loop. */
  method ApplySections(json: Json, before: IngestResult) returns (result: IngestResult, threw: bool)
    ensures Attempt(result, threw) == WithSections(json, before)
  {
    result, threw := before, false;
    var sectionsEl := TryGetProperty(json, "sections");
    if sectionsEl.None? {
      return before, true;
    }
    if sectionsEl.value.Some? {
      var items := EnumerateArray(sectionsEl.value.value);
      if items.None? {
        return before, true;
      }
      var sections;
      sections, threw := AppendParsed(items.value, ParseSection, before.sections);
      result := before.(sections := sections);
    }
  }

  /** The `relations` loop. */
  method ApplyRelations(json: Json, before: IngestResult) returns (result: IngestResult, threw: bool)
    ensures Attempt(result, threw) == WithRelations(json, before)
  {
    result, threw := before, false;
    var relationsEl := TryGetProperty(json, "relations");
    if relationsEl.None? {
      return before, true;
    }
    if relationsEl.value.Some? {
      var items := EnumerateArray(relationsEl.value.value);
      if items.None? {
        return before, true;
      }
      var relations;
      relations, threw := AppendParsed(items.value, ParseRelation, before.relations);
      result := before.(relations := relations);
    }
  }

  /** The `diagrams` loop. */
  method ApplyDiagrams(json: Json, before: IngestResult) returns (result: IngestResult, threw: bool)
    ensures Attempt(result, threw) == WithDiagrams(json, before)
  {
    result, threw := before, false;
    var diagramsEl := TryGetProperty(json, "diagrams");
    if diagramsEl.None? {
      return before, true;
    }
    if diagramsEl.value.Some? {
      var items := EnumerateArray(diagramsEl.value.value);
      if items.None? {
        return before, true;
      }
      var diagrams;
      diagrams, threw := AppendParsed(items.value, ParseDiagram, before.diagrams);
      result := before.(diagrams := diagrams);
    }
  }

  /**
    `ParseAiResponse(aiResponse, allFiles)`. `deserialize` stands for
    `JsonSerializer.Deserialize<JsonElement>` (`None`: it throws). `allFiles`
    is accepted and, as in the source, never read.
  */
  method ParseAiResponse(aiResponse: string, allFiles: seq<string>, deserialize: string -> Option<Json>)
    returns (result: IngestResult)
    ensures result == Parse(aiResponse, deserialize)
    ensures |result.sections| >= 1
  {
    result := EmptyResult;
    var failed := false;
    label Try: {
      var jsonMatch := JsonCandidate(aiResponse);
      if jsonMatch.None? { break Try; }
      var parsed := deserialize(jsonMatch.value);
      if parsed.None? {
        failed := true;
        break Try;
      }
      var json := parsed.value;
      result, failed := ApplyOverview(json, result);
      if failed { break Try; }
      result, failed := ApplySections(json, result);
      if failed { break Try; }
      result, failed := ApplyRelations(json, result);
      if failed { break Try; }
      result, failed := ApplyDiagrams(json, result);
    }
    assert Extract(aiResponse, deserialize) == Attempt(result, failed);

    if failed {
      // catch: the overview becomes the raw text; nothing collected is removed
      result := result.(overview := aiResponse, sections := result.sections + [FallbackSection(aiResponse)]);
    }
    if |result.sections| == 0 {
      result := result.(sections := [FallbackSection(aiResponse)]);
    }
  }
}
