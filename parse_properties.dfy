/**
  Properties of `ResponseParser.Parse`: what a well-formed answer, a broken
  element, a missing candidate and missing fields produce.
*/
module ParseProperties {
  import opened Wrappers
  import opened JsonModel
  import opened IngestTypes
  import opened ResponseParser

  // ----- one stage at a time -----

  /** A string `overview` is copied and becomes the next section. */
  lemma OverviewStage(props: map<string, Json>, overview: string, before: IngestResult)
    requires "overview" in props && props["overview"] == JString(overview)
    ensures WithOverview(JObject(props), before) ==
      Attempt(before.(overview := overview, sections := before.sections + [OverviewSection(overview)]), false)
  {
  }

  /** An array `sections` appends its parsed prefix and fails iff an element throws. */
  lemma SectionsStage(props: map<string, Json>, items: seq<Json>, before: IngestResult)
    requires "sections" in props && props["sections"] == JArray(items)
    ensures WithSections(JObject(props), before) ==
      Attempt(before.(sections := before.sections + ParseEach(items, ParseSection).0), ParseEach(items, ParseSection).1)
  {
  }

  /** An array `relations` appends its parsed prefix and fails iff an element throws. */
  lemma RelationsStage(props: map<string, Json>, items: seq<Json>, before: IngestResult)
    requires "relations" in props && props["relations"] == JArray(items)
    ensures WithRelations(JObject(props), before) ==
      Attempt(before.(relations := before.relations + ParseEach(items, ParseRelation).0), ParseEach(items, ParseRelation).1)
  {
  }

  /** An array `diagrams` appends its parsed prefix and fails iff an element throws. */
  lemma DiagramsStage(props: map<string, Json>, items: seq<Json>, before: IngestResult)
    requires "diagrams" in props && props["diagrams"] == JArray(items)
    ensures WithDiagrams(JObject(props), before) ==
      Attempt(before.(diagrams := before.diagrams + ParseEach(items, ParseDiagram).0), ParseEach(items, ParseDiagram).1)
  {
  }

  /** A deserialized candidate is what the field stages read. */
  lemma CandidateFields(raw: string, deserialize: string -> Option<Json>, json: Json)
    requires JsonCandidate(raw).Some? && deserialize(JsonCandidate(raw).value) == Some(json)
    ensures Extract(raw, deserialize) == ExtractFields(json)
  {
  }

  /** The overview and sections stages: the overview section, then the parsed sections. */
  lemma FieldsThroughSections(props: map<string, Json>, overview: string, sections: seq<Json>)
    requires "overview" in props && props["overview"] == JString(overview)
    requires "sections" in props && props["sections"] == JArray(sections)
    ensures WithOverview(JObject(props), EmptyResult) == Attempt(IngestResult(overview, [OverviewSection(overview)], [], []), false)
    ensures WithSections(JObject(props), WithOverview(JObject(props), EmptyResult).result) ==
      Attempt(IngestResult(overview, [OverviewSection(overview)] + ParseEach(sections, ParseSection).0, [], []),
              ParseEach(sections, ParseSection).1)
  {
    OverviewStage(props, overview, EmptyResult);
    SectionsStage(props, sections, IngestResult(overview, [OverviewSection(overview)], [], []));
  }

  /** Overview, sections and relations that do not throw: the state the diagrams stage starts from. */
  lemma FieldsThroughRelations(props: map<string, Json>, overview: string, sections: seq<Json>, relations: seq<Json>)
    requires "overview" in props && props["overview"] == JString(overview)
    requires "sections" in props && props["sections"] == JArray(sections)
    requires "relations" in props && props["relations"] == JArray(relations)
    requires !ParseEach(sections, ParseSection).1 && !ParseEach(relations, ParseRelation).1
    ensures ExtractFields(JObject(props)) ==
      WithDiagrams(JObject(props), IngestResult(overview, [OverviewSection(overview)] + ParseEach(sections, ParseSection).0,
                                                ParseEach(relations, ParseRelation).0, []))
  {
    var json := JObject(props);
    var ps, pr := ParseEach(sections, ParseSection), ParseEach(relations, ParseRelation);
    var afterSections := IngestResult(overview, [OverviewSection(overview)] + ps.0, [], []);
    var afterRelations := IngestResult(overview, [OverviewSection(overview)] + ps.0, pr.0, []);
    FieldsThroughSections(props, overview, sections);
    assert WithRelations(json, afterSections) == Attempt(afterRelations, false) by {
      RelationsStage(props, relations, afterSections);
      assert afterSections.relations + pr.0 == pr.0;
    }
    ExtractAfterRelations(json, afterSections, afterRelations);
  }

  /** The try block runs the diagrams stage once the first three stages have not thrown. */
  lemma ExtractAfterRelations(json: Json, afterSections: IngestResult, afterRelations: IngestResult)
    requires !WithOverview(json, EmptyResult).failed
    requires WithSections(json, WithOverview(json, EmptyResult).result) == Attempt(afterSections, false)
    requires WithRelations(json, afterSections) == Attempt(afterRelations, false)
    ensures ExtractFields(json) == WithDiagrams(json, afterRelations)
  {
  }

  /** Every stage present and every element well-formed: nothing throws. */
  lemma AllFieldsParsed(props: map<string, Json>, overview: string,
                        sections: seq<Json>, relations: seq<Json>, diagrams: seq<Json>)
    requires "overview" in props && props["overview"] == JString(overview)
    requires "sections" in props && props["sections"] == JArray(sections)
    requires "relations" in props && props["relations"] == JArray(relations)
    requires "diagrams" in props && props["diagrams"] == JArray(diagrams)
    requires !ParseEach(sections, ParseSection).1 && !ParseEach(relations, ParseRelation).1
    requires !ParseEach(diagrams, ParseDiagram).1
    ensures ExtractFields(JObject(props)) ==
      Attempt(IngestResult(overview, [OverviewSection(overview)] + ParseEach(sections, ParseSection).0,
                           ParseEach(relations, ParseRelation).0, ParseEach(diagrams, ParseDiagram).0), false)
  {
    var before := IngestResult(overview, [OverviewSection(overview)] + ParseEach(sections, ParseSection).0,
                               ParseEach(relations, ParseRelation).0, []);
    FieldsThroughRelations(props, overview, sections, relations);
    DiagramsStage(props, diagrams, before);
    assert [] + ParseEach(diagrams, ParseDiagram).0 == ParseEach(diagrams, ParseDiagram).0;
  }

  /** A relation that throws ends the try block after the sections. */
  lemma FieldsStopAtRelations(props: map<string, Json>, overview: string, sections: seq<Json>, relations: seq<Json>)
    requires "overview" in props && props["overview"] == JString(overview)
    requires "sections" in props && props["sections"] == JArray(sections)
    requires "relations" in props && props["relations"] == JArray(relations)
    requires !ParseEach(sections, ParseSection).1 && ParseEach(relations, ParseRelation).1
    ensures ExtractFields(JObject(props)) ==
      Attempt(IngestResult(overview, [OverviewSection(overview)] + ParseEach(sections, ParseSection).0,
                           ParseEach(relations, ParseRelation).0, []), true)
  {
    var json := JObject(props);
    var a1 := WithOverview(json, EmptyResult);
    OverviewStage(props, overview, EmptyResult);
    var a2 := WithSections(json, a1.result);
    SectionsStage(props, sections, a1.result);
    var a3 := WithRelations(json, a2.result);
    RelationsStage(props, relations, a2.result);
    var ps, pr := ParseEach(sections, ParseSection), ParseEach(relations, ParseRelation);
    assert a1 == Attempt(IngestResult(overview, [OverviewSection(overview)], [], []), false);
    assert a2 == Attempt(IngestResult(overview, [OverviewSection(overview)] + ps.0, [], []), false);
    assert a3 == Attempt(IngestResult(overview, [OverviewSection(overview)] + ps.0, pr.0, []), true) by {
      assert [] + pr.0 == pr.0;
    }
    assert ExtractFields(json) == a3;
  }

  /** `Parse` of a candidate whose every stage succeeds, in terms of the parsed arrays. */
  lemma ParseWellFormed(raw: string, deserialize: string -> Option<Json>, props: map<string, Json>,
                        overview: string, sections: seq<Json>, relations: seq<Json>, diagrams: seq<Json>)
    requires JsonCandidate(raw).Some? && deserialize(JsonCandidate(raw).value) == Some(JObject(props))
    requires "overview" in props && props["overview"] == JString(overview)
    requires "sections" in props && props["sections"] == JArray(sections)
    requires "relations" in props && props["relations"] == JArray(relations)
    requires "diagrams" in props && props["diagrams"] == JArray(diagrams)
    requires forall k :: 0 <= k < |sections| ==> ParseSection(sections[k]).Some?
    requires forall k :: 0 <= k < |relations| ==> ParseRelation(relations[k]).Some?
    requires forall k :: 0 <= k < |diagrams| ==> ParseDiagram(diagrams[k]).Some?
    ensures Parse(raw, deserialize) ==
      IngestResult(overview, [OverviewSection(overview)] + ParseEach(sections, ParseSection).0,
                   ParseEach(relations, ParseRelation).0, ParseEach(diagrams, ParseDiagram).0)
  {
    assert !ParseEach(sections, ParseSection).1;
    assert !ParseEach(relations, ParseRelation).1;
    assert !ParseEach(diagrams, ParseDiagram).1;
    AllFieldsParsed(props, overview, sections, relations, diagrams);
    CandidateFields(raw, deserialize, JObject(props));
  }

  /** `Parse` of a candidate whose relation number `bad` throws, in terms of the parsed arrays. */
  lemma ParseStopsAtRelations(raw: string, deserialize: string -> Option<Json>, props: map<string, Json>,
                              overview: string, sections: seq<Json>, relations: seq<Json>, bad: nat)
    requires JsonCandidate(raw).Some? && deserialize(JsonCandidate(raw).value) == Some(JObject(props))
    requires "overview" in props && props["overview"] == JString(overview)
    requires "sections" in props && props["sections"] == JArray(sections)
    requires "relations" in props && props["relations"] == JArray(relations)
    requires forall k :: 0 <= k < |sections| ==> ParseSection(sections[k]).Some?
    requires bad < |relations| && ParseRelation(relations[bad]).None?
    requires forall k :: 0 <= k < bad ==> ParseRelation(relations[k]).Some?
    ensures |ParseEach(relations, ParseRelation).0| == bad
    ensures Parse(raw, deserialize) ==
      IngestResult(raw, [OverviewSection(overview)] + ParseEach(sections, ParseSection).0 + [FallbackSection(raw)],
                   ParseEach(relations, ParseRelation).0, [])
  {
    assert !ParseEach(sections, ParseSection).1;
    assert ParseEach(relations, ParseRelation).1;
    FieldsStopAtRelations(props, overview, sections, relations);
    CandidateFields(raw, deserialize, JObject(props));
  }

  /** A section that throws ends the try block before any relation is read. */
  lemma FieldsStopAtSections(props: map<string, Json>, overview: string, sections: seq<Json>)
    requires "overview" in props && props["overview"] == JString(overview)
    requires "sections" in props && props["sections"] == JArray(sections)
    requires ParseEach(sections, ParseSection).1
    ensures ExtractFields(JObject(props)) ==
      Attempt(IngestResult(overview, [OverviewSection(overview)] + ParseEach(sections, ParseSection).0, [], []), true)
  {
    FieldsThroughSections(props, overview, sections);
  }

  /** A diagram that throws ends the try block after the sections and the relations. */
  lemma FieldsStopAtDiagrams(props: map<string, Json>, overview: string,
                             sections: seq<Json>, relations: seq<Json>, diagrams: seq<Json>)
    requires "overview" in props && props["overview"] == JString(overview)
    requires "sections" in props && props["sections"] == JArray(sections)
    requires "relations" in props && props["relations"] == JArray(relations)
    requires "diagrams" in props && props["diagrams"] == JArray(diagrams)
    requires !ParseEach(sections, ParseSection).1 && !ParseEach(relations, ParseRelation).1
    requires ParseEach(diagrams, ParseDiagram).1
    ensures ExtractFields(JObject(props)) ==
      Attempt(IngestResult(overview, [OverviewSection(overview)] + ParseEach(sections, ParseSection).0,
                           ParseEach(relations, ParseRelation).0, ParseEach(diagrams, ParseDiagram).0), true)
  {
    var before := IngestResult(overview, [OverviewSection(overview)] + ParseEach(sections, ParseSection).0,
                               ParseEach(relations, ParseRelation).0, []);
    FieldsThroughRelations(props, overview, sections, relations);
    DiagramsStage(props, diagrams, before);
    assert [] + ParseEach(diagrams, ParseDiagram).0 == ParseEach(diagrams, ParseDiagram).0;
  }

  // ----- properties of the parse -----

  /** With no `{` before a `}` there is no candidate: no exception, an empty overview, one raw-text section. */
  lemma NoCandidateGivesRawSection(raw: string, deserialize: string -> Option<Json>)
    requires forall i, j :: 0 <= i < j < |raw| && raw[i] == '{' ==> raw[j] != '}'
    ensures Parse(raw, deserialize) == IngestResult("", [FallbackSection(raw)], [], [])
  {
  }

  /** A candidate that does not deserialize: the overview and the only section are the raw text. */
  lemma UndeserializableCandidate(raw: string, deserialize: string -> Option<Json>)
    requires JsonCandidate(raw).Some? && deserialize(JsonCandidate(raw).value).None?
    ensures Parse(raw, deserialize) == IngestResult(raw, [FallbackSection(raw)], [], [])
  {
  }

  /**
    A well-formed object: the synthesised overview section first, then one
    section per array element, in order.
  */
  lemma WellFormedSections(raw: string, deserialize: string -> Option<Json>, props: map<string, Json>,
                           overview: string, sections: seq<Json>, relations: seq<Json>, diagrams: seq<Json>)
    requires JsonCandidate(raw).Some? && deserialize(JsonCandidate(raw).value) == Some(JObject(props))
    requires "overview" in props && props["overview"] == JString(overview)
    requires "sections" in props && props["sections"] == JArray(sections)
    requires "relations" in props && props["relations"] == JArray(relations)
    requires "diagrams" in props && props["diagrams"] == JArray(diagrams)
    requires forall k :: 0 <= k < |sections| ==> ParseSection(sections[k]).Some?
    requires forall k :: 0 <= k < |relations| ==> ParseRelation(relations[k]).Some?
    requires forall k :: 0 <= k < |diagrams| ==> ParseDiagram(diagrams[k]).Some?
    ensures Parse(raw, deserialize).overview == overview
    ensures |Parse(raw, deserialize).sections| == 1 + |sections|
    ensures Parse(raw, deserialize).sections[0] == OverviewSection(overview)
    ensures forall k :: 0 <= k < |sections| ==> ParseSection(sections[k]) == Some(Parse(raw, deserialize).sections[k + 1])
  {
    var ps := ParseEach(sections, ParseSection);
    ParseWellFormed(raw, deserialize, props, overview, sections, relations, diagrams);
    var r := Parse(raw, deserialize);
    assert r.sections == [OverviewSection(overview)] + ps.0;
    assert forall k :: 0 <= k < |sections| ==> r.sections[k + 1] == ps.0[k];
  }

  /** A well-formed object: one relation and one diagram per array element, in order. */
  lemma WellFormedRelationsAndDiagrams(raw: string, deserialize: string -> Option<Json>, props: map<string, Json>,
                                       overview: string, sections: seq<Json>, relations: seq<Json>, diagrams: seq<Json>)
    requires JsonCandidate(raw).Some? && deserialize(JsonCandidate(raw).value) == Some(JObject(props))
    requires "overview" in props && props["overview"] == JString(overview)
    requires "sections" in props && props["sections"] == JArray(sections)
    requires "relations" in props && props["relations"] == JArray(relations)
    requires "diagrams" in props && props["diagrams"] == JArray(diagrams)
    requires forall k :: 0 <= k < |sections| ==> ParseSection(sections[k]).Some?
    requires forall k :: 0 <= k < |relations| ==> ParseRelation(relations[k]).Some?
    requires forall k :: 0 <= k < |diagrams| ==> ParseDiagram(diagrams[k]).Some?
    ensures |Parse(raw, deserialize).relations| == |relations|
    ensures forall k :: 0 <= k < |relations| ==> ParseRelation(relations[k]) == Some(Parse(raw, deserialize).relations[k])
    ensures |Parse(raw, deserialize).diagrams| == |diagrams|
    ensures forall k :: 0 <= k < |diagrams| ==> ParseDiagram(diagrams[k]) == Some(Parse(raw, deserialize).diagrams[k])
  {
    ParseWellFormed(raw, deserialize, props, overview, sections, relations, diagrams);
  }

  /**
    An element of `relations` that throws keeps every section already
    appended, then adds the raw-text section; the overview becomes the raw text.
  */
  lemma BadRelationKeepsSections(raw: string, deserialize: string -> Option<Json>, props: map<string, Json>,
                                 overview: string, sections: seq<Json>, relations: seq<Json>, bad: nat)
    requires JsonCandidate(raw).Some? && deserialize(JsonCandidate(raw).value) == Some(JObject(props))
    requires "overview" in props && props["overview"] == JString(overview)
    requires "sections" in props && props["sections"] == JArray(sections)
    requires "relations" in props && props["relations"] == JArray(relations)
    requires forall k :: 0 <= k < |sections| ==> ParseSection(sections[k]).Some?
    requires bad < |relations| && ParseRelation(relations[bad]).None?
    requires forall k :: 0 <= k < bad ==> ParseRelation(relations[k]).Some?
    ensures Parse(raw, deserialize).overview == raw
    ensures |Parse(raw, deserialize).sections| == |sections| + 2
    ensures Parse(raw, deserialize).sections[0] == OverviewSection(overview)
    ensures forall k :: 0 <= k < |sections| ==> ParseSection(sections[k]) == Some(Parse(raw, deserialize).sections[k + 1])
    ensures Parse(raw, deserialize).sections[|sections| + 1] == FallbackSection(raw)
  {
    var ps := ParseEach(sections, ParseSection);
    ParseStopsAtRelations(raw, deserialize, props, overview, sections, relations, bad);
    var r := Parse(raw, deserialize);
    assert r.sections == [OverviewSection(overview)] + ps.0 + [FallbackSection(raw)];
    assert forall k :: 0 <= k < |sections| ==> r.sections[k + 1] == ps.0[k];
  }

  /** An element of `relations` that throws keeps the relations before it, and no diagram is read. */
  lemma BadRelationKeepsEarlierRelations(raw: string, deserialize: string -> Option<Json>, props: map<string, Json>,
                                         overview: string, sections: seq<Json>, relations: seq<Json>, bad: nat)
    requires JsonCandidate(raw).Some? && deserialize(JsonCandidate(raw).value) == Some(JObject(props))
    requires "overview" in props && props["overview"] == JString(overview)
    requires "sections" in props && props["sections"] == JArray(sections)
    requires "relations" in props && props["relations"] == JArray(relations)
    requires forall k :: 0 <= k < |sections| ==> ParseSection(sections[k]).Some?
    requires bad < |relations| && ParseRelation(relations[bad]).None?
    requires forall k :: 0 <= k < bad ==> ParseRelation(relations[k]).Some?
    ensures |Parse(raw, deserialize).relations| == bad
    ensures forall k :: 0 <= k < bad ==> ParseRelation(relations[k]) == Some(Parse(raw, deserialize).relations[k])
    ensures Parse(raw, deserialize).diagrams == []
  {
    ParseStopsAtRelations(raw, deserialize, props, overview, sections, relations, bad);
  }

  /**
    An element of `sections` that throws keeps the overview section and the
    sections before it, then adds the raw-text section; the overview becomes
    the raw text and no relation or diagram is read.
  */
  lemma BadSectionKeepsEarlierSections(raw: string, deserialize: string -> Option<Json>, props: map<string, Json>,
                                       overview: string, sections: seq<Json>, bad: nat)
    requires JsonCandidate(raw).Some? && deserialize(JsonCandidate(raw).value) == Some(JObject(props))
    requires "overview" in props && props["overview"] == JString(overview)
    requires "sections" in props && props["sections"] == JArray(sections)
    requires bad < |sections| && ParseSection(sections[bad]).None?
    requires forall k :: 0 <= k < bad ==> ParseSection(sections[k]).Some?
    ensures Parse(raw, deserialize).overview == raw
    ensures |Parse(raw, deserialize).sections| == bad + 2
    ensures Parse(raw, deserialize).sections[0] == OverviewSection(overview)
    ensures forall k :: 0 <= k < bad ==> ParseSection(sections[k]) == Some(Parse(raw, deserialize).sections[k + 1])
    ensures Parse(raw, deserialize).sections[bad + 1] == FallbackSection(raw)
    ensures Parse(raw, deserialize).relations == [] && Parse(raw, deserialize).diagrams == []
  {
    var ps := ParseEach(sections, ParseSection);
    assert ps.1 && |ps.0| == bad;
    FieldsStopAtSections(props, overview, sections);
    CandidateFields(raw, deserialize, JObject(props));
    var r := Parse(raw, deserialize);
    assert r.sections == [OverviewSection(overview)] + ps.0 + [FallbackSection(raw)];
    assert forall k :: 0 <= k < bad ==> r.sections[k + 1] == ps.0[k];
  }

  /**
    A `sections` value that is not an array throws when it is enumerated:
    the overview section stays, the raw-text section follows it, and no
    relation or diagram is read.
  */
  lemma SectionsNotArrayKeepsOverview(raw: string, deserialize: string -> Option<Json>, props: map<string, Json>,
                                      overview: string)
    requires JsonCandidate(raw).Some? && deserialize(JsonCandidate(raw).value) == Some(JObject(props))
    requires "overview" in props && props["overview"] == JString(overview)
    requires "sections" in props && !props["sections"].JArray?
    ensures Parse(raw, deserialize) == IngestResult(raw, [OverviewSection(overview), FallbackSection(raw)], [], [])
  {
    var json := JObject(props);
    OverviewStage(props, overview, EmptyResult);
    assert ExtractFields(json) == Attempt(IngestResult(overview, [OverviewSection(overview)], [], []), true);
    CandidateFields(raw, deserialize, json);
  }

  /**
    An element of `diagrams` that throws keeps every section and relation and
    the diagrams before it, then adds the raw-text section; the overview
    becomes the raw text.
  */
  lemma BadDiagramKeepsEarlierDiagrams(raw: string, deserialize: string -> Option<Json>, props: map<string, Json>,
                                       overview: string, sections: seq<Json>, relations: seq<Json>,
                                       diagrams: seq<Json>, bad: nat)
    requires JsonCandidate(raw).Some? && deserialize(JsonCandidate(raw).value) == Some(JObject(props))
    requires "overview" in props && props["overview"] == JString(overview)
    requires "sections" in props && props["sections"] == JArray(sections)
    requires "relations" in props && props["relations"] == JArray(relations)
    requires "diagrams" in props && props["diagrams"] == JArray(diagrams)
    requires forall k :: 0 <= k < |sections| ==> ParseSection(sections[k]).Some?
    requires forall k :: 0 <= k < |relations| ==> ParseRelation(relations[k]).Some?
    requires bad < |diagrams| && ParseDiagram(diagrams[bad]).None?
    requires forall k :: 0 <= k < bad ==> ParseDiagram(diagrams[k]).Some?
    ensures Parse(raw, deserialize).overview == raw
    ensures Parse(raw, deserialize).sections ==
      [OverviewSection(overview)] + ParseEach(sections, ParseSection).0 + [FallbackSection(raw)]
    ensures |ParseEach(sections, ParseSection).0| == |sections|
    ensures |Parse(raw, deserialize).relations| == |relations|
    ensures forall k :: 0 <= k < |relations| ==> ParseRelation(relations[k]) == Some(Parse(raw, deserialize).relations[k])
    ensures |Parse(raw, deserialize).diagrams| == bad
    ensures forall k :: 0 <= k < bad ==> ParseDiagram(diagrams[k]) == Some(Parse(raw, deserialize).diagrams[k])
  {
    assert !ParseEach(sections, ParseSection).1;
    assert !ParseEach(relations, ParseRelation).1;
    assert ParseEach(diagrams, ParseDiagram).1;
    FieldsStopAtDiagrams(props, overview, sections, relations, diagrams);
    CandidateFields(raw, deserialize, JObject(props));
  }

  /**
    An object with no overview and no sections raises nothing, so the overview
    stays empty and only the final guard adds the raw-text section.
  */
  lemma NoOverviewNoSections(raw: string, deserialize: string -> Option<Json>, props: map<string, Json>)
    requires JsonCandidate(raw).Some? && deserialize(JsonCandidate(raw).value) == Some(JObject(props))
    requires "overview" !in props
    requires "sections" !in props || props["sections"] == JArray([])
    requires "relations" !in props || props["relations"] == JArray([])
    requires "diagrams" !in props || props["diagrams"] == JArray([])
    ensures Parse(raw, deserialize) == IngestResult("", [FallbackSection(raw)], [], [])
  {
  }

  /** Optional section fields that are absent or null take the class defaults. */
  lemma SectionDefaults(props: map<string, Json>, title: string, content: string)
    requires "title" in props && props["title"] == JString(title)
    requires "content" in props && props["content"] == JString(content)
    requires "summary" !in props || props["summary"] == JNull
    requires "level" !in props
    requires "type" !in props || props["type"] == JNull
    requires "files" !in props
    ensures ParseSection(JObject(props)) == Some(SectionResult(title, content, DefaultSummary, DefaultLevel, DefaultSectionType, []))
  {
  }

  /** A relation without `type` is a "references" relation; without `description` it has none. */
  lemma RelationDefaults(props: map<string, Json>, from: string, to: string)
    requires "from" in props && props["from"] == JString(from)
    requires "to" in props && props["to"] == JString(to)
    requires "type" !in props || props["type"] == JNull
    requires "description" !in props || props["description"] == JNull
    ensures ParseRelation(JObject(props)) == Some(RelationResult(from, to, DefaultRelationType, None))
  {
  }

  /** A diagram without `type` is a Mermaid diagram. */
  lemma DiagramDefaults(props: map<string, Json>, title: string, content: string)
    requires "title" in props && props["title"] == JString(title)
    requires "content" in props && props["content"] == JString(content)
    requires "type" !in props || props["type"] == JNull
    ensures ParseDiagram(JObject(props)) == Some(DiagramResult(title, DefaultDiagramType, content))
  {
  }

  /** Missing required fields, a non-object element or a non-int32 level throw. */
  lemma RequiredFieldsThrow(e: Json)
    ensures !e.JObject? ==> ParseSection(e).None? && ParseRelation(e).None? && ParseDiagram(e).None?
    ensures e.JObject? && ("title" !in e.properties || "content" !in e.properties) ==>
              ParseSection(e).None? && ParseDiagram(e).None?
    ensures e.JObject? && ("from" !in e.properties || "to" !in e.properties) ==> ParseRelation(e).None?
    ensures e.JObject? && "level" in e.properties && GetInt32(e.properties["level"]).None? ==> ParseSection(e).None?
    ensures e.JObject? && "files" in e.properties && !e.properties["files"].JArray? ==> ParseSection(e).None?
  {
  }
}
