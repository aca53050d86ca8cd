/**
  The document graph the ingestion pipeline returns: `IngestResult` and its
  section, relation and diagram records. The C# classes carry default
  property values; the `Default…` constants below are those values.
*/
module IngestTypes {
  import opened Wrappers

  datatype SectionResult = SectionResult(
    title: string,
    content: string,
    summary: string,
    level: int,
    sectionType: string,
    relatedFiles: seq<string>)

  datatype RelationResult = RelationResult(
    from: string,
    to: string,
    relationType: string,
    description: Option<string>)   // C# `string?`: None is null

  datatype DiagramResult = DiagramResult(
    title: string,
    diagramType: string,
    content: string)

  datatype IngestResult = IngestResult(
    overview: string,
    sections: seq<SectionResult>,
    relations: seq<RelationResult>,
    diagrams: seq<DiagramResult>)

  const DefaultSummary := ""
  const DefaultLevel := 2
  const DefaultSectionType := "content"
  const DefaultRelationType := "references"
  const DefaultDiagramType := "mermaid"

  /** `new IngestResult()`: empty overview and no records. */
  const EmptyResult := IngestResult("", [], [], [])
}
