/**
  What the front end does with a fresh ingest response (`App.tsx` lines
  238-250): it stores `data.relations || []` as its relation list and draws
  the mind map from that list with `generateMindmap`. The response is the
  one `CompleteIngest` builds (`Program.cs` lines 276-285), which carries
  the number of relations where the front end expects the relations.
*/
module IngestView {
  import opened Wrappers
  import Strings
  import T = IngestTypes
  import D = DocumentApi
  import M = Mindmap

  /** A JSON field that should hold the relation list: a number or an array. */
  datatype RelationsField = Number(n: int) | Array(items: seq<M.Relation>)

  /** `data.relations` of a fresh ingest response as written: the count. */
  function ResponseRelations(response: D.IngestResponse): RelationsField {
    Number(response.relationCount)
  }

  /** `data.relations || []`: the number zero is falsy and becomes the empty array. */
  function OrEmpty(v: RelationsField): (r: RelationsField)
    ensures r.Array? <==> v.Array? || v == Number(0)
    ensures v.Array? ==> r == v
  {
    if v == Number(0) then Array([]) else v
  }

  /**
    `generateMindmap()` over what the state holds, `None` where it throws:
    a number's `length` is `undefined`, so the emptiness test fails and
    `relations.forEach` is not a function.
  */
  function MindmapShown(v: RelationsField): (r: Option<string>)
    ensures r.Some? <==> v.Array?
    ensures v.Array? ==> r.value == M.MindmapOf(v.items)
  {
    match v
    case Array(rs) => Some(M.MindmapOf(rs))
    case Number(_) => None
  }

  /** The response `CompleteIngest` returns for `result`. */
  function FreshResponse(result: T.IngestResult): D.IngestResponse {
    D.IngestResponse(D.CompletedStatus, D.OutputDocument(result),
      |result.sections|, |result.relations|, |result.diagrams|)
  }

  /**
    As written: after a fresh ingest that found any relation, rendering the
    mind map throws, because the state holds a count instead of a list.
  */
  lemma FreshIngestBreaksMindmap(result: T.IngestResult)
    requires |result.relations| > 0
    ensures ResponseRelations(FreshResponse(result)) == Number(|result.relations|)
    ensures MindmapShown(OrEmpty(ResponseRelations(FreshResponse(result)))).None?
  {
  }

  /** The relation as the front end's `Relation` type declares it. */
  function ToFrontEnd(r: T.RelationResult): M.Relation {
    M.Relation(r.from, r.to, r.relationType, r.description)
  }

  /** Corrected: the response carries the relation list itself. */
  function RelationsSent(result: T.IngestResult): (r: RelationsField)
    ensures r.Array? && |r.items| == |result.relations|
    ensures forall i :: 0 <= i < |result.relations| ==> r.items[i] == ToFrontEnd(result.relations[i])
  {
    Array(seq(|result.relations|, i requires 0 <= i < |result.relations| => ToFrontEnd(result.relations[i])))
  }

  /**
    With the list in the response, the mind map renders and draws an edge
    for every relation the parse found.
  */
  lemma SentRelationsAreDrawn(result: T.IngestResult, i: nat)
    requires i < |result.relations|
    ensures MindmapShown(OrEmpty(RelationsSent(result))).Some?
    ensures Strings.Contains(MindmapShown(OrEmpty(RelationsSent(result))).value,
      M.EdgeLine(ToFrontEnd(result.relations[i])) + "\n")
  {
    var rs := RelationsSent(result).items;
    M.MindmapListsRelations(rs, i);
  }
}
