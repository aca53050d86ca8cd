/**
  The pure pieces of the HTTP handlers in `Program.cs`: rendering sections
  as one Markdown document, the architecture-diagram appendix, the rows
  written for each section (position and slug), reading them back ordered
  by position, the "already indexed" test, and the counts the ingest
  response reports. The database and HTTP layers are not modelled; tables
  are sequences in the order the database yields them.
*/
module DocumentApi {
  import opened Wrappers
  import opened Strings
  import opened JsonModel
  import opened IngestTypes
  import opened ResponseParser

  const SectionSeparator := "\n\n---\n\n"
  const DiagramsHeading := "\n\n---\n\n## Architecture Diagrams\n\n"
  const CompletedStatus := "completed"
  /** Passed to `string.Replace`, which reads it as plain text. */
  const SlugPattern := "[^a-z0-9-]"

  /** A `DocSection` row. */
  datatype StoredSection = StoredSection(
    title: string,
    slug: string,
    level: int,
    orderIndex: int,
    contentMarkdown: string,
    summary: string,
    sectionType: string)

  /** A `Diagram` row. */
  datatype StoredDiagram = StoredDiagram(title: string, diagramType: string, content: string)

  /** A `DocRelation` row. */
  datatype StoredRelation = StoredRelation(relationType: string, description: Option<string>)

  /** The columns of a `Repository` row that the handlers test. */
  datatype RepositoryRecord = RepositoryRecord(fullName: string, docStatus: string)

  /** The counts and document of a freshly completed ingest response. */
  datatype IngestResponse = IngestResponse(
    status: string,
    document: string,
    sectionCount: int,
    relationCount: int,
    diagramCount: int)

  // ----- rendering -----

  /** `#` for a level-1 section, `##` for every other level. */
  function HeadingPrefix(level: int): string {
    if level == 1 then "# " else "## "
  }

  function RenderSection(level: int, title: string, content: string): string {
    HeadingPrefix(level) + title + "\n\n" + content
  }

  function SectionTexts(sections: seq<SectionResult>): (r: seq<string>)
    ensures |r| == |sections|
    ensures forall i :: 0 <= i < |sections| ==>
      r[i] == RenderSection(sections[i].level, sections[i].title, sections[i].content)
  {
    seq(|sections|, i requires 0 <= i < |sections| =>
      RenderSection(sections[i].level, sections[i].title, sections[i].content))
  }

  function RowTexts(rows: seq<StoredSection>): (r: seq<string>)
    ensures |r| == |rows|
    ensures forall i :: 0 <= i < |rows| ==>
      r[i] == RenderSection(rows[i].level, rows[i].title, rows[i].contentMarkdown)
  {
    seq(|rows|, i requires 0 <= i < |rows| =>
      RenderSection(rows[i].level, rows[i].title, rows[i].contentMarkdown))
  }

  /** `string.Join("\n\n---\n\n", sections.Select(...))` over parse results. */
  function RenderDocument(sections: seq<SectionResult>): string {
    Join(SectionTexts(sections), SectionSeparator)
  }

  /** The same rendering over stored rows (the cached and data endpoints). */
  function RenderStored(rows: seq<StoredSection>): string {
    Join(RowTexts(rows), SectionSeparator)
  }

  /** A rendered section starts with "# " exactly when its level is 1, and with "## " otherwise. */
  lemma HeadingMarksLevel(level: int, title: string, content: string)
    ensures StartsWith(RenderSection(level, title, content), "# ") <==> level == 1
    ensures level != 1 ==> StartsWith(RenderSection(level, title, content), "## ")
  {
    var r := RenderSection(level, title, content);
    if level == 1 {
      assert r[..2] == "# ";
    } else {
      assert r[..3] == "## ";
      assert r[1] == '#';
    }
  }

  /** Every section appears, rendered, in the document. */
  lemma DocumentListsSections(sections: seq<SectionResult>, i: nat)
    requires i < |sections|
    ensures Contains(RenderDocument(sections),
      RenderSection(sections[i].level, sections[i].title, sections[i].content))
  {
    JoinContainsPart(SectionTexts(sections), SectionSeparator, i);
  }

  /** Lines 258-265: the overview on its own only when there are no sections. */
  function MainDocument(result: IngestResult): (r: string)
    ensures |result.sections| == 0 ==> r == result.overview
    ensures |result.sections| > 0 ==> r == RenderDocument(result.sections)
  {
    if |result.sections| > 0 then RenderDocument(result.sections) else result.overview
  }

  /** A parse result always has a section, so its overview text is never the whole document. */
  lemma ParsedDocumentIsRendered(raw: string, deserialize: string -> Option<Json>)
    ensures MainDocument(Parse(raw, deserialize)) == RenderDocument(Parse(raw, deserialize).sections)
  {
  }

  // ----- diagram appendix -----

  function RenderDiagram(d: DiagramResult): string {
    "### " + d.title + "\n\n```" + d.diagramType + "\n" + d.content + "\n```\n\n"
  }

  function RenderDiagrams(ds: seq<DiagramResult>): (r: seq<string>)
    ensures |r| == |ds| && forall i :: 0 <= i < |ds| ==> r[i] == RenderDiagram(ds[i])
  {
    seq(|ds|, i requires 0 <= i < |ds| => RenderDiagram(ds[i]))
  }

  /** The text lines 268-275 add to the document. */
  function DiagramAppendix(ds: seq<DiagramResult>): string {
    if |ds| == 0 then "" else DiagramsHeading + Concat(RenderDiagrams(ds))
  }

  /** Nothing is appended without diagrams; otherwise the heading and every diagram block are. */
  lemma DiagramAppendixContents(ds: seq<DiagramResult>)
    ensures DiagramAppendix(ds) == "" <==> |ds| == 0
    ensures |ds| > 0 ==> StartsWith(DiagramAppendix(ds), DiagramsHeading)
    ensures forall i :: 0 <= i < |ds| ==> Contains(DiagramAppendix(ds), RenderDiagram(ds[i]))
  {
    if |ds| > 0 {
      var a := DiagramAppendix(ds);
      assert a[..|DiagramsHeading|] == DiagramsHeading;
      forall i | 0 <= i < |ds|
        ensures Contains(a, RenderDiagram(ds[i]))
      {
        ConcatContainsPart(RenderDiagrams(ds), i);
        ContainsExtended(DiagramsHeading, Concat(RenderDiagrams(ds)), "", RenderDiagram(ds[i]));
        assert DiagramsHeading + Concat(RenderDiagrams(ds)) + "" == a;
      }
    }
  }

  /** The `fullDocOutput += ...` loop. */
  method AppendDiagrams(doc: string, diagrams: seq<DiagramResult>) returns (out: string)
    ensures out == doc + DiagramAppendix(diagrams)
  {
    out := doc;
    if |diagrams| > 0 {
      out := out + DiagramsHeading;
      ghost var parts := RenderDiagrams(diagrams);
      assert parts[..0] == [];
      for i := 0 to |diagrams|
        invariant out == doc + DiagramsHeading + Concat(parts[..i])
      {
        var d := diagrams[i];
        var block := "### " + d.title + "\n\n```" + d.diagramType + "\n" + d.content + "\n```\n\n";
        assert block == parts[i];
        assert parts[..i + 1] == parts[..i] + [block];
        out := out + block;
      }
      assert parts[..|diagrams|] == parts;
    }
  }

  /** The document the ingest endpoint returns. */
  function OutputDocument(result: IngestResult): string {
    MainDocument(result) + DiagramAppendix(result.diagrams)
  }

  method BuildOutputDocument(result: IngestResult) returns (doc: string)
    ensures doc == OutputDocument(result)
  {
    doc := result.overview;
    if |result.sections| > 0 {
      doc := RenderDocument(result.sections);
    }
    doc := AppendDiagrams(doc, result.diagrams);
  }

  // ----- saved sections -----

  /**
    The slug stored with a section: lower-cased, spaces replaced by `-`, then
    the literal text `[^a-z0-9-]` removed. `string.Replace` takes no pattern,
    so no other character is removed.
  */
  function LegacySlug(title: string): (r: string)
    ensures ' ' !in r
  {
    var dashed := ReplaceAll(Lower(title), " ", "-");
    ReplaceCharRemoves(Lower(title), ' ', "-");
    ReplaceAllChars(dashed, SlugPattern, "", ' ');
    ReplaceAll(dashed, SlugPattern, "")
  }

  /**
    Without capitals or `[`, the slug only turns spaces into dashes: every
    other character, punctuation included, is kept.
  */
  lemma LegacySlugOnlyDashesSpaces(title: string)
    requires forall i :: 0 <= i < |title| ==> !('A' <= title[i] <= 'Z')
    requires '[' !in title
    ensures LegacySlug(title) == seq(|title|, i requires 0 <= i < |title| => if title[i] == ' ' then '-' else title[i])
  {
    LowerNoCapitals(title);
    ReplaceCharPointwise(title, ' ', '-');
    var dashed := ReplaceAll(title, " ", "-");
    assert '[' !in dashed;
    ReplaceSkipsPrefix(dashed, "", SlugPattern, "");
    assert dashed + "" == dashed;
  }

  /** The row written for the section at position `i`. */
  function StoredRow(s: SectionResult, i: int): StoredSection {
    StoredSection(s.title, LegacySlug(s.title), s.level, i, s.content, s.summary, s.sectionType)
  }

  /** The `for (int i = 0; ...)` loop of lines 226-242. */
  method SaveSections(sections: seq<SectionResult>) returns (rows: seq<StoredSection>)
    ensures |rows| == |sections|
    ensures forall i :: 0 <= i < |rows| ==> rows[i] == StoredRow(sections[i], i)
  {
    rows := [];
    for i := 0 to |sections|
      invariant |rows| == i
      invariant forall k :: 0 <= k < i ==> rows[k] == StoredRow(sections[k], k)
    {
      var section := sections[i];
      var docSection := StoredSection(section.title, LegacySlug(section.title), section.level, i,
                                      section.content, section.summary, section.sectionType);
      rows := rows + [docSection];
    }
  }

  // ----- reading back ordered by OrderIndex -----

  predicate SortedByOrder(rows: seq<StoredSection>) {
    forall i, j :: 0 <= i < j < |rows| ==> rows[i].orderIndex <= rows[j].orderIndex
  }

  function InsertByOrder(x: StoredSection, rows: seq<StoredSection>): (r: seq<StoredSection>)
    ensures multiset(r) == multiset(rows) + multiset{x}
    ensures |r| == |rows| + 1
    ensures forall y :: y in r ==> y == x || y in rows
  {
    if |rows| == 0 then [x]
    else if x.orderIndex < rows[0].orderIndex then [x] + rows
    else
      assert rows == [rows[0]] + rows[1..];
      [rows[0]] + InsertByOrder(x, rows[1..])
  }

  lemma {:induction false} InsertKeepsSorted(x: StoredSection, rows: seq<StoredSection>)
    requires SortedByOrder(rows)
    ensures SortedByOrder(InsertByOrder(x, rows))
    decreases |rows|
  {
    if |rows| > 0 && x.orderIndex >= rows[0].orderIndex {
      var rest := InsertByOrder(x, rows[1..]);
      InsertKeepsSorted(x, rows[1..]);
      assert forall y :: y in rows[1..] ==> rows[0].orderIndex <= y.orderIndex;
      assert forall y :: y in rest ==> rows[0].orderIndex <= y.orderIndex;
      var r := [rows[0]] + rest;
      forall i, j | 0 <= i < j < |r|
        ensures r[i].orderIndex <= r[j].orderIndex
      {
        assert r[j] == rest[j - 1];
        if i > 0 {
          assert r[i] == rest[i - 1];
        }
      }
    }
  }

  /** `OrderBy(s => s.OrderIndex)`. */
  function OrderByIndex(rows: seq<StoredSection>): (r: seq<StoredSection>)
    ensures multiset(r) == multiset(rows)
    ensures SortedByOrder(r)
  {
    if |rows| == 0 then []
    else
      assert rows == rows[..|rows| - 1] + [rows[|rows| - 1]];
      InsertKeepsSorted(rows[|rows| - 1], OrderByIndex(rows[..|rows| - 1]));
      InsertByOrder(rows[|rows| - 1], OrderByIndex(rows[..|rows| - 1]))
  }

  /**
    Rows whose order indices run `base`, `base + 1`, ... are the only
    ordering of their elements sorted by index.
  */
  lemma {:induction false} SortedPermutationUnique(s: seq<StoredSection>, saved: seq<StoredSection>, base: int)
    requires forall i :: 0 <= i < |saved| ==> saved[i].orderIndex == base + i
    requires multiset(s) == multiset(saved)
    requires SortedByOrder(s)
    ensures s == saved
    decreases |saved|
  {
    assert |s| == |saved| by {
      assert |multiset(s)| == |multiset(saved)|;
    }
    if |saved| > 0 {
      SortedHeadIsFirst(s, saved, base);
      assert s == [s[0]] + s[1..];
      assert saved == [saved[0]] + saved[1..];
      assert multiset(s[1..]) == multiset(s) - multiset{s[0]};
      assert multiset(saved[1..]) == multiset(saved) - multiset{saved[0]};
      SortedPermutationUnique(s[1..], saved[1..], base + 1);
    }
  }

  /** The smallest index, `base`, must come first. */
  lemma SortedHeadIsFirst(s: seq<StoredSection>, saved: seq<StoredSection>, base: int)
    requires |saved| > 0
    requires forall i :: 0 <= i < |saved| ==> saved[i].orderIndex == base + i
    requires multiset(s) == multiset(saved)
    requires SortedByOrder(s)
    ensures |s| > 0 && s[0] == saved[0]
  {
    assert saved[0] in multiset(saved);
    assert saved[0] in s;
    var j :| 0 <= j < |s| && s[j] == saved[0];
    assert s[0] in multiset(s);
    assert s[0] in saved;
    var k :| 0 <= k < |saved| && saved[k] == s[0];
    assert s[0].orderIndex <= s[j].orderIndex;
  }

  function SavedRows(sections: seq<SectionResult>): (rows: seq<StoredSection>)
    ensures |rows| == |sections|
    ensures forall i :: 0 <= i < |rows| ==> rows[i] == StoredRow(sections[i], i)
  {
    seq(|sections|, i requires 0 <= i < |sections| => StoredRow(sections[i], i))
  }

  /**
    Whatever order the database yields the saved rows in, ordering them by
    `OrderIndex` restores the order of the parse result.
  */
  lemma ReadBackRestoresOrder(sections: seq<SectionResult>, fetched: seq<StoredSection>)
    requires multiset(fetched) == multiset(SavedRows(sections))
    ensures OrderByIndex(fetched) == SavedRows(sections)
  {
    SortedPermutationUnique(OrderByIndex(fetched), SavedRows(sections), 0);
  }

  /**
    The cached document equals the document first returned, minus the
    diagram appendix, which the cached path does not rebuild.
  */
  lemma CachedDocumentMatchesFresh(result: IngestResult, fetched: seq<StoredSection>)
    requires |result.sections| > 0
    requires multiset(fetched) == multiset(SavedRows(result.sections))
    ensures RenderStored(OrderByIndex(fetched)) == MainDocument(result)
    ensures OutputDocument(result) == RenderStored(OrderByIndex(fetched)) + DiagramAppendix(result.diagrams)
  {
    ReadBackRestoresOrder(result.sections, fetched);
    assert RowTexts(SavedRows(result.sections)) == SectionTexts(result.sections);
  }

  // ----- the indexed test -----

  /** The position of the first record named `fullName`, in the order the database yields them. */
  function FirstNamed(repos: seq<RepositoryRecord>, fullName: string): (r: Option<nat>)
    ensures r.None? <==> forall i :: 0 <= i < |repos| ==> repos[i].fullName != fullName
    ensures r.Some? ==> (r.value < |repos| && repos[r.value].fullName == fullName &&
      forall k :: 0 <= k < r.value ==> repos[k].fullName != fullName)
  {
    if |repos| == 0 then None
    else if repos[0].fullName == fullName then Some(0)
    else
      match FirstNamed(repos[1..], fullName)
      case None => None
      case Some(i) => Some(i + 1)
  }

  /** `FirstOrDefaultAsync(r => r.FullName == fullName)`. */
  function FindByFullName(repos: seq<RepositoryRecord>, fullName: string): (r: Option<RepositoryRecord>)
    ensures r.None? <==> forall i :: 0 <= i < |repos| ==> repos[i].fullName != fullName
    ensures r.Some? ==> r.value.fullName == fullName && r.value in repos
  {
    match FirstNamed(repos, fullName)
    case None => None
    case Some(i) => Some(repos[i])
  }

  /** Lines 46-52 and 145-149: cached exactly when the record found is completed. */
  predicate IsIndexed(repos: seq<RepositoryRecord>, owner: string, repo: string) {
    var existing := FindByFullName(repos, owner + "/" + repo);
    existing.Some? && existing.value.docStatus == CompletedStatus
  }

  /** With at most one record per full name, indexed means a completed record of that name exists. */
  lemma IndexedIffCompletedRecord(repos: seq<RepositoryRecord>, owner: string, repo: string)
    requires forall i, j :: 0 <= i < j < |repos| ==> repos[i].fullName != repos[j].fullName
    ensures IsIndexed(repos, owner, repo) <==>
      exists i :: 0 <= i < |repos| && repos[i].fullName == owner + "/" + repo && repos[i].docStatus == CompletedStatus
  {
    var name := owner + "/" + repo;
    if exists i :: 0 <= i < |repos| && repos[i].fullName == name && repos[i].docStatus == CompletedStatus {
      var i :| 0 <= i < |repos| && repos[i].fullName == name && repos[i].docStatus == CompletedStatus;
      var j := FirstNamed(repos, name).value;
      assert i == j;
    }
  }

  // ----- completing an ingest -----

  /**
    Lines 201-286 once the parse result is in hand: the section and diagram
    rows written, the relation rows written (none), and the response.
  */
  method CompleteIngest(result: IngestResult)
    returns (sectionRows: seq<StoredSection>, diagramRows: seq<StoredDiagram>,
             relationRows: seq<StoredRelation>, response: IngestResponse)
    ensures sectionRows == SavedRows(result.sections)
    ensures |diagramRows| == |result.diagrams|
    ensures forall i :: 0 <= i < |diagramRows| ==>
      diagramRows[i] == StoredDiagram(result.diagrams[i].title, result.diagrams[i].diagramType, result.diagrams[i].content)
    ensures relationRows == []
    ensures response == IngestResponse(CompletedStatus, OutputDocument(result),
      |result.sections|, |result.relations|, |result.diagrams|)
  {
    sectionRows := SaveSections(result.sections);
    diagramRows := [];
    for i := 0 to |result.diagrams|
      invariant |diagramRows| == i
      invariant forall k :: 0 <= k < i ==>
        diagramRows[k] == StoredDiagram(result.diagrams[k].title, result.diagrams[k].diagramType, result.diagrams[k].content)
    {
      var diagram := result.diagrams[i];
      diagramRows := diagramRows + [StoredDiagram(diagram.title, diagram.diagramType, diagram.content)];
    }
    relationRows := [];
    var document := BuildOutputDocument(result);
    response := IngestResponse(CompletedStatus, document,
      |result.sections|, |result.relations|, |result.diagrams|);
  }
}
