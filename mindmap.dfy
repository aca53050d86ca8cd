/**
  The front end's `generateMindmap`: a Mermaid flowchart with one edge per
  document relation, nodes named by the slugs of the document titles.
*/
module Mindmap {
  import opened Wrappers
  import opened Strings
  import opened AppText

  /** A relation as the front end receives it; `description` is optional and unused here. */
  datatype Relation = Relation(from: string, to: string, relationType: string, description: Option<string>)

  /** The edge line for one relation: two slug-named nodes labelled with the names, the type on the arrow. */
  function EdgeLine(r: Relation): string {
    "  " + Slugify(r.from) + "[" + r.from + "] -->|" + r.relationType + "| " + Slugify(r.to) + "[" + r.to + "]"
  }

  function EdgeLines(rs: seq<Relation>): (ls: seq<string>)
    ensures |ls| == |rs| && forall i :: 0 <= i < |rs| ==> ls[i] == EdgeLine(rs[i])
  {
    seq(|rs|, i requires 0 <= i < |rs| => EdgeLine(rs[i]))
  }

  /** Each line followed by the separator. */
  function Terminated(ls: seq<string>, sep: string): (ts: seq<string>)
    ensures |ts| == |ls| && forall i :: 0 <= i < |ls| ==> ts[i] == ls[i] + sep
  {
    seq(|ls|, i requires 0 <= i < |ls| => ls[i] + sep)
  }

  const MindmapHeader := "graph TD"

  /** What `generateMindmap()` returns for the current relations. */
  function MindmapOf(rs: seq<Relation>): string {
    if |rs| == 0 then "" else MindmapHeader + "\n" + Concat(Terminated(EdgeLines(rs), "\n"))
  }

  method GenerateMindmap(relations: seq<Relation>) returns (graph: string)
    ensures graph == MindmapOf(relations)
  {
    if |relations| == 0 {
      return "";
    }
    graph := "graph TD\n";
    ghost var parts := Terminated(EdgeLines(relations), "\n");
    assert parts[..0] == [];
    for i := 0 to |relations|
      invariant graph == MindmapHeader + "\n" + Concat(parts[..i])
    {
      var line := EdgeLine(relations[i]) + "\n";
      assert parts[..i + 1][..i] == parts[..i];
      AppendAssoc(MindmapHeader + "\n", Concat(parts[..i]), line);
      graph := graph + line;
    }
    assert parts[..|relations|] == parts;
  }

  /**
    Regrouping an appended line. Stated on its own so that the solver proves
    it away from the loop, where the same step inline does not close.
  */
  lemma AppendAssoc<T>(a: seq<T>, b: seq<T>, c: seq<T>)
    ensures a + b + c == a + (b + c)
  {
  }

  /** Lines joined and closed by a final separator are the lines each followed by the separator. */
  lemma {:induction false} JoinTerminated(head: string, ls: seq<string>, sep: string)
    ensures Join([head] + ls, sep) + sep == head + sep + Concat(Terminated(ls, sep))
    decreases |ls|
  {
    if |ls| > 0 {
      var init, last := ls[..|ls| - 1], ls[|ls| - 1];
      JoinTerminated(head, init, sep);
      assert [head] + ls == ([head] + init) + [last];
      JoinSnoc([head] + init, last, sep);
      var ts := Terminated(ls, sep);
      assert ts[..|ts| - 1] == Terminated(init, sep);
    }
  }

  /** The mindmap is empty exactly when there are no relations. */
  lemma MindmapEmpty(rs: seq<Relation>)
    ensures MindmapOf(rs) == "" <==> |rs| == 0
  {
    if |rs| > 0 {
      assert MindmapOf(rs)[0] == 'g';
    }
  }

  /**
    When names and types hold no line break, the mindmap's lines are the
    header, one edge line per relation in order, and the empty piece after
    the final newline.
  */
  lemma MindmapLines(rs: seq<Relation>)
    requires |rs| > 0
    requires forall i :: 0 <= i < |rs| ==> '\n' !in rs[i].from && '\n' !in rs[i].to && '\n' !in rs[i].relationType
    ensures Split(MindmapOf(rs), '\n') == [MindmapHeader] + EdgeLines(rs) + [""]
  {
    MindmapJoined(rs);
    EdgeLinesOneLine(rs);
    Framed(MindmapHeader, EdgeLines(rs), "", '\n');
    SplitJoin([MindmapHeader] + EdgeLines(rs) + [""], '\n');
  }

  lemma Framed(head: string, ls: seq<string>, tail: string, c: char)
    requires c !in head && c !in tail && forall i :: 0 <= i < |ls| ==> c !in ls[i]
    ensures var pieces := [head] + ls + [tail];
            forall k :: 0 <= k < |pieces| ==> c !in pieces[k]
  {
    var pieces := [head] + ls + [tail];
    forall k | 0 <= k < |pieces|
      ensures c !in pieces[k]
    {
      if 1 <= k <= |ls| {
        assert pieces[k] == ls[k - 1];
      }
    }
  }

  lemma MindmapJoined(rs: seq<Relation>)
    requires |rs| > 0
    ensures MindmapOf(rs) == Join([MindmapHeader] + EdgeLines(rs) + [""], "\n")
  {
    var ls := EdgeLines(rs);
    JoinTerminated(MindmapHeader, ls, "\n");
    JoinSnoc([MindmapHeader] + ls, "", "\n");
  }

  lemma EdgeLinesOneLine(rs: seq<Relation>)
    requires forall i :: 0 <= i < |rs| ==> '\n' !in rs[i].from && '\n' !in rs[i].to && '\n' !in rs[i].relationType
    ensures forall i :: 0 <= i < |rs| ==> '\n' !in EdgeLines(rs)[i]
  {
    forall i | 0 <= i < |rs|
      ensures '\n' !in EdgeLine(rs[i])
    {
      EdgeLineOneLine(rs[i]);
    }
  }

  /** A relation whose fields have no newline draws an edge without one. */
  lemma EdgeLineOneLine(r: Relation)
    requires '\n' !in r.from && '\n' !in r.to && '\n' !in r.relationType
    ensures '\n' !in EdgeLine(r)
  {
    SlugifyNoNewline(r.from);
    SlugifyNoNewline(r.to);
  }

  lemma SlugifyNoNewline(text: string)
    ensures '\n' !in Slugify(text)
  {
    var r := Slugify(text);
    assert forall i :: 0 <= i < |r| ==> r[i] != '\n';
  }

  /** Every relation's edge line appears in the mindmap. */
  lemma MindmapListsRelations(rs: seq<Relation>, i: nat)
    requires i < |rs|
    ensures Contains(MindmapOf(rs), EdgeLine(rs[i]) + "\n")
  {
    var parts := Terminated(EdgeLines(rs), "\n");
    ConcatContainsPart(parts, i);
    ContainsExtended(MindmapHeader + "\n", Concat(parts), "", parts[i]);
    assert MindmapHeader + "\n" + Concat(parts) + "" == MindmapOf(rs);
  }
}
