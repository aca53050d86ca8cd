/**
  The text helpers of the single-page front end (`App.tsx`): `slugify`, the
  Markdown heading splitter `parseSections` and the Mermaid builder
  `generateMindmap`. JavaScript's `toLowerCase` is modelled on ASCII letters.
*/
module AppText {
  import opened Wrappers
  import opened Strings

  // ----- slugify -----

  /** A character the class `[a-z0-9]` accepts. */
  predicate SlugChar(c: char) {
    'a' <= c <= 'z' || '0' <= c <= '9'
  }

  /** Only `[a-z0-9]` and `-`. */
  predicate SlugAlphabet(s: string) {
    forall i :: 0 <= i < |s| ==> SlugChar(s[i]) || s[i] == '-'
  }

  /** No `-` directly after another `-`. */
  predicate NoDoubleDash(s: string) {
    forall i :: 0 <= i < |s| - 1 ==> !(s[i] == '-' && s[i + 1] == '-')
  }

  /**
    `replace(/[^a-z0-9]+/g, '-')`: every maximal run of characters outside
    `[a-z0-9]` becomes one `-`. `inRun` says the previous character already
    opened such a run.
  */
  function CollapseRuns(s: string, inRun: bool): string
    decreases |s|
  {
    if |s| == 0 then ""
    else if SlugChar(s[0]) then [s[0]] + CollapseRuns(s[1..], false)
    else if inRun then CollapseRuns(s[1..], true)
    else "-" + CollapseRuns(s[1..], true)
  }

  /**
    `replace(/(^-|-$)/g, '')`: one leading `-`, then one trailing `-` that is
    not the character already removed.
  */
  function TrimDashes(s: string): (r: string)
    ensures |r| <= |s|
  {
    var rest := if |s| > 0 && s[0] == '-' then s[1..] else s;
    if |rest| > 0 && rest[|rest| - 1] == '-' then rest[..|rest| - 1] else rest
  }

  /** The characters a collapse produces, and the absence of `--` in it. */
  lemma {:induction false} CollapseShape(s: string, inRun: bool)
    ensures SlugAlphabet(CollapseRuns(s, inRun))
    ensures NoDoubleDash(CollapseRuns(s, inRun))
    ensures inRun && |CollapseRuns(s, inRun)| > 0 ==> CollapseRuns(s, inRun)[0] != '-'
    decreases |s|
  {
    if |s| > 0 {
      CollapseShape(s[1..], !SlugChar(s[0]));
    }
  }

  /** Trimming keeps the alphabet and the absence of `--`, and removes the edge dashes. */
  lemma TrimShape(s: string)
    requires SlugAlphabet(s) && NoDoubleDash(s)
    ensures SlugAlphabet(TrimDashes(s)) && NoDoubleDash(TrimDashes(s))
    ensures |TrimDashes(s)| > 0 ==> TrimDashes(s)[0] != '-' && TrimDashes(s)[|TrimDashes(s)| - 1] != '-'
  {
    var rest := if |s| > 0 && s[0] == '-' then s[1..] else s;
    assert SlugAlphabet(rest) && NoDoubleDash(rest);
    assert |rest| > 1 && s[0] == '-' ==> s[1] != '-';
  }

  /**
    `slugify(text)`: lower-case, collapse, trim. The slug uses only
    `[a-z0-9-]`, never starts or ends with `-` and never holds `--`.
  */
  function Slugify(text: string): (r: string)
    ensures SlugAlphabet(r)
    ensures NoDoubleDash(r)
    ensures |r| > 0 ==> r[0] != '-' && r[|r| - 1] != '-'
  {
    var collapsed := CollapseRuns(Lower(text), false);
    CollapseShape(Lower(text), false);
    TrimShape(collapsed);
    TrimDashes(collapsed)
  }

  /** A string without `--` at any index does not contain the text `--`. */
  lemma NoDoubleDashText(s: string)
    requires NoDoubleDash(s)
    ensures !Contains(s, "--")
  {
    forall i | 0 <= i <= |s| - 2
      ensures !OccursAt(s, "--", i)
    {
      assert s[i..i + 2][0] == s[i] && s[i..i + 2][1] == s[i + 1];
    }
  }

  /** The slug never contains the text `--`. */
  lemma SlugifyNoDoubleDash(text: string)
    ensures !Contains(Slugify(text), "--")
  {
    NoDoubleDashText(Slugify(text));
  }

  /** A collapse leaves clean text alone. */
  lemma {:induction false} CollapseClean(s: string, inRun: bool)
    requires SlugAlphabet(s) && NoDoubleDash(s)
    requires inRun && |s| > 0 ==> s[0] != '-'
    ensures CollapseRuns(s, inRun) == s
    decreases |s|
  {
    if |s| > 0 {
      assert SlugAlphabet(s[1..]) && NoDoubleDash(s[1..]);
      CollapseClean(s[1..], !SlugChar(s[0]));
      assert s == [s[0]] + s[1..];
    }
  }

  /** Slugifying a slug changes nothing. */
  lemma SlugifyIdempotent(text: string)
    ensures Slugify(Slugify(text)) == Slugify(text)
  {
    var s := Slugify(text);
    LowerNoCapitals(s);
    CollapseClean(s, false);
  }
  /** The letters and digits of a text, in order. */
  function Alphanumerics(s: string): (r: string)
    ensures |r| <= |s|
    decreases |s|
  {
    if |s| == 0 then ""
    else if SlugChar(s[0]) then [s[0]] + Alphanumerics(s[1..])
    else Alphanumerics(s[1..])
  }

  lemma {:induction false} AlphanumericsAppend(a: string, b: string)
    ensures Alphanumerics(a + b) == Alphanumerics(a) + Alphanumerics(b)
    decreases |a|
  {
    if |a| > 0 {
      assert (a + b)[1..] == a[1..] + b;
      AlphanumericsAppend(a[1..], b);
    } else {
      assert a + b == b;
    }
  }

  lemma {:induction false} CollapseKeepsAlphanumerics(s: string, inRun: bool)
    ensures Alphanumerics(CollapseRuns(s, inRun)) == Alphanumerics(s)
    decreases |s|
  {
    if |s| > 0 {
      CollapseKeepsAlphanumerics(s[1..], !SlugChar(s[0]));
      if SlugChar(s[0]) {
        AlphanumericsAppend([s[0]], CollapseRuns(s[1..], false));
      } else if !inRun {
        AlphanumericsAppend("-", CollapseRuns(s[1..], true));
      }
    }
  }

  lemma TrimKeepsAlphanumerics(s: string)
    ensures Alphanumerics(TrimDashes(s)) == Alphanumerics(s)
  {
    var rest := if |s| > 0 && s[0] == '-' then s[1..] else s;
    if |s| > 0 && s[0] == '-' {
      AlphanumericsAppend("-", rest);
      assert s == "-" + rest;
    }
    if |rest| > 0 && rest[|rest| - 1] == '-' {
      AlphanumericsAppend(rest[..|rest| - 1], "-");
      assert rest == rest[..|rest| - 1] + "-";
    }
  }

  /**
    Only separators are lost: the slug's letters and digits are exactly those
    of the lower-cased title, in order.
  */
  lemma SlugifyKeepsAlphanumerics(text: string)
    ensures Alphanumerics(Slugify(text)) == Alphanumerics(Lower(text))
  {
    var collapsed := CollapseRuns(Lower(text), false);
    assert Slugify(text) == TrimDashes(collapsed);
    CollapseKeepsAlphanumerics(Lower(text), false);
    TrimKeepsAlphanumerics(collapsed);
  }
  // ----- parseSections -----

  /** The front end's `DocSection`. */
  datatype DocSection = DocSection(id: string, title: string, level: int, content: string,
                                   slug: string, summary: string, sectionType: string)

  const SectionIdPrefix := "section-"

  /** The characters a regular-expression `.` does not match. */
  predicate LineTerminator(c: char) {
    c == '\n' || c == '\r' || c == '\U{2028}' || c == '\U{2029}'
  }

  /** What `(.+)$` accepts: at least one character and no line terminator. */
  predicate HeadingText(s: string) {
    |s| > 0 && forall i :: 0 <= i < |s| ==> !LineTerminator(s[i])
  }

  /** `/^# (.+)$/` gives level 1, `/^## (.+)$/` level 2; the group is the title. */
  function HeadingOf(line: string): (r: Option<(int, string)>)
    ensures r.Some? ==> (r.value.0 == 1 || r.value.0 == 2) && HeadingText(r.value.1)
  {
    if StartsWith(line, "# ") && HeadingText(line[2..]) then Some((1, line[2..]))
    else if StartsWith(line, "## ") && HeadingText(line[3..]) then Some((2, line[3..]))
    else None
  }

  /**
    The indices of the heading lines among the first `n` lines: increasing,
    every one a heading, and every heading among them listed.
  */
  function HeadingsBefore(lines: seq<string>, n: nat): (hs: seq<nat>)
    requires n <= |lines|
    ensures forall k :: 0 <= k < |hs| ==> hs[k] < n && HeadingOf(lines[hs[k]]).Some?
    ensures forall k :: 0 <= k < |hs| - 1 ==> hs[k] < hs[k + 1]
  {
    if n == 0 then []
    else HeadingsBefore(lines, n - 1) + (if HeadingOf(lines[n - 1]).Some? then [n - 1] else [])
  }

  /** No heading line is missed. */
  lemma {:induction false} HeadingsComplete(lines: seq<string>, n: nat, i: nat)
    requires i < n <= |lines| && HeadingOf(lines[i]).Some?
    ensures i in HeadingsBefore(lines, n)
  {
    if i < n - 1 {
      HeadingsComplete(lines, n - 1, i);
    }
  }

  /** The section object created at heading line `h`, before its content is set. */
  function Opened(lines: seq<string>, h: nat): (d: DocSection)
    requires h < |lines| && HeadingOf(lines[h]).Some?
  {
    var heading := HeadingOf(lines[h]).value;
    DocSection(SectionIdPrefix + DecimalString(h), heading.1, heading.0, "", Slugify(heading.1), "", "content")
  }

  /** The section opened at line `h` and closed before line `end`. */
  function SectionBetween(lines: seq<string>, h: nat, end: nat): (d: DocSection)
    requires h < end <= |lines| && HeadingOf(lines[h]).Some?
  {
    Opened(lines, h).(content := Join(lines[h + 1..end], "\n"))
  }

  /** One section per heading line, each running to the next heading or the end. */
  function SectionsOf(lines: seq<string>): (r: seq<DocSection>)
  {
    var hs := HeadingsBefore(lines, |lines|);
    seq(|hs|, k requires 0 <= k < |hs| => SectionAtHeading(lines, hs, k))
  }

  function SectionAtHeading(lines: seq<string>, hs: seq<nat>, k: nat): DocSection
    requires hs == HeadingsBefore(lines, |lines|) && k < |hs|
  {
    SectionBetween(lines, hs[k], if k + 1 < |hs| then hs[k + 1] else |lines|)
  }

  /** What `parseSections(markdown)` returns. */
  function ParseSections(markdown: string): seq<DocSection> {
    SectionsOf(Split(markdown, '\n'))
  }

  lemma SliceExtend<T>(s: seq<T>, from: nat, to: nat)
    requires from <= to < |s|
    ensures s[from..to + 1] == s[from..to] + [s[to]]
  {
  }

  /** The state of the scan after the first `idx` lines. */
  ghost predicate Scanned(lines: seq<string>, idx: nat, sections: seq<DocSection>,
                          current: Option<DocSection>, sectionContent: seq<string>)
    requires idx <= |lines|
  {
    var hs := HeadingsBefore(lines, idx);
    && (|hs| == 0 ==> current.None?)
    && (|hs| > 0 ==> current == Some(Opened(lines, hs[|hs| - 1])) && sectionContent == lines[hs[|hs| - 1] + 1..idx])
    && |sections| == (if |hs| == 0 then 0 else |hs| - 1)
    && forall k :: 0 <= k < |sections| ==> sections[k] == SectionBetween(lines, hs[k], hs[k + 1])
  }

  /** Closing the section of the last heading before `idx` extends the closed sections by one. */
  lemma CloseSection(lines: seq<string>, idx: nat, hs: seq<nat>, sections: seq<DocSection>)
    requires idx < |lines| && HeadingOf(lines[idx]).Some?
    requires hs == HeadingsBefore(lines, idx) && |hs| > 0 && |sections| == |hs| - 1
    requires forall k :: 0 <= k < |sections| ==> sections[k] == SectionBetween(lines, hs[k], hs[k + 1])
    ensures var next := hs + [idx];
            var after := sections + [SectionBetween(lines, hs[|hs| - 1], idx)];
            forall k :: 0 <= k < |after| ==> after[k] == SectionBetween(lines, next[k], next[k + 1])
  {
    var next := hs + [idx];
    var after := sections + [SectionBetween(lines, hs[|hs| - 1], idx)];
    forall k | 0 <= k < |after|
      ensures after[k] == SectionBetween(lines, next[k], next[k + 1])
    {
      if k < |sections| {
        assert next[k] == hs[k] && next[k + 1] == hs[k + 1];
      } else {
        assert next[k] == hs[|hs| - 1] && next[k + 1] == idx;
      }
    }
  }

  lemma ClosedIsBetween(lines: seq<string>, h: nat, idx: nat, open: DocSection, pending: seq<string>)
    requires h < idx <= |lines| && HeadingOf(lines[h]).Some?
    requires open == Opened(lines, h) && pending == lines[h + 1..idx]
    ensures open.(content := Join(pending, "\n")) == SectionBetween(lines, h, idx)
  {
  }

  /** The scan state right after the heading at `idx`, given the sections closed so far. */
  lemma OpenedAt(lines: seq<string>, idx: nat, closed: seq<DocSection>)
    requires idx < |lines| && HeadingOf(lines[idx]).Some?
    requires var next := HeadingsBefore(lines, idx) + [idx];
             && |closed| == |next| - 1
             && forall k :: 0 <= k < |closed| ==> closed[k] == SectionBetween(lines, next[k], next[k + 1])
    ensures Scanned(lines, idx + 1, closed, Some(Opened(lines, idx)), [])
  {
    assert HeadingsBefore(lines, idx + 1) == HeadingsBefore(lines, idx) + [idx];
    assert lines[idx + 1..idx + 1] == [];
  }

  /** A heading line closes the open section, if any, and opens its own. */
  lemma ScanHeading(lines: seq<string>, idx: nat, sections: seq<DocSection>,
                    current: Option<DocSection>, sectionContent: seq<string>)
    requires idx < |lines| && HeadingOf(lines[idx]).Some?
    requires Scanned(lines, idx, sections, current, sectionContent)
    ensures Scanned(lines, idx + 1,
                    if current.Some? then sections + [current.value.(content := Join(sectionContent, "\n"))] else sections,
                    Some(Opened(lines, idx)), [])
  {
    var hs := HeadingsBefore(lines, idx);
    if current.Some? {
      ClosedIsBetween(lines, hs[|hs| - 1], idx, current.value, sectionContent);
      CloseSection(lines, idx, hs, sections);
      OpenedAt(lines, idx, sections + [current.value.(content := Join(sectionContent, "\n"))]);
    } else {
      OpenedAt(lines, idx, sections);
    }
  }

  /** Any other line joins the open section's pending lines, or is dropped before the first heading. */
  lemma ScanOther(lines: seq<string>, idx: nat, sections: seq<DocSection>,
                  current: Option<DocSection>, sectionContent: seq<string>)
    requires idx < |lines| && HeadingOf(lines[idx]).None?
    requires Scanned(lines, idx, sections, current, sectionContent)
    ensures Scanned(lines, idx + 1, sections, current,
                    if current.Some? then sectionContent + [lines[idx]] else sectionContent)
  {
    var hs := HeadingsBefore(lines, idx);
    assert HeadingsBefore(lines, idx + 1) == hs;
    if current.Some? {
      SliceExtend(lines, hs[|hs| - 1] + 1, idx);
    }
  }

  /** After the last line, closing the open section gives every section. */
  lemma ScanEnd(lines: seq<string>, sections: seq<DocSection>,
                current: Option<DocSection>, sectionContent: seq<string>)
    requires Scanned(lines, |lines|, sections, current, sectionContent)
    ensures SectionsOf(lines) ==
      if current.Some? then sections + [current.value.(content := Join(sectionContent, "\n"))] else sections
  {
    var hs := HeadingsBefore(lines, |lines|);
    if current.Some? {
      assert current.value.(content := Join(sectionContent, "\n")) == SectionBetween(lines, hs[|hs| - 1], |lines|);
    }
  }

  /** One turn of the `parseSections` loop: the line at `idx` either opens a section or joins the open one. */
  method ScanLine(lines: seq<string>, idx: nat, sections: seq<DocSection>,
                  current: Option<DocSection>, sectionContent: seq<string>)
    returns (sections': seq<DocSection>, current': Option<DocSection>, sectionContent': seq<string>)
    requires idx < |lines| && Scanned(lines, idx, sections, current, sectionContent)
    ensures Scanned(lines, idx + 1, sections', current', sectionContent')
  {
    sections', current', sectionContent' := sections, current, sectionContent;
    var line := lines[idx];
    var heading := HeadingOf(line);
    if heading.Some? {
      ScanHeading(lines, idx, sections, current, sectionContent);
      if current.Some? {
        sections' := sections + [current.value.(content := Join(sectionContent, "\n"))];
      }
      var title := heading.value.1;
      current' := Some(DocSection(SectionIdPrefix + DecimalString(idx), title, heading.value.0, "", Slugify(title), "", "content"));
      sectionContent' := [];
    } else {
      ScanOther(lines, idx, sections, current, sectionContent);
      if current.Some? {
        sectionContent' := sectionContent + [line];
      }
    }
  }

  /** `parseSections`: one pass over the lines with the open section and its pending lines. */
  method ParseSectionsLoop(markdown: string) returns (sections: seq<DocSection>)
    ensures sections == ParseSections(markdown)
  {
    sections := [];
    var lines := Split(markdown, '\n');
    var current: Option<DocSection> := None;
    var sectionContent: seq<string> := [];
    for idx := 0 to |lines|
      invariant Scanned(lines, idx, sections, current, sectionContent)
    {
      sections, current, sectionContent := ScanLine(lines, idx, sections, current, sectionContent);
    }
    ScanEnd(lines, sections, current, sectionContent);
    if current.Some? {
      sections := sections + [current.value.(content := Join(sectionContent, "\n"))];
    }
  }

  // ----- properties of parseSections -----

  /** Heading indices increase along the whole list, not only between neighbours. */
  lemma {:induction false} HeadingsIncreasing(lines: seq<string>, n: nat, k: nat, l: nat)
    requires n <= |lines| && k < l < |HeadingsBefore(lines, n)|
    ensures HeadingsBefore(lines, n)[k] < HeadingsBefore(lines, n)[l]
    decreases l - k
  {
    if k + 1 < l {
      HeadingsIncreasing(lines, n, k + 1, l);
    }
  }

  /** The listed indices are exactly the heading lines. */
  lemma HeadingsExact(lines: seq<string>, i: nat)
    requires i < |lines|
    ensures i in HeadingsBefore(lines, |lines|) <==> HeadingOf(lines[i]).Some?
  {
    if HeadingOf(lines[i]).Some? {
      HeadingsComplete(lines, |lines|, i);
    }
  }

  /** A heading line sits at some position of the list; positions order as lines do. */
  lemma HeadingPosition(lines: seq<string>, hs: seq<nat>, i: nat) returns (j: nat)
    requires hs == HeadingsBefore(lines, |lines|)
    requires i < |lines| && HeadingOf(lines[i]).Some?
    ensures j < |hs| && hs[j] == i
    ensures forall k :: 0 <= k < j ==> hs[k] < i
    ensures forall k :: j < k < |hs| ==> i < hs[k]
  {
    HeadingsComplete(lines, |lines|, i);
    j :| 0 <= j < |hs| && hs[j] == i;
    forall k | 0 <= k < |hs| && k != j
      ensures k < j ==> hs[k] < i
      ensures j < k ==> i < hs[k]
    {
      if k < j { HeadingsIncreasing(lines, |lines|, k, j); }
      else { HeadingsIncreasing(lines, |lines|, j, k); }
    }
  }

  /**
    Section `k` comes from the `k`-th heading line: its level and title are
    the heading's, its id names the line, its slug is the title's slug, and
    its summary and type are fixed.
  */
  lemma SectionFromHeading(lines: seq<string>, k: nat)
    requires k < |HeadingsBefore(lines, |lines|)|
    ensures var hs := HeadingsBefore(lines, |lines|);
            var d := SectionsOf(lines)[k];
            && |SectionsOf(lines)| == |hs|
            && HeadingOf(lines[hs[k]]) == Some((d.level, d.title))
            && d.id == SectionIdPrefix + DecimalString(hs[k])
            && d.slug == Slugify(d.title)
            && d.summary == "" && d.sectionType == "content"
  {
  }

  /** Lines strictly between the `k`-th heading and the next one (or the end) are not headings. */
  lemma NoHeadingInside(lines: seq<string>, hs: seq<nat>, k: nat, end: nat)
    requires hs == HeadingsBefore(lines, |lines|) && k < |hs|
    requires end == if k + 1 < |hs| then hs[k + 1] else |lines|
    ensures hs[k] < end
    ensures forall i :: hs[k] < i < end ==> HeadingOf(lines[i]).None?
  {
    forall i | hs[k] < i < end
      ensures HeadingOf(lines[i]).None?
    {
      if HeadingOf(lines[i]).Some? {
        var j := HeadingPosition(lines, hs, i);
      }
    }
  }

  /**
    Section `k` holds the lines after its heading up to the next heading or
    the end, joined with newlines, and none of those lines is a heading.
  */
  lemma SectionContent(lines: seq<string>, k: nat)
    requires k < |HeadingsBefore(lines, |lines|)|
    ensures var hs := HeadingsBefore(lines, |lines|);
            var end := if k + 1 < |hs| then hs[k + 1] else |lines|;
            && hs[k] < end
            && SectionsOf(lines)[k].content == Join(lines[hs[k] + 1..end], "\n")
            && forall i :: hs[k] < i < end ==> HeadingOf(lines[i]).None?
  {
    var hs := HeadingsBefore(lines, |lines|);
    var end := if k + 1 < |hs| then hs[k + 1] else |lines|;
    NoHeadingInside(lines, hs, k, end);
    SectionAt(lines, hs, k, end);
  }

  lemma SectionAt(lines: seq<string>, hs: seq<nat>, k: nat, end: nat)
    requires hs == HeadingsBefore(lines, |lines|) && k < |hs|
    requires end == if k + 1 < |hs| then hs[k + 1] else |lines|
    ensures hs[k] < end <= |lines|
    ensures SectionsOf(lines)[k].content == Join(lines[hs[k] + 1..end], "\n")
  {
    assert SectionsOf(lines)[k] == SectionAtHeading(lines, hs, k);
  }

  /** Lines before the first heading belong to no section; without headings there are no sections. */
  lemma PreambleDropped(lines: seq<string>)
    ensures var hs := HeadingsBefore(lines, |lines|);
            && (|SectionsOf(lines)| == 0 <==> forall i :: 0 <= i < |lines| ==> HeadingOf(lines[i]).None?)
            && (|hs| > 0 ==> forall i :: 0 <= i < hs[0] ==> HeadingOf(lines[i]).None?)
  {
    var hs := HeadingsBefore(lines, |lines|);
    forall i | 0 <= i < |lines| && HeadingOf(lines[i]).Some?
      ensures |hs| > 0 && hs[0] <= i
    {
      var j := HeadingPosition(lines, hs, i);
    }
  }

  /** Distinct lines give distinct ids, so section ids never repeat. */
  lemma SectionIdsDistinct(lines: seq<string>, k: nat, l: nat)
    requires k < l < |HeadingsBefore(lines, |lines|)|
    ensures SectionsOf(lines)[k].id != SectionsOf(lines)[l].id
  {
    var hs := HeadingsBefore(lines, |lines|);
    HeadingsIncreasing(lines, |lines|, k, l);
    DecimalInjective(hs[k], hs[l]);
    SectionFromHeading(lines, k);
    SectionFromHeading(lines, l);
    var a := SectionIdPrefix + DecimalString(hs[k]);
    var b := SectionIdPrefix + DecimalString(hs[l]);
    assert a[|SectionIdPrefix|..] == DecimalString(hs[k]);
    assert b[|SectionIdPrefix|..] == DecimalString(hs[l]);
  }
}
