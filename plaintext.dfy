/**
 * The accessible plain-text form of the hero document (`sectionText` and
 * `heroPlainText`): newline-joined lines, a blank line before each section
 * and before the meta line, bullets prefixed with "- ".
 */
module PlainText {
  import opened Wrappers
  import opened Strings
  import opened Document
  import opened Compositor

  /** One section's lines: a blank line, the title, then "- " + item per item. */
  function SectionBlock(s: Section): seq<string>
  {
    ["", s.title] + seq(|s.items|, j requires 0 <= j < |s.items| => "- " + s.items[j])
  }

  /** `sections.flatMap(...)` */
  function SectionText(ss: seq<Section>): seq<string>
  {
    if ss == [] then [] else SectionText(ss[..|ss| - 1]) + SectionBlock(ss[|ss| - 1])
  }

  /** The array that is joined: intro, lead, the section blocks, a blank line, meta. */
  function HeroPlainLines(doc: HeroDocument): seq<string>
  {
    [doc.intro] + doc.lead + SectionText(doc.sections) + ["", doc.meta]
  }

  function HeroPlainText(doc: HeroDocument): string
  {
    Join("\n", HeroPlainLines(doc))
  }

  /** No field of the document contains a newline. */
  predicate NoNewlines(doc: HeroDocument)
  {
    && '\n' !in doc.intro
    && '\n' !in doc.meta
    && (forall i :: 0 <= i < |doc.lead| ==> '\n' !in doc.lead[i])
    && (forall k :: 0 <= k < |doc.sections| ==> '\n' !in doc.sections[k].title)
    && (forall k, j :: 0 <= k < |doc.sections| && 0 <= j < |doc.sections[k].items| ==>
          '\n' !in doc.sections[k].items[j])
  }

  /** The text each compositor line stands for in the plain form. */
  function PlainLines(lines: seq<Line>): seq<string>
  {
    seq(|lines|, i requires 0 <= i < |lines| => TextOf(lines[i]))
  }

  lemma PlainLinesAppend(a: seq<Line>, b: seq<Line>)
    ensures PlainLines(a + b) == PlainLines(a) + PlainLines(b)
  {
    assert forall i :: 0 <= i < |a + b| ==> PlainLines(a + b)[i] == (PlainLines(a) + PlainLines(b))[i];
  }

  lemma {:induction false} SectionTextFromLines(ss: seq<Section>)
    ensures PlainLines(SectionsLines(ss)) == SectionText(ss)
  {
    if ss != [] {
      var last := ss[|ss| - 1];
      SectionTextFromLines(ss[..|ss| - 1]);
      PlainLinesAppend(SectionsLines(ss[..|ss| - 1]), SectionLines(last));
      assert PlainLines(SectionLines(last)) == SectionBlock(last);
    }
  }

  /**
   * Line i of the plain text is the text of compositor line i, or "" for a
   * spacer; both sequences have the same length.
   */
  lemma PlainMatchesLines(doc: HeroDocument)
    ensures |HeroPlainLines(doc)| == |HeroLines(doc)|
    ensures forall i :: 0 <= i < |HeroLines(doc)| ==>
              && (HeroLines(doc)[i].kind == Spacer <==> HeroLines(doc)[i].text.None?)
              && HeroPlainLines(doc)[i]
              == (if HeroLines(doc)[i].kind == Spacer then "" else HeroLines(doc)[i].text.value)
  {
    var head := [Line(Intro, Some(doc.intro))] + LeadLines(doc.lead);
    var tail := [SpacerLine, Line(Meta, Some(doc.meta))];
    SectionTextFromLines(doc.sections);
    PlainLinesAppend(head + SectionsLines(doc.sections), tail);
    PlainLinesAppend(head, SectionsLines(doc.sections));
    assert PlainLines(head) == [doc.intro] + doc.lead;
    assert PlainLines(tail) == ["", doc.meta];
    assert PlainLines(HeroLines(doc)) == HeroPlainLines(doc);
    HeroLinesWellTagged(doc);
  }

  /** The plain text has as many lines as the compositor: 1 + |lead| + the sections' weight + 2. */
  lemma PlainLineCount(doc: HeroDocument)
    ensures |HeroPlainLines(doc)| == LineCount(doc)
  {
    PlainMatchesLines(doc);
    HeroLinesCount(doc);
  }

  /** The last line is the meta line and the one before it is blank. */
  lemma PlainTail(doc: HeroDocument)
    ensures |HeroPlainLines(doc)| >= 3
    ensures HeroPlainLines(doc)[|HeroPlainLines(doc)| - 1] == doc.meta
    ensures HeroPlainLines(doc)[|HeroPlainLines(doc)| - 2] == ""
  {
  }

  /** Each section block begins with a blank line and the title, then its bullets, all prefixed "- ". */
  lemma PlainSection(doc: HeroDocument, k: nat)
    requires k < |doc.sections|
    ensures SectionOffset(doc, k) + 2 + |doc.sections[k].items| < |HeroPlainLines(doc)|
    ensures HeroPlainLines(doc)[SectionOffset(doc, k)] == ""
    ensures HeroPlainLines(doc)[SectionOffset(doc, k) + 1] == doc.sections[k].title
    ensures forall j :: 0 <= j < |doc.sections[k].items| ==>
              HeroPlainLines(doc)[SectionOffset(doc, k) + 2 + j] == "- " + doc.sections[k].items[j]
  {
    PlainMatchesLines(doc);
    HeroLinesSection(doc, k);
  }

  lemma FreeAppend(a: seq<string>, b: seq<string>, c: char)
    requires Free(a, c) && Free(b, c)
    ensures Free(a + b, c)
  {
    assert forall i :: 0 <= i < |a + b| ==> (a + b)[i] == if i < |a| then a[i] else b[i - |a|];
  }

  lemma {:induction false} SectionTextFree(ss: seq<Section>)
    requires forall k :: 0 <= k < |ss| ==> '\n' !in ss[k].title
    requires forall k, j :: 0 <= k < |ss| && 0 <= j < |ss[k].items| ==> '\n' !in ss[k].items[j]
    ensures Free(SectionText(ss), '\n')
  {
    if ss != [] {
      var last := ss[|ss| - 1];
      SectionTextFree(ss[..|ss| - 1]);
      forall j | 0 <= j < |last.items| ensures '\n' !in "- " + last.items[j] {
        assert ("- " + last.items[j])[2..] == last.items[j];
      }
      FreeAppend(SectionText(ss[..|ss| - 1]), SectionBlock(last), '\n');
    }
  }

  lemma PlainLinesFree(doc: HeroDocument)
    requires NoNewlines(doc)
    ensures Free(HeroPlainLines(doc), '\n')
  {
    SectionTextFree(doc.sections);
    FreeAppend([doc.intro], doc.lead, '\n');
    FreeAppend([doc.intro] + doc.lead, SectionText(doc.sections), '\n');
    FreeAppend([doc.intro] + doc.lead + SectionText(doc.sections), ["", doc.meta], '\n');
  }

  /**
   * With no newline in any field, the plain text holds exactly
   * LineCount(doc) - 1 newlines, and splitting it on newlines gives back
   * its lines.
   */
  lemma PlainTextNewlines(doc: HeroDocument)
    requires NoNewlines(doc)
    ensures multiset(HeroPlainText(doc))['\n'] == LineCount(doc) - 1
    ensures Split(HeroPlainText(doc), '\n') == HeroPlainLines(doc)
  {
    PlainLinesFree(doc);
    PlainLineCount(doc);
    JoinCount(HeroPlainLines(doc), '\n');
    SplitJoin(HeroPlainLines(doc), '\n');
  }
}
