/**
 * The line compositor: the hero document flattened into tagged lines, in
 * document order (the `heroLines` array of the page).
 */
module Compositor {
  import opened Wrappers
  import opened Document

  /** A line's role. `Lead` is the page's "line" tag, used for lead lines. */
  datatype LineType = Intro | Lead | SectionTitle | Bullet | Meta | Spacer

  /** A tagged line; only spacers come without text. */
  datatype Line = Line(kind: LineType, text: Option<string>)

  /** The text a line shows, "" when it has none (`line.text ?? ""`). */
  function TextOf(line: Line): string
  {
    line.text.GetOr("")
  }

  const SpacerLine := Line(Spacer, None)

  function BulletLine(item: string): Line
  {
    Line(Bullet, Some("- " + item))
  }

  /** One `Lead` line per lead string, in order. */
  function LeadLines(lead: seq<string>): seq<Line>
  {
    seq(|lead|, i requires 0 <= i < |lead| => Line(Lead, Some(lead[i])))
  }

  /** One bullet per item, in item order. */
  function BulletLines(items: seq<string>): seq<Line>
  {
    seq(|items|, j requires 0 <= j < |items| => BulletLine(items[j]))
  }

  /** What one section pushes: a spacer, its title, its bullets. */
  function SectionLines(s: Section): seq<Line>
  {
    [SpacerLine, Line(SectionTitle, Some(s.title))] + BulletLines(s.items)
  }

  /** The sections' lines, section after section. */
  function SectionsLines(ss: seq<Section>): seq<Line>
  {
    if ss == [] then [] else SectionsLines(ss[..|ss| - 1]) + SectionLines(ss[|ss| - 1])
  }

  /** The full line sequence of a document. */
  function HeroLines(doc: HeroDocument): seq<Line>
  {
    [Line(Intro, Some(doc.intro))] + LeadLines(doc.lead) + SectionsLines(doc.sections)
      + [SpacerLine, Line(Meta, Some(doc.meta))]
  }

  /**
   * The module-level construction of `heroLines`: the intro and the mapped
   * lead lines, then a push per spacer, title and bullet inside the nested
   * `forEach` loops, then the trailing spacer and meta line.
   */
  method ComposeLines(doc: HeroDocument) returns (lines: seq<Line>)
    ensures lines == HeroLines(doc)
  {
    var head := [Line(Intro, Some(doc.intro))] + LeadLines(doc.lead);
    lines := head;
    var k := 0;
    while k < |doc.sections|
      invariant 0 <= k <= |doc.sections|
      invariant lines == head + SectionsLines(doc.sections[..k])
    {
      var section := doc.sections[k];
      var before := lines;
      lines := lines + [SpacerLine];
      lines := lines + [Line(SectionTitle, Some(section.title))];
      var j := 0;
      while j < |section.items|
        invariant 0 <= j <= |section.items|
        invariant lines == before + [SpacerLine, Line(SectionTitle, Some(section.title))]
                           + BulletLines(section.items[..j])
      {
        assert BulletLines(section.items[..j + 1])
            == BulletLines(section.items[..j]) + [BulletLine(section.items[j])];
        lines := lines + [BulletLine(section.items[j])];
        j := j + 1;
      }
      assert section.items[..j] == section.items;
      assert doc.sections[..k + 1][..k] == doc.sections[..k];
      k := k + 1;
    }
    assert doc.sections[..k] == doc.sections;
    lines := lines + [SpacerLine];
    lines := lines + [Line(Meta, Some(doc.meta))];
  }

  lemma {:induction false} SectionsLinesLength(ss: seq<Section>)
    ensures |SectionsLines(ss)| == SectionsWeight(ss)
  {
    if ss != [] {
      SectionsLinesLength(ss[..|ss| - 1]);
    }
  }

  lemma {:induction false} SectionsLinesAppend(a: seq<Section>, b: seq<Section>)
    ensures SectionsLines(a + b) == SectionsLines(a) + SectionsLines(b)
    decreases |b|
  {
    if b == [] {
      assert a + b == a;
    } else {
      var b' := b[..|b| - 1];
      assert (a + b)[..|a + b| - 1] == a + b';
      SectionsLinesAppend(a, b');
    }
  }

  /** The number of lines is 1 + |lead| + the sum over sections of (2 + |items|) + 2. */
  lemma HeroLinesCount(doc: HeroDocument)
    ensures |HeroLines(doc)| == LineCount(doc)
    ensures |HeroLines(doc)| == 1 + |doc.lead| + SectionsWeight(doc.sections) + 2
  {
    SectionsLinesLength(doc.sections);
  }

  /** The intro comes first, then the lead lines in order. */
  lemma HeroLinesHead(doc: HeroDocument)
    ensures |HeroLines(doc)| > |doc.lead|
    ensures HeroLines(doc)[0] == Line(Intro, Some(doc.intro))
    ensures forall i :: 0 <= i < |doc.lead| ==> HeroLines(doc)[1 + i] == Line(Lead, Some(doc.lead[i]))
  {
  }

  /** The lines of section `k` sit, contiguously and intact, at SectionOffset(doc, k). */
  lemma HeroLinesSectionBlock(doc: HeroDocument, k: nat)
    requires k < |doc.sections|
    ensures SectionOffset(doc, k + 1) == SectionOffset(doc, k) + SectionWeight(doc.sections[k])
    ensures SectionOffset(doc, k + 1) < |HeroLines(doc)|
    ensures HeroLines(doc)[SectionOffset(doc, k)..SectionOffset(doc, k + 1)] == SectionLines(doc.sections[k])
  {
    var ss := doc.sections;
    SectionOffsetNext(doc, k);
    assert ss == ss[..k] + [ss[k]] + ss[k + 1..];
    SectionsLinesAppend(ss[..k] + [ss[k]], ss[k + 1..]);
    SectionsLinesAppend(ss[..k], [ss[k]]);
    assert SectionsLines([ss[k]]) == SectionLines(ss[k]) by {
      assert [ss[k]][..0] == [];
    }
    SectionsLinesLength(ss[..k]);
    SectionsLinesLength(ss);
    HeroLinesCount(doc);
    var head := [Line(Intro, Some(doc.intro))] + LeadLines(doc.lead);
    var lines := HeroLines(doc);
    var before := head + SectionsLines(ss[..k]);
    assert lines == before + SectionLines(ss[k])
                    + (SectionsLines(ss[k + 1..]) + [SpacerLine, Line(Meta, Some(doc.meta))]);
    assert |before| == SectionOffset(doc, k);
  }

  /**
   * Each section contributes a spacer, then its title, then one bullet
   * "- " + item per item, in item order.
   */
  lemma HeroLinesSection(doc: HeroDocument, k: nat)
    requires k < |doc.sections|
    ensures SectionOffset(doc, k) + 2 + |doc.sections[k].items| < |HeroLines(doc)|
    ensures HeroLines(doc)[SectionOffset(doc, k)] == SpacerLine
    ensures HeroLines(doc)[SectionOffset(doc, k) + 1] == Line(SectionTitle, Some(doc.sections[k].title))
    ensures forall j :: 0 <= j < |doc.sections[k].items| ==>
              HeroLines(doc)[SectionOffset(doc, k) + 2 + j] == Line(Bullet, Some("- " + doc.sections[k].items[j]))
    ensures SectionOffset(doc, k + 1) == SectionOffset(doc, k) + 2 + |doc.sections[k].items|
  {
    HeroLinesSectionBlock(doc, k);
    var off := SectionOffset(doc, k);
    var block := HeroLines(doc)[off..SectionOffset(doc, k + 1)];
    assert block == SectionLines(doc.sections[k]);
    forall j | 0 <= j < |doc.sections[k].items|
      ensures HeroLines(doc)[off + 2 + j] == BulletLine(doc.sections[k].items[j])
    {
      assert HeroLines(doc)[off + 2 + j] == block[2 + j];
    }
    assert HeroLines(doc)[off] == block[0];
    assert HeroLines(doc)[off + 1] == block[1];
  }

  /** The sequence ends with a spacer followed by the meta line, right after the last section. */
  lemma HeroLinesTail(doc: HeroDocument)
    ensures |HeroLines(doc)| >= 3
    ensures SectionOffset(doc, |doc.sections|) == |HeroLines(doc)| - 2
    ensures HeroLines(doc)[|HeroLines(doc)| - 2] == SpacerLine
    ensures HeroLines(doc)[|HeroLines(doc)| - 1] == Line(Meta, Some(doc.meta))
  {
    HeroLinesCount(doc);
    assert doc.sections[..|doc.sections|] == doc.sections;
  }

  /** A line is a spacer exactly when it has no text, and a bullet's text begins with "- ". */
  predicate WellTagged(line: Line)
  {
    && (line.kind == Spacer <==> line.text == None)
    && (line.kind == Bullet ==> line.text.Some? && "- " <= line.text.value)
  }

  lemma {:induction false} SectionsLinesWellTagged(ss: seq<Section>)
    ensures forall i :: 0 <= i < |SectionsLines(ss)| ==> WellTagged(SectionsLines(ss)[i])
  {
    if ss != [] {
      SectionsLinesWellTagged(ss[..|ss| - 1]);
    }
  }

  /** Spacers and only spacers carry no text; every bullet reads "- " followed by its item. */
  lemma HeroLinesWellTagged(doc: HeroDocument)
    ensures forall i :: 0 <= i < |HeroLines(doc)| ==> WellTagged(HeroLines(doc)[i])
  {
    SectionsLinesWellTagged(doc.sections);
  }
}
