/**
 * The hero document: an intro line, lead lines, titled sections of bullet
 * items and a closing meta line. Both the line compositor and the plain-text
 * rendering depend only on this shape.
 */
module Document {

  datatype Section = Section(title: string, items: seq<string>)

  datatype HeroDocument = HeroDocument(
    intro: string,
    lead: seq<string>,
    sections: seq<Section>,
    meta: string)

  /** Lines one section contributes: a spacer (or blank line), its title, one per item. */
  function SectionWeight(s: Section): nat
  {
    2 + |s.items|
  }

  /** The sum over `ss` of SectionWeight. */
  function SectionsWeight(ss: seq<Section>): nat
  {
    if ss == [] then 0 else SectionsWeight(ss[..|ss| - 1]) + SectionWeight(ss[|ss| - 1])
  }

  /** 1 (intro) + |lead| + the sections' weight + 2 (trailing spacer and meta). */
  function LineCount(doc: HeroDocument): nat
  {
    1 + |doc.lead| + SectionsWeight(doc.sections) + 2
  }

  /** Index of the first line (the spacer) of section `k`; for k = |sections|, of the trailing spacer. */
  function SectionOffset(doc: HeroDocument, k: nat): nat
    requires k <= |doc.sections|
  {
    1 + |doc.lead| + SectionsWeight(doc.sections[..k])
  }

  lemma {:induction false} SectionsWeightAppend(a: seq<Section>, b: seq<Section>)
    ensures SectionsWeight(a + b) == SectionsWeight(a) + SectionsWeight(b)
    decreases |b|
  {
    if b == [] {
      assert a + b == a;
    } else {
      var b' := b[..|b| - 1];
      assert (a + b)[..|a + b| - 1] == a + b';
      SectionsWeightAppend(a, b');
    }
  }

  /** Section `k` starts where the sections before it end, and section k + 1 right after it. */
  lemma SectionOffsetNext(doc: HeroDocument, k: nat)
    requires k < |doc.sections|
    ensures SectionOffset(doc, k + 1) == SectionOffset(doc, k) + SectionWeight(doc.sections[k])
    ensures SectionOffset(doc, k) + SectionWeight(doc.sections[k]) <= SectionOffset(doc, |doc.sections|)
  {
    var ss := doc.sections;
    assert ss[..k + 1][..k] == ss[..k];
    assert ss == ss[..k + 1] + ss[k + 1..];
    assert ss[..|ss|] == ss;
    SectionsWeightAppend(ss[..k + 1], ss[k + 1..]);
  }
}
