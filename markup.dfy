/**
 * The typed markup: every line becomes its span (spacers nothing), and every
 * line but the last is followed by a line break (`buildTypedMarkup`).
 */
module Markup {
  import opened Strings
  import opened Document
  import opened Compositor

  /** The CSS class of each rendered line type; the names are opaque strings. */
  datatype ClassMap = ClassMap(intro: string, line: string, sectionTitle: string, bullet: string, meta: string)

  /** `classes[line.type]`, defined for every type but the spacer. */
  function ClassOf(classes: ClassMap, kind: LineType): string
    requires kind != Spacer
  {
    match kind
    case Intro => classes.intro
    case Lead => classes.line
    case SectionTitle => classes.sectionTitle
    case Bullet => classes.bullet
    case Meta => classes.meta
  }

  const LineBreak := "<br/>"

  function SpanMarkup(cls: string, text: string): string
  {
    "<span class=\"" + cls + "\">" + text + "</span>"
  }

  /** What a line shows: nothing for a spacer, else a span with its class and text. */
  function Content(line: Line, classes: ClassMap): string
  {
    if line.kind == Spacer then "" else SpanMarkup(ClassOf(classes, line.kind), TextOf(line))
  }

  /** The string the `map` callback returns for the line at `index`. */
  function Piece(lines: seq<Line>, classes: ClassMap, index: nat): string
    requires index < |lines|
  {
    Content(lines[index], classes) + (if index < |lines| - 1 then LineBreak else "")
  }

  /** `lines.map(...).join("")` */
  function BuildTypedMarkup(lines: seq<Line>, classes: ClassMap): string
  {
    Join("", seq(|lines|, i requires 0 <= i < |lines| => Piece(lines, classes, i)))
  }

  /** The markup handed to the typing animation. */
  function TypedMarkup(doc: HeroDocument, classes: ClassMap): string
  {
    BuildTypedMarkup(HeroLines(doc), classes)
  }

  /** The markup read as a sequence of tokens: spans and line breaks. */
  datatype Fragment = Span(cls: string, text: string) | Break

  function Render(f: Fragment): string
  {
    match f
    case Span(cls, text) => SpanMarkup(cls, text)
    case Break => LineBreak
  }

  function RenderAll(fs: seq<Fragment>): string
  {
    if fs == [] then "" else Render(fs[0]) + RenderAll(fs[1..])
  }

  /** The tokens a line shows on its own: its span, or none for a spacer. */
  function SpanOf(line: Line, classes: ClassMap): seq<Fragment>
  {
    if line.kind == Spacer then [] else [Span(ClassOf(classes, line.kind), TextOf(line))]
  }

  /** The lines' tokens with one break between each two neighbouring lines. */
  function Fragments(lines: seq<Line>, classes: ClassMap): seq<Fragment>
    decreases |lines|
  {
    if |lines| == 0 then []
    else if |lines| == 1 then SpanOf(lines[0], classes)
    else SpanOf(lines[0], classes) + [Break] + Fragments(lines[1..], classes)
  }

  /** The token groups between breaks; n breaks give n + 1 groups. */
  function SplitAtBreaks(fs: seq<Fragment>): (groups: seq<seq<Fragment>>)
    ensures |groups| > 0
  {
    if fs == [] then [[]]
    else
      var r := SplitAtBreaks(fs[1..]);
      if fs[0] == Break then [[]] + r else [[fs[0]] + r[0]] + r[1..]
  }

  /** n breaks cut the tokens into n + 1 groups. */
  lemma {:induction false} SplitAtBreaksCount(fs: seq<Fragment>)
    ensures |SplitAtBreaks(fs)| == multiset(fs)[Break] + 1
  {
    if fs != [] {
      SplitAtBreaksCount(fs[1..]);
      assert fs == [fs[0]] + fs[1..];
    }
  }

  lemma {:induction false} RenderAllAppend(a: seq<Fragment>, b: seq<Fragment>)
    ensures RenderAll(a + b) == RenderAll(a) + RenderAll(b)
  {
    if a != [] {
      var x, a' := a[0], a[1..];
      assert (a + b)[0] == x;
      assert (a + b)[1..] == a' + b;
      RenderAllAppend(a', b);
      var r, ra, rb := Render(x), RenderAll(a'), RenderAll(b);
      assert RenderAll(a + b) == r + (ra + rb);
      assert r + (ra + rb) == (r + ra) + rb;
    } else {
      assert a + b == b;
    }
  }

  lemma RenderSpanOf(line: Line, classes: ClassMap)
    ensures RenderAll(SpanOf(line, classes)) == Content(line, classes)
  {
  }

  /** A markup of two or more lines is the first line's content, a break, and the rest's markup. */
  lemma MarkupUnfold(lines: seq<Line>, classes: ClassMap)
    requires |lines| >= 2
    ensures BuildTypedMarkup(lines, classes)
         == Content(lines[0], classes) + LineBreak + BuildTypedMarkup(lines[1..], classes)
  {
    var ps := seq(|lines|, i requires 0 <= i < |lines| => Piece(lines, classes, i));
    var rest := lines[1..];
    var qs := seq(|rest|, i requires 0 <= i < |rest| => Piece(rest, classes, i));
    assert ps[1..] == qs;
    assert Join("", ps) == ps[0] + "" + Join("", ps[1..]);
  }

  lemma RenderAroundBreak(a: seq<Fragment>, b: seq<Fragment>)
    ensures RenderAll(a + [Break] + b) == RenderAll(a) + LineBreak + RenderAll(b)
  {
    var ab := a + [Break];
    RenderAllAppend(ab, b);
    RenderAllAppend(a, [Break]);
    var one: seq<Fragment> := [Break];
    assert one[0] == Break && one[1..] == [];
    assert RenderAll(one) == LineBreak;
    assert RenderAll(ab) == RenderAll(a) + LineBreak;
  }

  lemma FragmentsUnfold(lines: seq<Line>, classes: ClassMap)
    requires |lines| >= 2
    ensures Fragments(lines, classes) == SpanOf(lines[0], classes) + [Break] + Fragments(lines[1..], classes)
  {
  }

  /** The markup string is exactly the rendering of the token view; no lines give "". */
  lemma {:induction false} MarkupIsRendering(lines: seq<Line>, classes: ClassMap)
    ensures BuildTypedMarkup(lines, classes) == RenderAll(Fragments(lines, classes))
    ensures lines == [] ==> BuildTypedMarkup(lines, classes) == ""
    decreases |lines|
  {
    if |lines| == 1 {
      RenderSpanOf(lines[0], classes);
      assert BuildTypedMarkup(lines, classes) == Piece(lines, classes, 0);
    } else if |lines| >= 2 {
      var rest := lines[1..];
      var head := SpanOf(lines[0], classes);
      MarkupUnfold(lines, classes);
      MarkupIsRendering(rest, classes);
      FragmentsUnfold(lines, classes);
      RenderAroundBreak(head, Fragments(rest, classes));
      RenderSpanOf(lines[0], classes);
    }
  }

  /** Exactly |lines| - 1 line breaks, none for an empty line list. */
  lemma {:induction false} BreakCount(lines: seq<Line>, classes: ClassMap)
    ensures multiset(Fragments(lines, classes))[Break] == if lines == [] then 0 else |lines| - 1
    decreases |lines|
  {
    if |lines| >= 2 {
      BreakCount(lines[1..], classes);
      assert multiset(SpanOf(lines[0], classes))[Break] == 0;
    } else if |lines| == 1 {
      assert multiset(SpanOf(lines[0], classes))[Break] == 0;
    }
  }

  lemma SplitAfterSpan(f: seq<Fragment>, rest: seq<Fragment>)
    requires |f| <= 1 && Break !in f
    ensures SplitAtBreaks(f) == [f]
    ensures SplitAtBreaks(f + [Break] + rest) == [f] + SplitAtBreaks(rest)
  {
    if f == [] {
      assert ([Break] + rest)[1..] == rest;
    } else {
      assert f[0] != Break && f == [f[0]];
      assert f[1..] == [];
      assert SplitAtBreaks(f[1..]) == [[]];
      var none: seq<seq<Fragment>> := [[]];
      assert none[1..] == [];
      assert SplitAtBreaks(f) == [[f[0]] + none[0]] + none[1..];
      assert [f[0]] + none[0] == f;
      assert [[f[0]] + none[0]] + none[1..] == [f];
      assert (f + [Break] + rest)[1..] == [Break] + rest;
      assert ([Break] + rest)[1..] == rest;
    }
  }

  /**
   * Between consecutive breaks lies line i's content and nothing else: one
   * span with the line's class and text, or nothing for a spacer, in line
   * order.
   */
  lemma {:induction false} FragmentsSplit(lines: seq<Line>, classes: ClassMap)
    requires lines != []
    ensures SplitAtBreaks(Fragments(lines, classes))
         == seq(|lines|, i requires 0 <= i < |lines| => SpanOf(lines[i], classes))
    decreases |lines|
  {
    var head := SpanOf(lines[0], classes);
    if |lines| == 1 {
      SplitAfterSpan(head, []);
    } else {
      var rest := lines[1..];
      FragmentsSplit(rest, classes);
      SplitAfterSpan(head, Fragments(rest, classes));
      var want := seq(|lines|, i requires 0 <= i < |lines| => SpanOf(lines[i], classes));
      var tail := seq(|rest|, i requires 0 <= i < |rest| => SpanOf(rest[i], classes));
      forall i | 0 <= i < |want| ensures want[i] == ([head] + tail)[i] {
        if i > 0 {
          assert rest[i - 1] == lines[i];
        }
      }
      assert want == [head] + tail;
    }
  }

  lemma {:induction false} FragmentsAppend(lines: seq<Line>, line: Line, classes: ClassMap)
    requires lines != []
    ensures Fragments(lines + [line], classes) == Fragments(lines, classes) + [Break] + SpanOf(line, classes)
    decreases |lines|
  {
    if |lines| == 1 {
      assert (lines + [line])[1..] == [line];
    } else {
      assert (lines + [line])[1..] == lines[1..] + [line];
      FragmentsAppend(lines[1..], line, classes);
    }
  }

  /** Appending a line appends a break and then that line's content: no trailing break ever. */
  lemma MarkupAppend(lines: seq<Line>, line: Line, classes: ClassMap)
    requires lines != []
    ensures BuildTypedMarkup(lines + [line], classes)
         == BuildTypedMarkup(lines, classes) + LineBreak + Content(line, classes)
  {
    MarkupIsRendering(lines + [line], classes);
    MarkupIsRendering(lines, classes);
    FragmentsAppend(lines, line, classes);
    RenderAroundBreak(Fragments(lines, classes), SpanOf(line, classes));
    RenderSpanOf(line, classes);
  }

  /**
   * The document's markup has LineCount(doc) - 1 breaks, and one group per
   * line between them.
   */
  lemma HeroMarkup(doc: HeroDocument, classes: ClassMap)
    ensures TypedMarkup(doc, classes) == RenderAll(Fragments(HeroLines(doc), classes))
    ensures multiset(Fragments(HeroLines(doc), classes))[Break] == LineCount(doc) - 1
    ensures |SplitAtBreaks(Fragments(HeroLines(doc), classes))| == LineCount(doc)
  {
    SplitAtBreaksCount(Fragments(HeroLines(doc), classes));
    HeroLinesCount(doc);
    MarkupIsRendering(HeroLines(doc), classes);
    BreakCount(HeroLines(doc), classes);
  }
}
