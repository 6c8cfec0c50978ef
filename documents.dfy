/**
 * Content extraction from Word and PowerPoint documents (`get_word_file_content`,
 * `get_ppt_file_content`). The documents themselves are what python-docx and
 * python-pptx would hand over after parsing; they are given here as values.
 */
module Documents {
  import opened Wrappers

  /**
   * The characters `str.strip()` removes, those for which `str.isspace()` holds:
   * tab to carriage return, the four separators 0x1C-0x1F, space, 0x85, no-break
   * space, and the Unicode space separators and line and paragraph separators.
   */
  predicate IsSpace(c: char) {
    var k := c as int;
    || 9 <= k <= 13 || 28 <= k <= 32 || k == 0x85 || k == 0xA0 || k == 0x1680
    || 0x2000 <= k <= 0x200A || k == 0x2028 || k == 0x2029 || k == 0x202F || k == 0x205F || k == 0x3000
  }

  /** `text.strip()` is empty exactly when every character is whitespace. */
  predicate IsBlank(text: string) {
    forall i :: 0 <= i < |text| ==> IsSpace(text[i])
  }

  datatype Cell = Cell(text: string)
  datatype Row = Row(cells: seq<Cell>)
  datatype Table = Table(rows: seq<Row>)

  /** A Word document: its body paragraphs' texts and its tables, in document order. */
  datatype WordDocument = WordDocument(paragraphs: seq<string>, tables: seq<Table>)

  /** One entry of the Word output list: `{"type": "paragraph", ...}` or `{"type": "table", ...}`. */
  datatype WordEntry =
    | ParagraphEntry(text: string, index: nat)
    | TableEntry(data: seq<seq<string>>, index: nat)

  /** A PowerPoint shape: the paragraphs of its text frame if it has one, its table if it has one. */
  datatype Shape = Shape(textFrame: Option<seq<string>>, table: Option<Table>)
  datatype Slide = Slide(shapes: seq<Shape>)
  datatype Presentation = Presentation(slides: seq<Slide>)

  datatype SlideElement = TextElement(text: string) | TableElement(data: seq<seq<string>>)
  datatype SlideContent = SlideContent(slideNumber: nat, elements: seq<SlideElement>)

  // ---------------------------------------------------------------------------
  // Tables

  /** `[cell.text for cell in row.cells]` */
  function CellTexts(row: Row): seq<string> {
    seq(|row.cells|, j requires 0 <= j < |row.cells| => row.cells[j].text)
  }

  /** The `table_data` the extractors build for a table: one list of cell texts per row. */
  function TableOf(t: Table): seq<seq<string>> {
    seq(|t.rows|, k requires 0 <= k < |t.rows| => CellTexts(t.rows[k]))
  }

  /** The row loop shared by both extractors. */
  method ReadTable(t: Table) returns (data: seq<seq<string>>)
    ensures |data| == |t.rows|
    ensures forall k :: 0 <= k < |t.rows| ==> data[k] == CellTexts(t.rows[k])
  {
    data := [];
    var i := 0;
    while i < |t.rows|
      invariant 0 <= i <= |t.rows|
      invariant |data| == i
      invariant forall k :: 0 <= k < i ==> data[k] == CellTexts(t.rows[k])
    {
      data := data + [CellTexts(t.rows[i])];
      i := i + 1;
    }
  }

  // ---------------------------------------------------------------------------
  // Word

  /** The kept paragraphs of `ps`, each tagged with its position among all paragraphs. */
  function ParagraphEntries(ps: seq<string>): seq<WordEntry> {
    if |ps| == 0 then []
    else
      var n := |ps| - 1;
      ParagraphEntries(ps[..n]) + (if IsBlank(ps[n]) then [] else [ParagraphEntry(ps[n], n)])
  }

  /** One table entry per table, numbered from `offset`. */
  function TableEntries(ts: seq<Table>, offset: nat): seq<WordEntry> {
    if |ts| == 0 then []
    else
      var n := |ts| - 1;
      TableEntries(ts[..n], offset) + [TableEntry(TableOf(ts[n]), n + offset)]
  }

  /** What `get_word_file_content` returns for a document. */
  function WordContent(doc: WordDocument): seq<WordEntry> {
    ParagraphEntries(doc.paragraphs) + TableEntries(doc.tables, |doc.paragraphs|)
  }

  method GetWordFileContent(doc: WordDocument) returns (content: seq<WordEntry>)
    ensures content == WordContent(doc)
  {
    content := [];
    var i := 0;
    while i < |doc.paragraphs|
      invariant 0 <= i <= |doc.paragraphs|
      invariant content == ParagraphEntries(doc.paragraphs[..i])
    {
      assert doc.paragraphs[..i + 1][..i] == doc.paragraphs[..i];
      if !IsBlank(doc.paragraphs[i]) {
        content := content + [ParagraphEntry(doc.paragraphs[i], i)];
      }
      i := i + 1;
    }
    assert doc.paragraphs[..i] == doc.paragraphs;
    ghost var paragraphs := content;
    var j := 0;
    while j < |doc.tables|
      invariant 0 <= j <= |doc.tables|
      invariant content == paragraphs + TableEntries(doc.tables[..j], |doc.paragraphs|)
    {
      assert doc.tables[..j + 1][..j] == doc.tables[..j];
      var data := ReadTable(doc.tables[j]);
      assert data == TableOf(doc.tables[j]);
      content := content + [TableEntry(data, j + |doc.paragraphs|)];
      j := j + 1;
    }
    assert doc.tables[..j] == doc.tables;
  }

  /** The indices of a list of entries strictly increase along the list. */
  ghost predicate IncreasingIndices(c: seq<WordEntry>) {
    forall i, j :: 0 <= i < j < |c| ==> c[i].index < c[j].index
  }

  /**
   * An entry is among the kept paragraphs exactly when it is a paragraph entry whose
   * index is a real position, whose text is the paragraph there, and that text is not blank.
   */
  lemma {:induction false} ParagraphEntriesExact(ps: seq<string>, e: WordEntry)
    ensures e in ParagraphEntries(ps) <==>
      (e.ParagraphEntry? && e.index < |ps| && ps[e.index] == e.text && !IsBlank(e.text))
  {
    if |ps| > 0 {
      var n := |ps| - 1;
      ParagraphEntriesExact(ps[..n], e);
    }
  }

  lemma {:induction false} ParagraphEntriesIncreasing(ps: seq<string>)
    ensures IncreasingIndices(ParagraphEntries(ps))
    ensures forall e :: e in ParagraphEntries(ps) ==> e.ParagraphEntry? && e.index < |ps|
  {
    if |ps| > 0 {
      var n := |ps| - 1;
      ParagraphEntriesIncreasing(ps[..n]);
      var prefix := ParagraphEntries(ps[..n]);
      var tail := if IsBlank(ps[n]) then [] else [ParagraphEntry(ps[n], n)];
      var c := ParagraphEntries(ps);
      assert c == prefix + tail;
      forall e | e in c ensures e.ParagraphEntry? && e.index < |ps| {
        if e !in prefix { assert e in tail; }
      }
      forall i, j | 0 <= i < j < |c| ensures c[i].index < c[j].index {
        assert c[i] == prefix[i] && prefix[i] in prefix;
        if j < |prefix| { assert c[j] == prefix[j]; }
      }
    }
  }

  /** Table `k` becomes entry `k` of the table part, with index `k + offset` and the table's cell texts. */
  lemma {:induction false} TableEntriesExact(ts: seq<Table>, offset: nat)
    ensures |TableEntries(ts, offset)| == |ts|
    ensures forall k :: 0 <= k < |ts| ==> TableEntries(ts, offset)[k] == TableEntry(TableOf(ts[k]), k + offset)
  {
    if |ts| > 0 {
      var n := |ts| - 1;
      TableEntriesExact(ts[..n], offset);
    }
  }

  /**
   * The Word output is its paragraph part, whose indices increase and are paragraph
   * positions, followed by its table part, numbered on from the paragraph count.
   */
  lemma WordContentParts(doc: WordDocument)
    ensures var c := WordContent(doc);
      var np := |ParagraphEntries(doc.paragraphs)|;
      && np <= |c|
      && (forall k :: 0 <= k < np ==> c[k].ParagraphEntry? && c[k].index < |doc.paragraphs|)
      && (forall k :: np <= k < |c| ==> c[k].TableEntry? && c[k].index == k - np + |doc.paragraphs|)
      && (forall i, j :: 0 <= i < j < np ==> c[i].index < c[j].index)
  {
    var ps := ParagraphEntries(doc.paragraphs);
    var ts := TableEntries(doc.tables, |doc.paragraphs|);
    var c := WordContent(doc);
    ParagraphEntriesIncreasing(doc.paragraphs);
    TableEntriesExact(doc.tables, |doc.paragraphs|);
    forall k | 0 <= k < |ps| ensures c[k] == ps[k] && c[k] in ps { }
    forall k | |ps| <= k < |c| ensures c[k] == ts[k - |ps|] { }
  }

  /**
   * Along the Word output, indices strictly increase, so no two entries share one, and
   * every paragraph entry comes before, and has a smaller index than, every table entry.
   */
  lemma WordIndicesDistinct(doc: WordDocument)
    ensures IncreasingIndices(WordContent(doc))
    ensures var c := WordContent(doc);
      forall i, j :: 0 <= i < |c| && 0 <= j < |c| && i != j ==> c[i].index != c[j].index
    ensures var c := WordContent(doc);
      forall i, j :: 0 <= i < |c| && 0 <= j < |c| && c[i].ParagraphEntry? && c[j].TableEntry? ==>
        i < j && c[i].index < c[j].index
  {
    var c := WordContent(doc);
    var np := |ParagraphEntries(doc.paragraphs)|;
    WordContentParts(doc);
    assert IncreasingIndices(c) by {
      forall i, j | 0 <= i < j < |c| ensures c[i].index < c[j].index {
        if j < np {
        } else if i < np {
          assert c[i].index < |doc.paragraphs| <= c[j].index;
        }
      }
    }
    forall i, j | 0 <= i < |c| && 0 <= j < |c| && c[i].ParagraphEntry? && c[j].TableEntry?
      ensures i < j && c[i].index < c[j].index
    {
      assert i < np <= j;
    }
  }

  // ---------------------------------------------------------------------------
  // PowerPoint

  /** The non-blank paragraphs of a text frame, as text elements. */
  function TextElements(ps: seq<string>): seq<SlideElement> {
    if |ps| == 0 then []
    else
      var n := |ps| - 1;
      TextElements(ps[..n]) + (if IsBlank(ps[n]) then [] else [TextElement(ps[n])])
  }

  /** The elements one shape contributes: its text paragraphs, then its table. */
  function ShapeElements(sh: Shape): seq<SlideElement> {
    (if sh.textFrame.Some? then TextElements(sh.textFrame.value) else [])
    + (if sh.table.Some? then [TableElement(TableOf(sh.table.value))] else [])
  }

  /** The elements of a slide, shape by shape. */
  function SlideElements(shapes: seq<Shape>): seq<SlideElement> {
    if |shapes| == 0 then []
    else
      var n := |shapes| - 1;
      SlideElements(shapes[..n]) + ShapeElements(shapes[n])
  }

  /** What `get_ppt_file_content` returns: the slides that have elements, numbered from 1. */
  function PptContent(slides: seq<Slide>): seq<SlideContent> {
    if |slides| == 0 then []
    else
      var n := |slides| - 1;
      var elements := SlideElements(slides[n].shapes);
      PptContent(slides[..n]) + (if elements == [] then [] else [SlideContent(n + 1, elements)])
  }

  method GetShapeElements(sh: Shape) returns (elements: seq<SlideElement>)
    ensures elements == ShapeElements(sh)
  {
    elements := [];
    if sh.textFrame.Some? {
      var ps := sh.textFrame.value;
      var k := 0;
      while k < |ps|
        invariant 0 <= k <= |ps|
        invariant elements == TextElements(ps[..k])
      {
        assert ps[..k + 1][..k] == ps[..k];
        if !IsBlank(ps[k]) {
          elements := elements + [TextElement(ps[k])];
        }
        k := k + 1;
      }
      assert ps[..k] == ps;
    }
    if sh.table.Some? {
      var data := ReadTable(sh.table.value);
      assert data == TableOf(sh.table.value);
      elements := elements + [TableElement(data)];
    }
  }

  /** The shape loop for one slide. */
  method GetSlideElements(shapes: seq<Shape>) returns (elements: seq<SlideElement>)
    ensures elements == SlideElements(shapes)
  {
    elements := [];
    var s := 0;
    while s < |shapes|
      invariant 0 <= s <= |shapes|
      invariant elements == SlideElements(shapes[..s])
    {
      assert shapes[..s + 1][..s] == shapes[..s];
      var more := GetShapeElements(shapes[s]);
      elements := elements + more;
      s := s + 1;
    }
    assert shapes[..s] == shapes;
  }

  method GetPptFileContent(prs: Presentation) returns (content: seq<SlideContent>)
    ensures content == PptContent(prs.slides)
  {
    content := [];
    var i := 0;
    while i < |prs.slides|
      invariant 0 <= i <= |prs.slides|
      invariant content == PptContent(prs.slides[..i])
    {
      assert prs.slides[..i + 1][..i] == prs.slides[..i];
      var elements := GetSlideElements(prs.slides[i].shapes);
      if elements != [] {
        content := content + [SlideContent(i + 1, elements)];
      }
      i := i + 1;
    }
    assert prs.slides[..i] == prs.slides;
  }

  /** An element comes from a text frame exactly when it is the text of one of its paragraphs, and that text is not blank. */
  lemma {:induction false} TextElementsExact(ps: seq<string>, e: SlideElement)
    ensures e in TextElements(ps) <==> e.TextElement? && e.text in ps && !IsBlank(e.text)
  {
    if |ps| > 0 {
      var n := |ps| - 1;
      TextElementsExact(ps[..n], e);
      assert ps == ps[..n] + [ps[n]];
    }
  }

  /** `sc` carries the number of a slide of `slides` and exactly that slide's elements, which are not empty. */
  predicate KeptSlide(slides: seq<Slide>, sc: SlideContent) {
    1 <= sc.slideNumber <= |slides| &&
    sc.elements == SlideElements(slides[sc.slideNumber - 1].shapes) &&
    sc.elements != []
  }

  lemma KeptSlideExtends(slides: seq<Slide>, sc: SlideContent)
    requires |slides| > 0 && KeptSlide(slides[..|slides| - 1], sc)
    ensures KeptSlide(slides, sc)
  {
    assert slides[..|slides| - 1][sc.slideNumber - 1] == slides[sc.slideNumber - 1];
  }

  /** Each emitted slide carries the number of its position plus one and exactly the non-empty elements of the slide there. */
  lemma {:induction false} PptSlidesNumbered(slides: seq<Slide>)
    ensures forall k :: 0 <= k < |PptContent(slides)| ==> KeptSlide(slides, PptContent(slides)[k])
  {
    if |slides| > 0 {
      var n := |slides| - 1;
      PptSlidesNumbered(slides[..n]);
      PptContentLast(slides);
      var c := PptContent(slides);
      var prefix := PptContent(slides[..n]);
      forall k | 0 <= k < |c| ensures KeptSlide(slides, c[k]) {
        if k < |prefix| {
          assert c[k] == prefix[k];
          KeptSlideExtends(slides, prefix[k]);
        }
      }
    }
  }

  /** Slide numbers strictly increase along the output. */
  lemma {:induction false} PptSlideNumbersIncreasing(slides: seq<Slide>)
    ensures forall i, j :: 0 <= i < j < |PptContent(slides)| ==>
      PptContent(slides)[i].slideNumber < PptContent(slides)[j].slideNumber
  {
    if |slides| > 0 {
      var n := |slides| - 1;
      PptSlideNumbersIncreasing(slides[..n]);
      PptSlideNumbersBelow(slides[..n]);
      PptContentLast(slides);
      var c := PptContent(slides);
      var prefix := PptContent(slides[..n]);
      forall k | 0 <= k < |prefix| ensures c[k] == prefix[k] { }
    }
  }

  /** Some slide of `c` carries the number `num`. */
  predicate HasSlide(c: seq<SlideContent>, num: nat) {
    exists k :: 0 <= k < |c| && c[k].slideNumber == num
  }

  lemma HasSlideAppend(a: seq<SlideContent>, b: seq<SlideContent>, num: nat)
    ensures HasSlide(a + b, num) <==> HasSlide(a, num) || HasSlide(b, num)
  {
    if HasSlide(a + b, num) {
      var k :| 0 <= k < |a + b| && (a + b)[k].slideNumber == num;
      if k >= |a| { assert b[k - |a|].slideNumber == num; }
    }
    if HasSlide(a, num) {
      var k :| 0 <= k < |a| && a[k].slideNumber == num;
      assert (a + b)[k].slideNumber == num;
    }
    if HasSlide(b, num) {
      var k :| 0 <= k < |b| && b[k].slideNumber == num;
      assert (a + b)[k + |a|].slideNumber == num;
    }
  }

  /** The result for `slides` is the result for all but the last slide, then the last one if it is kept. */
  lemma PptContentLast(slides: seq<Slide>)
    requires |slides| > 0
    ensures var n := |slides| - 1;
      var elements := SlideElements(slides[n].shapes);
      PptContent(slides) == PptContent(slides[..n]) + (if elements == [] then [] else [SlideContent(n + 1, elements)])
  {
  }

  /** The last slide is kept exactly when it has elements. */
  lemma PptLastSlideKept(slides: seq<Slide>)
    requires |slides| > 0
    ensures HasSlide(PptContent(slides), |slides|) <==> SlideElements(slides[|slides| - 1].shapes) != []
  {
    var n := |slides| - 1;
    var elements := SlideElements(slides[n].shapes);
    var tail := if elements == [] then [] else [SlideContent(n + 1, elements)];
    PptContentLast(slides);
    HasSlideAppend(PptContent(slides[..n]), tail, n + 1);
    PptSlideNumbersBelow(slides[..n]);
    assert !HasSlide(PptContent(slides[..n]), n + 1);
    if elements != [] { assert tail[0].slideNumber == n + 1; }
  }

  /** Appending a slide does not change whether an earlier slide is kept. */
  lemma PptEarlierSlideKept(slides: seq<Slide>, i: nat)
    requires i < |slides| - 1
    ensures HasSlide(PptContent(slides), i + 1) <==> HasSlide(PptContent(slides[..|slides| - 1]), i + 1)
  {
    var n := |slides| - 1;
    var elements := SlideElements(slides[n].shapes);
    var tail := if elements == [] then [] else [SlideContent(n + 1, elements)];
    PptContentLast(slides);
    HasSlideAppend(PptContent(slides[..n]), tail, i + 1);
    forall k | 0 <= k < |tail| ensures tail[k].slideNumber != i + 1 { }
    assert !HasSlide(tail, i + 1);
  }

  /** A slide appears in the output exactly when it has at least one element: the others are dropped. */
  lemma {:induction false} PptSlideKeptIffNonEmpty(slides: seq<Slide>, i: nat)
    requires i < |slides|
    ensures HasSlide(PptContent(slides), i + 1) <==> SlideElements(slides[i].shapes) != []
  {
    var n := |slides| - 1;
    if i < n {
      PptEarlierSlideKept(slides, i);
      PptSlideKeptIffNonEmpty(slides[..n], i);
      assert slides[..n][i] == slides[i];
    } else {
      PptLastSlideKept(slides);
    }
  }

  lemma {:induction false} PptSlideNumbersBelow(slides: seq<Slide>)
    ensures forall k :: 0 <= k < |PptContent(slides)| ==> PptContent(slides)[k].slideNumber <= |slides|
  {
    if |slides| > 0 {
      PptSlideNumbersBelow(slides[..|slides| - 1]);
    }
  }

  /** The Word output is empty exactly when the document has no table and every paragraph is blank. */
  lemma WordContentEmpty(doc: WordDocument)
    ensures WordContent(doc) == [] <==>
      |doc.tables| == 0 && forall i :: 0 <= i < |doc.paragraphs| ==> IsBlank(doc.paragraphs[i])
  {
    var ps := doc.paragraphs;
    TableEntriesExact(doc.tables, |ps|);
    if exists i :: 0 <= i < |ps| && !IsBlank(ps[i]) {
      var i :| 0 <= i < |ps| && !IsBlank(ps[i]);
      ParagraphEntriesExact(ps, ParagraphEntry(ps[i], i));
    }
    if ParagraphEntries(ps) != [] {
      var e := ParagraphEntries(ps)[0];
      ParagraphEntriesExact(ps, e);
    }
  }

  /** The PowerPoint output is empty exactly when no slide has an element. */
  lemma PptContentEmpty(slides: seq<Slide>)
    ensures PptContent(slides) == [] <==> forall i :: 0 <= i < |slides| ==> SlideElements(slides[i].shapes) == []
  {
    if exists i :: 0 <= i < |slides| && SlideElements(slides[i].shapes) != [] {
      var i :| 0 <= i < |slides| && SlideElements(slides[i].shapes) != [];
      PptSlideKeptIffNonEmpty(slides, i);
    }
    if PptContent(slides) != [] {
      PptSlidesNumbered(slides);
      var sc := PptContent(slides)[0];
      assert KeptSlide(slides, sc);
      assert SlideElements(slides[sc.slideNumber - 1].shapes) != [];
    }
  }
}
