/** The DjVu hidden-text geometry parser (class PhpDjvu).

    The XML is given as the tree that simplexml presents. An access such as
    `$col->REGION->PARAGRAPH` reads the PARAGRAPH children of the FIRST REGION
    only, so each level below keeps all its children in a sequence and the
    functions that walk it take the first element where PHP does. Loading the
    file is not modelled: the constructor receives the parsed document. */
module Djvu {
  import opened PhpStrings

  // ---------------------------------------------------------------------------
  // The XML input
  // ---------------------------------------------------------------------------

  datatype Param = Param(name: string, value: string)
  /** A WORD element: its text and its `coords` attribute. */
  datatype XWord = XWord(text: string, coords: string)
  datatype XLine = XLine(words: seq<XWord>)
  datatype XParagraph = XParagraph(lines: seq<XLine>)
  datatype XRegion = XRegion(paragraphs: seq<XParagraph>)
  datatype XColumn = XColumn(regions: seq<XRegion>)
  datatype XHiddenText = XHiddenText(columns: seq<XColumn>)
  /** An OBJECT element: one page, with its PARAM children and its text layer. */
  datatype XObject = XObject(params: seq<Param>, hiddenTexts: seq<XHiddenText>)
  datatype XBody = XBody(objects: seq<XObject>)
  datatype XDocument = XDocument(bodies: seq<XBody>)

  /** `$xml->BODY->OBJECT`: the pages of the first BODY. */
  function Objects(doc: XDocument): seq<XObject> {
    if |doc.bodies| == 0 then [] else doc.bodies[0].objects
  }

  /** `$page->HIDDENTEXT->PAGECOLUMN`: the columns of the first HIDDENTEXT. */
  function Columns(page: XObject): seq<XColumn> {
    if |page.hiddenTexts| == 0 then [] else page.hiddenTexts[0].columns
  }

  /** `$col->REGION->PARAGRAPH`: the paragraphs of the column's first REGION. */
  function Paragraphs(col: XColumn): seq<XParagraph> {
    if |col.regions| == 0 then [] else col.regions[0].paragraphs
  }

  // ---------------------------------------------------------------------------
  // Parsed records
  // ---------------------------------------------------------------------------

  /** A word with its box in source pixels. */
  datatype Word = Word(text: string, x1: int, y1: int, x2: int, y2: int)
  datatype Box = Box(x1: int, y1: int, x2: int, y2: int)
  /** A line: its words, their texts joined, and its bounding envelope. */
  datatype Line = Line(words: seq<Word>, text: string, x1: int, y1: int, x2: int, y2: int)
  datatype PageRecord = PageRecord(name: string, dpi: Option<string>, lines: seq<Line>, sequence: nat)

  /** A line or word as the getters return it, coordinates scaled. */
  datatype ScaledLine = ScaledLine(words: seq<Word>, text: string, x: real, y: real, w: real, h: real)
  datatype ScaledWord = ScaledWord(text: string, x: real, y: real, w: real, h: real)

  /** Starting values of the min and max accumulators of a line's envelope. */
  const MinSentinel: int := 10000000
  const MaxSentinel: int := 0

  // ---------------------------------------------------------------------------
  // Page parameters and names
  // ---------------------------------------------------------------------------

  /** The value of the first parameter with the given name, if any. */
  function FirstParam(ps: seq<Param>, name: string): (r: Option<string>)
    ensures r.None? <==> forall i :: 0 <= i < |ps| ==> ps[i].name != name
    ensures r.Some? ==> exists i :: 0 <= i < |ps| && ps[i] == Param(name, r.value)
                                      && forall j :: 0 <= j < i ==> ps[j].name != name
    decreases |ps|
  {
    if |ps| == 0 then None
    else if ps[0].name == name then
      assert ps[0] == Param(name, ps[0].value);
      Some(ps[0].value)
    else
      var r := FirstParam(ps[1..], name);
      assert forall i :: 1 <= i < |ps| ==> ps[i] == ps[1..][i - 1];
      if r.None? then r
      else
        var i :| 0 <= i < |ps[1..]| && ps[1..][i] == Param(name, r.value)
                 && forall j :: 0 <= j < i ==> ps[1..][j].name != name;
        assert ps[i + 1] == Param(name, r.value);
        r
  }

  /** _get_object_param: the value of the first PARAM with the given name, or null. */
  function ObjectParam(page: XObject, name: string): Option<string> {
    FirstParam(page.params, name)
  }

  /** `\..{3,4}$` matches at i with n characters after the dot. */
  predicate ExtensionAt(s: string, i: int, n: int) {
    0 <= i && 0 <= n && i + 1 + n <= |s| && s[i] == '.'
    && '\n' !in s[i + 1..i + 1 + n]
    && AtDollar(s, i + 1 + n)
  }

  predicate ExtensionStartsAt(s: string, i: int) {
    ExtensionAt(s, i, 4) || ExtensionAt(s, i, 3)
  }

  /** The leftmost match of `\..{3,4}$` at or after i (four characters preferred
      to three at the same position, as the quantifier is greedy). */
  function FindExtension(s: string, i: nat): (r: Option<(nat, nat)>)
    ensures r.Some? ==> r.value.0 + 1 + r.value.1 <= |s|
    decreases |s| - i
  {
    if i >= |s| then None
    else if ExtensionAt(s, i, 4) then Some((i, 4))
    else if ExtensionAt(s, i, 3) then Some((i, 3))
    else FindExtension(s, i + 1)
  }

  /** FindExtension finds nothing iff no position matches, and otherwise the
      leftmost match, with the longer extension when both lengths match there. */
  lemma {:induction false} FindExtensionIsLeftmost(s: string, i: nat)
    ensures var r := FindExtension(s, i);
      (r.None? <==> forall j :: i <= j < |s| ==> !ExtensionStartsAt(s, j))
      && (r.Some? ==>
            i <= r.value.0 && ExtensionAt(s, r.value.0, r.value.1)
            && (r.value.1 == 4 || (r.value.1 == 3 && !ExtensionAt(s, r.value.0, 4)))
            && forall j :: i <= j < r.value.0 ==> !ExtensionStartsAt(s, j))
    decreases |s| - i
  {
    if i < |s| {
      if ExtensionStartsAt(s, i) {
      } else {
        FindExtensionIsLeftmost(s, i + 1);
      }
    }
  }

  /** preg_replace('/\..{3,4}$/', '', s): drop a 3- or 4-character extension. */
  function StripExtension(s: string): string {
    match FindExtension(s, 0)
    case None => s
    case Some((at, n)) => s[..at] + s[at + 1 + n..]
  }

  /** A name without a dot keeps its form. */
  lemma NoDotNoChange(s: string)
    requires '.' !in s
    ensures StripExtension(s) == s
  {
    forall j | 0 <= j < |s|
      ensures !ExtensionStartsAt(s, j)
    {
      assert s[j] in s;
    }
    FindExtensionIsLeftmost(s, 0);
  }

  /** A 3- or 4-character extension after the last dot is removed with its dot. */
  lemma StripKnownExtension(base: string, ext: string)
    requires 3 <= |ext| <= 4 && '\n' !in ext && '.' !in ext
    requires base == [] || base[|base| - 1] != '.'
    ensures StripExtension(base + "." + ext) == base
  {
    var s := base + "." + ext;
    var d := |base|;
    assert s[d] == '.';
    assert s[|s| - 1] == ext[|ext| - 1];
    assert ext[|ext| - 1] in ext;
    assert forall j :: d + 1 <= j < |s| ==> s[j] == ext[j - d - 1];
    assert ExtensionAt(s, d, |ext|);
    forall j | 0 <= j < d
      ensures !ExtensionStartsAt(s, j)
    {
      if j == d - 1 {
        assert s[j] == base[d - 1];
      }
    }
    assert ExtensionStartsAt(s, d);
    FindExtensionIsLeftmost(s, 0);
    var r := FindExtension(s, 0);
    assert r.value.0 == d;
    assert r.value.1 == |ext|;
    assert s[..d] == base;
    assert s[d + 1 + |ext|..] == [];
  }

  /** A page's name: its PAGE parameter (null reads as "") without extension. */
  function PageName(page: XObject): string {
    StripExtension(ObjectParam(page, "PAGE").GetOr(""))
  }

  // ---------------------------------------------------------------------------
  // Words and lines
  // ---------------------------------------------------------------------------

  /** The i-th comma-separated coordinate field; a missing field reads as 0. */
  function Field(fields: seq<string>, i: nat): nat {
    if i < |fields| then NumeralValue(fields[i]) else 0
  }

  /** A WORD's coords are "x1,y2,x2,y1,unused": field 0 is x1, 3 is y1, 2 is x2, 1 is y2. */
  function DecodeWord(w: XWord): Word {
    var f := Explode(w.coords, ',');
    Word(w.text, Field(f, 0), Field(f, 3), Field(f, 2), Field(f, 1))
  }

  /** How the DjVu XML writes a word's box: x1, y2, x2, y1 and an unused field. */
  function EncodeCoords(x1: nat, y1: nat, x2: nat, y2: nat, unused: nat): string {
    Implode(",", [ShowNat(x1), ShowNat(y2), ShowNat(x2), ShowNat(y1), ShowNat(unused)])
  }

  lemma DigitsHaveNoComma(s: string)
    requires AllDigits(s)
    ensures ',' !in s
  {
    forall i | 0 <= i < |s|
      ensures s[i] != ','
    {
      assert IsDigit(s[i]);
    }
  }

  /** Decoding the coords the DjVu XML writes recovers the box exactly. */
  lemma DecodeEncodeCoords(text: string, x1: nat, y1: nat, x2: nat, y2: nat, unused: nat)
    ensures DecodeWord(XWord(text, EncodeCoords(x1, y1, x2, y2, unused))) == Word(text, x1, y1, x2, y2)
  {
    var parts := [ShowNat(x1), ShowNat(y2), ShowNat(x2), ShowNat(y1), ShowNat(unused)];
    forall i | 0 <= i < |parts|
      ensures ',' !in parts[i]
    {
      DigitsHaveNoComma(parts[i]);
    }
    ExplodeImplode(parts, ',');
    NumeralValueOfShowNat(x1);
    NumeralValueOfShowNat(y1);
    NumeralValueOfShowNat(x2);
    NumeralValueOfShowNat(y2);
  }

  /** The field-order example: "100,250,300,50,0" is the box x1=100, y1=50, x2=300, y2=250. */
  lemma DecodeExample()
    ensures DecodeWord(XWord("Aus", "100,250,300,50,0")) == Word("Aus", 100, 50, 300, 250)
  {
    ExampleCoords();
    DecodeEncodeCoords("Aus", 100, 50, 300, 250, 0);
  }

  lemma ExampleCoords()
    ensures EncodeCoords(100, 50, 300, 250, 0) == "100,250,300,50,0"
  {
    ExampleNumerals();
    ExampleJoin();
  }

  lemma ExampleNumerals()
    ensures ShowNat(100) == "100" && ShowNat(250) == "250" && ShowNat(300) == "300"
    ensures ShowNat(50) == "50" && ShowNat(0) == "0"
  {
    assert ShowNat(10) == "10";
    assert ShowNat(25) == "25";
    assert ShowNat(30) == "30";
  }

  lemma ExampleJoin()
    ensures Implode(",", ["100", "250", "300", "50", "0"]) == "100,250,300,50,0"
  {
    assert Implode(",", ["50", "0"]) == "50,0";
    assert Implode(",", ["300", "50", "0"]) == "300,50,0";
    assert Implode(",", ["250", "300", "50", "0"]) == "250,300,50,0";
  }

  /** One accumulator step: keep the smaller x1, y1 and the larger x2, y2. */
  function Step(b: Box, w: Word): Box {
    Box(if b.x1 > w.x1 then w.x1 else b.x1,
        if b.y1 > w.y1 then w.y1 else b.y1,
        if b.x2 < w.x2 then w.x2 else b.x2,
        if b.y2 < w.y2 then w.y2 else b.y2)
  }

  /** The accumulators after the given words, starting from the sentinels. */
  function Envelope(ws: seq<Word>): Box
    decreases |ws|
  {
    if ws == [] then Box(MinSentinel, MinSentinel, MaxSentinel, MaxSentinel)
    else Step(Envelope(ws[..|ws| - 1]), ws[|ws| - 1])
  }

  /** Coordinates the sentinels can bound: within [0, 10000000]. */
  predicate InRange(w: Word) {
    0 <= w.x1 <= MinSentinel && 0 <= w.y1 <= MinSentinel
    && 0 <= w.x2 <= MinSentinel && 0 <= w.y2 <= MinSentinel
  }

  /** b is the envelope of the words: no word lies outside it and each side
      is touched by a word. */
  predicate Encloses(b: Box, ws: seq<Word>) {
    (forall i :: 0 <= i < |ws| ==> b.x1 <= ws[i].x1 && b.y1 <= ws[i].y1 && ws[i].x2 <= b.x2 && ws[i].y2 <= b.y2)
    && (exists i :: 0 <= i < |ws| && b.x1 == ws[i].x1)
    && (exists i :: 0 <= i < |ws| && b.y1 == ws[i].y1)
    && (exists i :: 0 <= i < |ws| && b.x2 == ws[i].x2)
    && (exists i :: 0 <= i < |ws| && b.y2 == ws[i].y2)
  }

  /** For in-range coordinates the accumulated box is exactly the envelope of
      the words. */
  lemma {:induction false} EnvelopeIsTight(ws: seq<Word>)
    requires |ws| > 0
    requires forall i :: 0 <= i < |ws| ==> InRange(ws[i])
    ensures Encloses(Envelope(ws), ws)
    decreases |ws|
  {
    var n := |ws|;
    var pre := ws[..n - 1];
    var last := ws[n - 1];
    if n == 1 {
      assert Envelope(ws) == Step(Envelope([]), last);
    } else {
      EnvelopeIsTight(pre);
      var b0 := Envelope(pre);
      var b := Envelope(ws);
      assert b == Step(b0, last);
      forall i | 0 <= i < n
        ensures b.x1 <= ws[i].x1 && b.y1 <= ws[i].y1 && ws[i].x2 <= b.x2 && ws[i].y2 <= b.y2
      {
        if i < n - 1 { assert ws[i] == pre[i]; }
      }
      if b.x1 == last.x1 { assert b.x1 == ws[n - 1].x1; }
      else { var i :| 0 <= i < n - 1 && b0.x1 == pre[i].x1; assert b.x1 == ws[i].x1; }
      if b.y1 == last.y1 { assert b.y1 == ws[n - 1].y1; }
      else { var i :| 0 <= i < n - 1 && b0.y1 == pre[i].y1; assert b.y1 == ws[i].y1; }
      if b.x2 == last.x2 { assert b.x2 == ws[n - 1].x2; }
      else { var i :| 0 <= i < n - 1 && b0.x2 == pre[i].x2; assert b.x2 == ws[i].x2; }
      if b.y2 == last.y2 { assert b.y2 == ws[n - 1].y2; }
      else { var i :| 0 <= i < n - 1 && b0.y2 == pre[i].y2; assert b.y2 == ws[i].y2; }
    }
  }

  /** Outside that range the min sentinel wins: a line whose words all start
      beyond 10000000 reports x1 = 10000000. */
  lemma {:induction false} EnvelopeClampsAtSentinel(ws: seq<Word>)
    requires forall i :: 0 <= i < |ws| ==> ws[i].x1 > MinSentinel
    ensures Envelope(ws).x1 == MinSentinel
    decreases |ws|
  {
    if ws != [] {
      EnvelopeClampsAtSentinel(ws[..|ws| - 1]);
    }
  }

  /** The words of a LINE, decoded, in document order. */
  function DecodeWords(xs: seq<XWord>): (ws: seq<Word>)
    ensures |ws| == |xs|
    ensures forall i :: 0 <= i < |xs| ==> ws[i] == DecodeWord(xs[i])
    decreases |xs|
  {
    if xs == [] then [] else DecodeWords(xs[..|xs| - 1]) + [DecodeWord(xs[|xs| - 1])]
  }

  function WordTexts(xs: seq<XWord>): (ts: seq<string>)
    ensures |ts| == |xs|
    ensures forall i :: 0 <= i < |xs| ==> ts[i] == xs[i].text
    decreases |xs|
  {
    if xs == [] then [] else WordTexts(xs[..|xs| - 1]) + [xs[|xs| - 1].text]
  }

  /** The record _parse_words stores for one LINE. */
  function LineOf(ln: XLine): Line {
    var ws := DecodeWords(ln.words);
    var b := Envelope(ws);
    Line(ws, Implode(" ", WordTexts(ln.words)), b.x1, b.y1, b.x2, b.y2)
  }

  /** A stored line keeps every word in order, its text is the words' texts
      joined by single spaces, and for in-range coordinates its box is the
      envelope of its words. */
  lemma LineOfWords(ln: XLine)
    ensures |LineOf(ln).words| == |ln.words|
    ensures forall i :: 0 <= i < |ln.words| ==> LineOf(ln).words[i] == DecodeWord(ln.words[i])
    ensures LineOf(ln).text == Implode(" ", WordTexts(ln.words))
    ensures |ln.words| > 0 && (forall i :: 0 <= i < |ln.words| ==> InRange(DecodeWord(ln.words[i]))) ==>
      var l := LineOf(ln);
      Encloses(Box(l.x1, l.y1, l.x2, l.y2), l.words)
  {
    var ws := DecodeWords(ln.words);
    if |ln.words| > 0 && (forall i :: 0 <= i < |ln.words| ==> InRange(DecodeWord(ln.words[i]))) {
      assert forall i :: 0 <= i < |ws| ==> InRange(ws[i]);
      EnvelopeIsTight(ws);
    }
  }

  /** The lines of a PARAGRAPH, in order, LINEs without WORD dropped. */
  function LinesOf(lns: seq<XLine>): (r: seq<Line>)
    ensures |r| <= |lns|
    decreases |lns|
  {
    if lns == [] then []
    else
      var last := lns[|lns| - 1];
      LinesOf(lns[..|lns| - 1]) + (if |last.words| == 0 then [] else [LineOf(last)])
  }

  /** The lines of a column's paragraphs, paragraph after paragraph. */
  function ParagraphsLines(ps: seq<XParagraph>): seq<Line>
    decreases |ps|
  {
    if ps == [] then [] else ParagraphsLines(ps[..|ps| - 1]) + LinesOf(ps[|ps| - 1].lines)
  }

  /** The lines of a page's columns, column after column. */
  function ColumnsLines(cs: seq<XColumn>): seq<Line>
    decreases |cs|
  {
    if cs == [] then [] else ColumnsLines(cs[..|cs| - 1]) + ParagraphsLines(Paragraphs(cs[|cs| - 1]))
  }

  /** _parse_words: the lines of a page in column, paragraph, line order. */
  function PageLines(page: XObject): seq<Line> {
    ColumnsLines(Columns(page))
  }

  /** No stored line is empty. */
  predicate AllHaveWords(lines: seq<Line>) {
    forall i :: 0 <= i < |lines| ==> |lines[i].words| > 0
  }

  lemma HaveWordsAppend(a: seq<Line>, b: seq<Line>)
    requires AllHaveWords(a) && AllHaveWords(b)
    ensures AllHaveWords(a + b)
  {
    forall i | 0 <= i < |a + b| ensures |(a + b)[i].words| > 0 {
      if i >= |a| { assert (a + b)[i] == b[i - |a|]; }
    }
  }

  lemma {:induction false} LinesOfHaveWords(lns: seq<XLine>)
    ensures AllHaveWords(LinesOf(lns))
    decreases |lns|
  {
    if lns != [] {
      var last := lns[|lns| - 1];
      LinesOfHaveWords(lns[..|lns| - 1]);
      HaveWordsAppend(LinesOf(lns[..|lns| - 1]), if |last.words| == 0 then [] else [LineOf(last)]);
    }
  }

  lemma {:induction false} ParagraphsLinesHaveWords(ps: seq<XParagraph>)
    ensures AllHaveWords(ParagraphsLines(ps))
    decreases |ps|
  {
    if ps != [] {
      ParagraphsLinesHaveWords(ps[..|ps| - 1]);
      LinesOfHaveWords(ps[|ps| - 1].lines);
      HaveWordsAppend(ParagraphsLines(ps[..|ps| - 1]), LinesOf(ps[|ps| - 1].lines));
    }
  }

  lemma {:induction false} ColumnsLinesHaveWords(cs: seq<XColumn>)
    ensures AllHaveWords(ColumnsLines(cs))
    decreases |cs|
  {
    if cs != [] {
      ColumnsLinesHaveWords(cs[..|cs| - 1]);
      ParagraphsLinesHaveWords(Paragraphs(cs[|cs| - 1]));
      HaveWordsAppend(ColumnsLines(cs[..|cs| - 1]), ParagraphsLines(Paragraphs(cs[|cs| - 1])));
    }
  }

  /** A LINE without WORD is never stored: every line of a page has a word. */
  lemma PageLinesHaveWords(page: XObject)
    ensures forall i :: 0 <= i < |PageLines(page)| ==> |PageLines(page)[i].words| > 0
  {
    ColumnsLinesHaveWords(Columns(page));
  }

  /** Every word of a run of lines, line after line. */
  function AllWords(lines: seq<Line>): seq<Word>
    decreases |lines|
  {
    if lines == [] then [] else AllWords(lines[..|lines| - 1]) + lines[|lines| - 1].words
  }

  /** Every WORD under the given LINEs, decoded, in document order. */
  function XLinesWords(lns: seq<XLine>): seq<Word>
    decreases |lns|
  {
    if lns == [] then [] else XLinesWords(lns[..|lns| - 1]) + DecodeWords(lns[|lns| - 1].words)
  }

  function XParagraphsWords(ps: seq<XParagraph>): seq<Word>
    decreases |ps|
  {
    if ps == [] then [] else XParagraphsWords(ps[..|ps| - 1]) + XLinesWords(ps[|ps| - 1].lines)
  }

  function XColumnsWords(cs: seq<XColumn>): seq<Word>
    decreases |cs|
  {
    if cs == [] then [] else XColumnsWords(cs[..|cs| - 1]) + XParagraphsWords(Paragraphs(cs[|cs| - 1]))
  }

  lemma {:induction false} AllWordsAppend(a: seq<Line>, b: seq<Line>)
    ensures AllWords(a + b) == AllWords(a) + AllWords(b)
    decreases |b|
  {
    if b == [] {
      assert a + b == a;
    } else {
      var n := |b| - 1;
      assert (a + b)[..|a + b| - 1] == a + b[..n];
      assert (a + b)[|a + b| - 1] == b[n];
      assert AllWords(a + b) == AllWords(a + b[..n]) + b[n].words;
      AllWordsAppend(a, b[..n]);
      AppendAssoc(AllWords(a), AllWords(b[..n]), b[n].words);
    }
  }

  lemma {:induction false} LinesOfKeepsWords(lns: seq<XLine>)
    ensures AllWords(LinesOf(lns)) == XLinesWords(lns)
    decreases |lns|
  {
    if lns != [] {
      var last := lns[|lns| - 1];
      LinesOfKeepsWords(lns[..|lns| - 1]);
      var tail := if |last.words| == 0 then [] else [LineOf(last)];
      AllWordsAppend(LinesOf(lns[..|lns| - 1]), tail);
      if |last.words| != 0 {
        assert AllWords(tail) == AllWords([]) + LineOf(last).words;
      }
    }
  }

  lemma {:induction false} ParagraphsKeepWords(ps: seq<XParagraph>)
    ensures AllWords(ParagraphsLines(ps)) == XParagraphsWords(ps)
    decreases |ps|
  {
    if ps != [] {
      ParagraphsKeepWords(ps[..|ps| - 1]);
      LinesOfKeepsWords(ps[|ps| - 1].lines);
      AllWordsAppend(ParagraphsLines(ps[..|ps| - 1]), LinesOf(ps[|ps| - 1].lines));
    }
  }

  /** No word is lost or reordered: the words of a page's lines are exactly the
      WORDs the page holds (under the first HIDDENTEXT and each column's first
      REGION), in document order. Dropping word-less LINEs loses nothing. */
  lemma {:induction false} PageLinesKeepWords(cs: seq<XColumn>)
    ensures AllWords(ColumnsLines(cs)) == XColumnsWords(cs)
    decreases |cs|
  {
    if cs != [] {
      PageLinesKeepWords(cs[..|cs| - 1]);
      ParagraphsKeepWords(Paragraphs(cs[|cs| - 1]));
      AllWordsAppend(ColumnsLines(cs[..|cs| - 1]), ParagraphsLines(Paragraphs(cs[|cs| - 1])));
    }
  }

  // ---------------------------------------------------------------------------
  // Pages and the sequence index
  // ---------------------------------------------------------------------------

  /** The record _parse_pages stores for one OBJECT with the given sequence number. */
  function PageRecordOf(page: XObject, sequence: nat): PageRecord {
    PageRecord(PageName(page), ObjectParam(page, "DPI"), PageLines(page), sequence)
  }

  function PageNames(objs: seq<XObject>): (r: seq<string>)
    ensures |r| == |objs|
    ensures forall i :: 0 <= i < |objs| ==> r[i] == PageName(objs[i])
    decreases |objs|
  {
    if objs == [] then [] else PageNames(objs[..|objs| - 1]) + [PageName(objs[|objs| - 1])]
  }

  /** The pages map after storing the given OBJECTs, numbered from 1, into m. */
  function StorePages(m: map<string, PageRecord>, objs: seq<XObject>): map<string, PageRecord>
    decreases |objs|
  {
    if objs == [] then m
    else
      var n := |objs|;
      StorePages(m, objs[..n - 1])[PageName(objs[n - 1]) := PageRecordOf(objs[n - 1], n)]
  }

  /** A name is stored iff it was there before or some OBJECT carries it. */
  lemma {:induction false} StoredNames(m: map<string, PageRecord>, objs: seq<XObject>, name: string)
    ensures name in StorePages(m, objs) <==> name in m || name in PageNames(objs)
    decreases |objs|
  {
    if objs != [] {
      var pre := objs[..|objs| - 1];
      StoredNames(m, pre, name);
      assert PageNames(objs) == PageNames(pre) + [PageName(objs[|objs| - 1])];
    }
  }

  /** A name no OBJECT carries keeps the record it had. */
  lemma {:induction false} UnnamedPageKept(m: map<string, PageRecord>, objs: seq<XObject>, name: string)
    requires name in m && name !in PageNames(objs)
    ensures name in StorePages(m, objs) && StorePages(m, objs)[name] == m[name]
    decreases |objs|
  {
    if objs != [] {
      var pre := objs[..|objs| - 1];
      assert PageNames(objs) == PageNames(pre) + [PageName(objs[|objs| - 1])];
      UnnamedPageKept(m, pre, name);
    }
  }

  /** When several OBJECTs share a name, the record kept is that of the LAST
      one, with its 1-based position as sequence number. */
  lemma {:induction false} LastPageWins(m: map<string, PageRecord>, objs: seq<XObject>, j: nat)
    requires j < |objs|
    requires forall i :: j < i < |objs| ==> PageName(objs[i]) != PageName(objs[j])
    ensures PageName(objs[j]) in StorePages(m, objs)
    ensures StorePages(m, objs)[PageName(objs[j])] == PageRecordOf(objs[j], j + 1)
    decreases |objs|
  {
    var n := |objs|;
    StoreLast(m, objs);
    if j < n - 1 {
      var pre := objs[..n - 1];
      LastInPrefix(objs, pre, j);
      LastPageWins(m, pre, j);
      StoreOther(StorePages(m, pre), PageName(objs[n - 1]), PageRecordOf(objs[n - 1], n), PageName(objs[j]));
    }
  }

  /** An OBJECT that is the last with its name stays so in a prefix holding
      it, and the OBJECT cut off carries another name. */
  lemma LastInPrefix(objs: seq<XObject>, pre: seq<XObject>, j: nat)
    requires j < |objs| - 1 && pre == objs[..|objs| - 1]
    requires forall i :: j < i < |objs| ==> PageName(objs[i]) != PageName(objs[j])
    ensures pre[j] == objs[j]
    ensures PageName(objs[|objs| - 1]) != PageName(objs[j])
    ensures forall i :: j < i < |pre| ==> PageName(pre[i]) != PageName(pre[j])
  {
    forall i | j < i < |pre|
      ensures PageName(pre[i]) != PageName(pre[j])
    {
      assert pre[i] == objs[i];
    }
  }

  /** One more step of _parse_pages: the next OBJECT's record under its name,
      and its name at the end of the sequence index. */
  lemma StoreStep(m: map<string, PageRecord>, objs: seq<XObject>, k: nat)
    requires k < |objs|
    ensures StorePages(m, objs[..k + 1]) == StorePages(m, objs[..k])[PageName(objs[k]) := PageRecordOf(objs[k], k + 1)]
    ensures PageNames(objs[..k + 1]) == PageNames(objs[..k]) + [PageName(objs[k])]
  {
    assert objs[..k + 1][..k] == objs[..k];
  }

  /** Storing one more OBJECT updates its name only. */
  lemma StoreLast(m: map<string, PageRecord>, objs: seq<XObject>)
    requires objs != []
    ensures StorePages(m, objs)
      == StorePages(m, objs[..|objs| - 1])[PageName(objs[|objs| - 1]) := PageRecordOf(objs[|objs| - 1], |objs|)]
  {
  }

  lemma StoreOther(m: map<string, PageRecord>, k: string, v: PageRecord, name: string)
    requires name in m && name != k
    ensures name in m[k := v] && m[k := v][name] == m[name]
  {
  }

  // ---------------------------------------------------------------------------
  // Scaling
  // ---------------------------------------------------------------------------

  function ScaleLine(l: Line, factor: real, dpi: real): ScaledLine
    requires dpi != 0.0
  {
    ScaledLine(l.words, l.text,
               (l.x1 as real) * factor / dpi, (l.y1 as real) * factor / dpi,
               ((l.x2 - l.x1) as real) * factor / dpi, ((l.y2 - l.y1) as real) * factor / dpi)
  }

  function ScaleWord(w: Word, factor: real, dpi: real): ScaledWord
    requires dpi != 0.0
  {
    ScaledWord(w.text,
               (w.x1 as real) * factor / dpi, (w.y1 as real) * factor / dpi,
               ((w.x2 - w.x1) as real) * factor / dpi, ((w.y2 - w.y1) as real) * factor / dpi)
  }

  /** With factor = dpi = 1 the raw box comes back (origin, width, height). */
  lemma ScaleIdentity(l: Line)
    ensures ScaleLine(l, 1.0, 1.0) ==
      ScaledLine(l.words, l.text, l.x1 as real, l.y1 as real, (l.x2 - l.x1) as real, (l.y2 - l.y1) as real)
  {
  }

  /** Scaling is undone by the inverse factor: the raw box is recoverable. */
  lemma ScaleInverse(l: Line, factor: real, dpi: real)
    requires dpi != 0.0 && factor != 0.0
    ensures var s := ScaleLine(l, factor, dpi);
      s.x * dpi / factor == l.x1 as real && s.y * dpi / factor == l.y1 as real
      && (s.x + s.w) * dpi / factor == l.x2 as real && (s.y + s.h) * dpi / factor == l.y2 as real
  {
  }

  /** The divisor of GetPageLines and GetPageWords. A dpi of 0 is replaced by
      $page['dpi'] read before $page is looked up, that is from the page NAME:
      PHP 7 reads the non-numeric offset 'dpi' of a string as offset 0, so the
      divisor is the name's first byte ("" for an empty name), whose numeric
      value is the digit's, and 0 for any other byte. */
  function Divisor(page: string, dpi: real): (d: real)
    ensures dpi != 0.0 ==> d == dpi
    ensures dpi == 0.0 ==> (d != 0.0 <==> page != [] && '1' <= page[0] <= '9')
    ensures dpi == 0.0 ==> 0.0 <= d <= 9.0
  {
    if dpi != 0.0 then dpi
    else if page != [] && IsDigit(page[0]) then DigitValue(page[0]) as real
    else 0.0
  }

  /** What the page getters return: the scaled items, the exception for an
      unknown page, or NonFinite when the divisor is 0 and there is something
      to divide. PHP 7 only warns about a division by zero and goes on with
      INF or NAN coordinates, which this model does not represent. */
  datatype PageText<T> = Scaled(items: seq<T>) | NotFound(message: string) | NonFinite

  // ---------------------------------------------------------------------------
  // The parser object
  // ---------------------------------------------------------------------------

  /** The state of a parser object as a value: the page records by name and
      the sequence index. */
  datatype Book = Book(pages: map<string, PageRecord>, sequences: seq<string>)

  /** The entry of a sequence index at a 0-based position, or null. */
  function SequenceEntry(sequences: seq<string>, i: int): Option<string> {
    if 0 <= i < |sequences| then Some(sequences[i]) else None
  }

  class PhpDjvu {
    var filename: string
    /** Page records by page name. */
    var pages: map<string, PageRecord>
    /** Page names by 0-based position of their OBJECT. */
    var pageSequences: seq<string>

    /** new PhpDjvu($filename): parse the file when a name is given. */
    constructor (filename: string, xml: XDocument)
      ensures this.filename == filename
      ensures Truthy(filename) ==> pages == StorePages(map[], Objects(xml)) && pageSequences == PageNames(Objects(xml))
      ensures !Truthy(filename) ==> pages == map[] && pageSequences == []
    {
      this.filename := filename;
      pages := map[];
      pageSequences := [];
      new;
      if Truthy(filename) {
        ghost var names := PageNames(Objects(xml));
        assert [] + names == names;
        ParsePages(Objects(xml));
      }
    }

    /** File($filename): parse another file into the same object. The maps are
        not cleared, so pages accumulate and sequence slots are appended. */
    method File(filename: string, xml: XDocument)
      modifies this
      ensures this.filename == filename
      ensures Truthy(filename) ==>
        pages == StorePages(old(pages), Objects(xml)) && pageSequences == old(pageSequences) + PageNames(Objects(xml))
      ensures !Truthy(filename) ==> pages == old(pages) && pageSequences == old(pageSequences)
    {
      this.filename := filename;
      Init(xml);
    }

    method Init(xml: XDocument)
      modifies this`pages, this`pageSequences
      ensures Truthy(filename) ==>
        pages == StorePages(old(pages), Objects(xml)) && pageSequences == old(pageSequences) + PageNames(Objects(xml))
      ensures !Truthy(filename) ==> pages == old(pages) && pageSequences == old(pageSequences)
    {
      if Truthy(filename) {
        ParsePages(Objects(xml));
      }
    }

    /** _parse_pages: one record per OBJECT, numbered from 1, and its name
        appended to the sequence index. */
    method ParsePages(objs: seq<XObject>)
      modifies this`pages, this`pageSequences
      ensures pages == StorePages(old(pages), objs)
      ensures pageSequences == old(pageSequences) + PageNames(objs)
    {
      ghost var pages0, sequences0 := pages, pageSequences;
      var seqNo := 1;
      var k := 0;
      while k < |objs|
        invariant 0 <= k <= |objs| && seqNo == k + 1
        invariant pages == StorePages(pages0, objs[..k])
        invariant pageSequences == sequences0 + PageNames(objs[..k])
      {
        StoreStep(pages0, objs, k);
        AppendAssoc(sequences0, PageNames(objs[..k]), [PageName(objs[k])]);
        StorePage(objs[k], seqNo);
        assert pages == StorePages(pages0, objs[..k + 1]);
        assert pageSequences == sequences0 + PageNames(objs[..k + 1]);
        seqNo := seqNo + 1;
        k := k + 1;
      }
      assert objs[..k] == objs;
    }

    /** The body of the _parse_pages loop for one OBJECT. */
    method StorePage(page: XObject, seqNo: nat)
      modifies this`pages, this`pageSequences
      ensures pages == old(pages)[PageName(page) := PageRecordOf(page, seqNo)]
      ensures pageSequences == old(pageSequences) + [PageName(page)]
    {
      var pageName := ObjectParam(page, "PAGE");
      var dpi := ObjectParam(page, "DPI");
      var name := StripExtension(pageName.GetOr(""));
      var lines := ParseWords(page);
      pages := pages[name := PageRecord(name, dpi, lines, seqNo)];
      pageSequences := pageSequences + [name];
    }

    /** _parse_words: walk the columns of the page; a column whose first
        REGION has no PARAGRAPH is skipped. */
    static method ParseWords(page: XObject) returns (ret: seq<Line>)
      ensures ret == PageLines(page)
    {
      ret := [];
      var cols := Columns(page);
      var ci := 0;
      while ci < |cols|
        invariant 0 <= ci <= |cols|
        invariant ret == ColumnsLines(cols[..ci])
      {
        assert cols[..ci + 1][..ci] == cols[..ci];
        var pars := Paragraphs(cols[ci]);
        if |pars| == 0 {
          ci := ci + 1;
          continue;
        }
        var lines := ParseParagraphs(pars);
        ret := ret + lines;
        ci := ci + 1;
      }
      assert cols[..ci] == cols;
    }

    /** The paragraph loop of _parse_words; a PARAGRAPH without LINE is skipped. */
    static method ParseParagraphs(pars: seq<XParagraph>) returns (ret: seq<Line>)
      ensures ret == ParagraphsLines(pars)
    {
      ret := [];
      var pi := 0;
      while pi < |pars|
        invariant 0 <= pi <= |pars|
        invariant ret == ParagraphsLines(pars[..pi])
      {
        assert pars[..pi + 1][..pi] == pars[..pi];
        var lns := pars[pi].lines;
        if |lns| == 0 {
          pi := pi + 1;
          continue;
        }
        var lines := ParseLines(lns);
        ret := ret + lines;
        pi := pi + 1;
      }
      assert pars[..pi] == pars;
    }

    /** The line loop of _parse_words; a LINE without WORD is skipped. */
    static method ParseLines(lns: seq<XLine>) returns (ret: seq<Line>)
      ensures ret == LinesOf(lns)
    {
      ret := [];
      var li := 0;
      while li < |lns|
        invariant 0 <= li <= |lns|
        invariant ret == LinesOf(lns[..li])
      {
        assert lns[..li + 1][..li] == lns[..li];
        if |lns[li].words| == 0 {
          li := li + 1;
          continue;
        }
        var line := ParseLine(lns[li]);
        ret := ret + [line];
        li := li + 1;
      }
      assert lns[..li] == lns;
    }

    /** The word loop of _parse_words for one LINE: decode each WORD, collect
        its text, and move the min/max accumulators. */
    static method ParseLine(ln: XLine) returns (line: Line)
      ensures line == LineOf(ln)
    {
      var xs := ln.words;
      var words: seq<Word> := [];
      var lineText: seq<string> := [];
      var minW, minH, maxW, maxH := MinSentinel, MinSentinel, MaxSentinel, MaxSentinel;
      var wi := 0;
      while wi < |xs|
        invariant 0 <= wi <= |xs|
        invariant words == DecodeWords(xs[..wi])
        invariant lineText == WordTexts(xs[..wi])
        invariant Box(minW, minH, maxW, maxH) == Envelope(words)
      {
        assert xs[..wi + 1][..wi] == xs[..wi];
        var coords := Explode(xs[wi].coords, ',');
        var w := Word(xs[wi].text, Field(coords, 0), Field(coords, 3), Field(coords, 2), Field(coords, 1));
        assert w == DecodeWord(xs[wi]);
        assert (words + [w])[..|words|] == words;
        words := words + [w];
        lineText := lineText + [xs[wi].text];
        if minW > w.x1 { minW := w.x1; }
        if minH > w.y1 { minH := w.y1; }
        if maxW < w.x2 { maxW := w.x2; }
        if maxH < w.y2 { maxH := w.y2; }
        wi := wi + 1;
      }
      assert xs[..wi] == xs;
      line := Line(words, Implode(" ", lineText), minW, minH, maxW, maxH);
    }

    /** What the object holds now, as a value. */
    function Contents(): Book
      reads this
    {
      Book(pages, pageSequences)
    }

    /** GetPageBySequence: the name of the (i+1)-th OBJECT, or null. */
    function GetPageBySequence(i: int): (r: Option<string>)
      reads this
    {
      SequenceEntry(pageSequences, i)
    }

    /** GetPageLines: every stored line of the page, in order, scaled by
        factor / divisor; an unknown page raises. */
    method GetPageLines(page: string, factor: real, dpi: real) returns (r: PageText<ScaledLine>)
      ensures page !in pages ==> r == NotFound("Page ID " + page + " not found.")
      ensures page in pages && Divisor(page, dpi) == 0.0 ==>
                r == if pages[page].lines == [] then Scaled([]) else NonFinite
      ensures page in pages && Divisor(page, dpi) != 0.0 ==>
                r.Scaled? && |r.items| == |pages[page].lines|
                && forall i :: 0 <= i < |r.items| ==> r.items[i] == ScaleLine(pages[page].lines[i], factor, Divisor(page, dpi))
    {
      if page !in pages {
        return NotFound("Page ID " + page + " not found.");
      }
      var divisor := dpi;
      if dpi == 0.0 {
        divisor := if page != [] && IsDigit(page[0]) then DigitValue(page[0]) as real else 0.0;
      }
      var lines := pages[page].lines;
      if divisor == 0.0 && lines != [] {
        return NonFinite;
      }
      var ret: seq<ScaledLine> := [];
      var k := 0;
      while k < |lines|
        invariant 0 <= k <= |lines| && |ret| == k
        invariant forall i :: 0 <= i < k ==> ret[i] == ScaleLine(lines[i], factor, divisor)
      {
        ret := ret + [ScaleLine(lines[k], factor, divisor)];
        k := k + 1;
      }
      return Scaled(ret);
    }

    /** GetPageWords: the words of all the page's lines, line after line, each
        scaled by factor / divisor; an unknown page raises. */
    method GetPageWords(page: string, factor: real, dpi: real) returns (r: PageText<ScaledWord>)
      ensures page !in pages ==> r == NotFound("Page ID " + page + " not found.")
      ensures page in pages && Divisor(page, dpi) == 0.0 ==>
                r == if AllWords(pages[page].lines) == [] then Scaled([]) else NonFinite
      ensures page in pages && Divisor(page, dpi) != 0.0 ==>
                r.Scaled? && |r.items| == |AllWords(pages[page].lines)|
                && forall i :: 0 <= i < |r.items| ==>
                     r.items[i] == ScaleWord(AllWords(pages[page].lines)[i], factor, Divisor(page, dpi))
    {
      if page !in pages {
        return NotFound("Page ID " + page + " not found.");
      }
      var divisor := dpi;
      if dpi == 0.0 {
        divisor := if page != [] && IsDigit(page[0]) then DigitValue(page[0]) as real else 0.0;
      }
      var lines := pages[page].lines;
      if divisor == 0.0 {
        return if AllWords(lines) == [] then Scaled([]) else NonFinite;
      }
      var ret: seq<ScaledWord> := [];
      var k := 0;
      while k < |lines|
        invariant 0 <= k <= |lines| && |ret| == |AllWords(lines[..k])|
        invariant forall i :: 0 <= i < |ret| ==> ret[i] == ScaleWord(AllWords(lines[..k])[i], factor, divisor)
      {
        var ws := lines[k].words;
        var j := 0;
        ghost var done := AllWords(lines[..k]);
        while j < |ws|
          invariant 0 <= j <= |ws| && |ret| == |done| + j
          invariant forall i :: 0 <= i < |ret| ==> ret[i] == ScaleWord((done + ws[..j])[i], factor, divisor)
        {
          ret := ret + [ScaleWord(ws[j], factor, divisor)];
          assert (done + ws[..j + 1]) == (done + ws[..j]) + [ws[j]];
          j := j + 1;
        }
        assert lines[..k + 1][..k] == lines[..k];
        assert ws[..j] == ws;
        k := k + 1;
      }
      assert lines[..k] == lines;
      return Scaled(ret);
    }
  }

  /** The sequence index of a freshly parsed file: position i holds the name of
      the (i+1)-th OBJECT, and when no later OBJECT reuses that name the record
      stored under it carries sequence i + 1, so the index and the records agree. */
  lemma SequenceIndex(d: PhpDjvu, objs: seq<XObject>, i: int)
    requires d.pageSequences == PageNames(objs) && d.pages == StorePages(map[], objs)
    ensures 0 <= i < |objs| ==> d.GetPageBySequence(i) == Some(PageName(objs[i]))
    ensures !(0 <= i < |objs|) ==> d.GetPageBySequence(i) == None
    ensures (0 <= i < |objs| && forall j :: i < j < |objs| ==> PageName(objs[j]) != PageName(objs[i])) ==>
              PageName(objs[i]) in d.pages && d.pages[PageName(objs[i])].sequence == i + 1
  {
    if 0 <= i < |objs| && forall j :: i < j < |objs| ==> PageName(objs[j]) != PageName(objs[i]) {
      LastPageWins(map[], objs, i);
    }
  }
}
