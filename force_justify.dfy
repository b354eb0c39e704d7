/** The force-justify text cell (class CustomPdf, a tFPDF subclass).

    Cell draws one text cell on the current page: an optional frame, the text
    placed by its alignment, and for alignment "FJ" the word spacing that
    stretches the text to the cell's inner width. The PDF content stream is
    recorded as a sequence of operations, one entry per `_out` call, instead of
    the formatted text; the font metrics and encoders are functions fixed in the
    settings. */
module ForceJustify {
  import opened PhpStrings

  // ---------------------------------------------------------------------------
  // Content-stream operations
  // ---------------------------------------------------------------------------

  /** One element of a TJ array: a string operand, or a numeric adjustment
      (in thousandths of text space) followed by an encoded space operand. */
  datatype TjItem = Show(operand: string) | Adjust(amount: real, space: string)

  /** The operators Cell writes; coordinates are in points (already times k). */
  datatype Op =
    | SetWordSpacing(tw: real)                                   // "<tw> Tw"
    | Rectangle(x: real, y: real, w: real, h: real, paint: string)   // "x y w h re B|f|S"
    | Segment(x1: real, y1: real, x2: real, y2: real)            // "x1 y1 m x2 y2 l S"
    | PushColor(color: string)                                   // "q <color>"
    | PopColor                                                   // "Q"
    | ShowText(x: real, y: real, operand: string)                // "BT x y Td (operand) Tj ET"
    | ShowArray(x: real, y: real, items: seq<TjItem>)            // "BT 0 Tw x y Td [items] TJ ET"
    | Underline(x: real, y: real, text: string)                  // _dounderline
    | NewPage                                                    // AddPage

  /** $border: an integer (0 or 1) or a string of the sides "L", "T", "R", "B". */
  datatype Border = BorderInt(n: int) | BorderStr(sides: string)

  /** A link area registered with Link(x, y, w, h, link). */
  datatype LinkArea = LinkArea(x: real, y: real, w: real, h: real, target: string)

  /** The document settings Cell reads, and the tFPDF helpers it calls:
      GetStringWidth, UTF8ToUTF16BE, _escape and UTF8StringToArray. The page
      size and break trigger are those of the current page and are kept across
      an automatic break; tFPDF's switch to the default size there is not
      modelled. */
  datatype Settings = Settings(
    k: real,                 // points per user unit
    pageW: real, pageH: real,
    lMargin: real, rMargin: real, tMargin: real, cMargin: real,
    fontSize: real,          // in user units
    fontSizePt: real,        // in points
    unifontSubset: bool, colorFlag: bool, textColor: string, underline: bool,
    autoPageBreak: bool, pageBreakTrigger: real, inHeader: bool, inFooter: bool,
    stringWidth: string -> real,
    utf16be: string -> string,
    escape: string -> string,
    codePoints: string -> seq<int>)

  // ---------------------------------------------------------------------------
  // Literal-string escaping (section 7.3.4.2 of ISO 32000-1)
  // ---------------------------------------------------------------------------

  /** The three str_replace calls of Cell: backslash first, then "(" and ")". */
  function EscapeLiteral(s: string): string {
    ReplaceChar(ReplaceChar(ReplaceChar(s, '\\', "\\\\"), '(', "\\("), ')', "\\)")
  }

  predicate IsDelimiter(c: char) {
    c == '\\' || c == '(' || c == ')'
  }

  /** Escaping one character: a backslash before each of \, ( and ). */
  function EscapeChar(c: char): string {
    if IsDelimiter(c) then ['\\', c] else [c]
  }

  function EscapeEach(s: string): string
    decreases |s|
  {
    if s == [] then [] else EscapeChar(s[0]) + EscapeEach(s[1..])
  }

  /** How a PDF reader reads a literal string's escapes \\, \( and \). */
  function Unescape(t: string): string
    decreases |t|
  {
    if t == [] then []
    else if |t| >= 2 && t[0] == '\\' then [t[1]] + Unescape(t[2..])
    else [t[0]] + Unescape(t[1..])
  }

  /** Every parenthesis is escaped: read left to right, a backslash consumes the
      next character and a bare "(" or ")" never appears. */
  predicate WellEscaped(t: string)
    decreases |t|
  {
    if t == [] then true
    else if t[0] == '\\' then |t| >= 2 && WellEscaped(t[2..])
    else if t[0] == '(' || t[0] == ')' then false
    else WellEscaped(t[1..])
  }

  lemma EscapeOneChar(c: char)
    ensures EscapeLiteral([c]) == EscapeChar(c)
  {
    if c == '\\' {
      assert ReplaceChar([c], '\\', "\\\\") == "\\\\";
      assert ReplaceChar("\\\\", '(', "\\(") == "\\\\";
      assert ReplaceChar("\\\\", ')', "\\)") == "\\\\";
    } else if c == '(' {
      assert ReplaceChar([c], '\\', "\\\\") == "(";
      assert ReplaceChar("(", '(', "\\(") == "\\(";
      assert ReplaceChar("\\(", ')', "\\)") == "\\(";
    } else if c == ')' {
      assert ReplaceChar([c], '\\', "\\\\") == ")";
      assert ReplaceChar(")", '(', "\\(") == ")";
      assert ReplaceChar(")", ')', "\\)") == "\\)";
    } else {
      assert ReplaceChar([c], '\\', "\\\\") == [c];
      assert ReplaceChar([c], '(', "\\(") == [c];
      assert ReplaceChar([c], ')', "\\)") == [c];
    }
  }

  lemma EscapeLiteralConcat(a: string, b: string)
    ensures EscapeLiteral(a + b) == EscapeLiteral(a) + EscapeLiteral(b)
  {
    ReplaceCharConcat(a, b, '\\', "\\\\");
    var a1, b1 := ReplaceChar(a, '\\', "\\\\"), ReplaceChar(b, '\\', "\\\\");
    ReplaceCharConcat(a1, b1, '(', "\\(");
    var a2, b2 := ReplaceChar(a1, '(', "\\("), ReplaceChar(b1, '(', "\\(");
    ReplaceCharConcat(a2, b2, ')', "\\)");
  }

  /** The order of the replacements is right: the three passes together escape
      each character independently (a backslash added for a parenthesis is not
      doubled again). */
  lemma {:induction false} EscapeLiteralIsPerChar(s: string)
    ensures EscapeLiteral(s) == EscapeEach(s)
    decreases |s|
  {
    if s != [] {
      assert s == [s[0]] + s[1..];
      EscapeLiteralConcat([s[0]], s[1..]);
      EscapeOneChar(s[0]);
      EscapeLiteralIsPerChar(s[1..]);
    }
  }

  /** Escaped text has no unescaped parentheses and reads back as the input. */
  lemma {:induction false} EscapeRoundTrip(s: string)
    ensures WellEscaped(EscapeLiteral(s))
    ensures Unescape(EscapeLiteral(s)) == s
    decreases |s|
  {
    EscapeLiteralIsPerChar(s);
    EscapeEachRoundTrip(s);
  }

  lemma {:induction false} EscapeEachRoundTrip(s: string)
    ensures WellEscaped(EscapeEach(s))
    ensures Unescape(EscapeEach(s)) == s
    decreases |s|
  {
    if s != [] {
      EscapeEachRoundTrip(s[1..]);
      var t := EscapeEach(s);
      var rest := EscapeEach(s[1..]);
      assert t == EscapeChar(s[0]) + rest;
      if IsDelimiter(s[0]) {
        assert t[2..] == rest;
      } else {
        assert t[1..] == rest;
      }
      assert [s[0]] + s[1..] == s;
    }
  }

  // ---------------------------------------------------------------------------
  // Placement and spacing
  // ---------------------------------------------------------------------------

  /** The FJ word spacing: the slack of the inner width shared among the
      spaces, or all of it when there is no space. */
  function FjSpacing(wmax: real, width: real, spaces: nat): real {
    if spaces > 0 then (wmax - width) / (spaces as real) else wmax - width
  }

  /** The spacing fills the line exactly: text width plus one ws per space is
      the inner width (plus ws once when there is no space). */
  lemma FjSpacingFills(wmax: real, width: real, spaces: nat)
    ensures spaces > 0 ==> width + (spaces as real) * FjSpacing(wmax, width, spaces) == wmax
    ensures spaces == 0 ==> width + FjSpacing(wmax, width, spaces) == wmax
  {
  }

  /** The spacing Cell sets for FJ text in a cell of width w. */
  function FjWordSpacing(c: Settings, w: real, txt: string): real {
    FjSpacing(w - 2.0 * c.cMargin, c.stringWidth(txt), CountChar(txt, ' '))
  }

  /** A length in user units expressed in points, k points per unit. */
  function Pt(v: real, k: real): real {
    v * k
  }

  /** The horizontal offset of the text inside the cell. */
  function Dx(align: string, w: real, cMargin: real, width: real): (dx: real)
    ensures align == "R" ==> dx + width + cMargin == w
    ensures align == "C" ==> dx + width + dx == w
    ensures align != "R" && align != "C" ==> dx == cMargin
  {
    if align == "R" then w - cMargin - width
    else if align == "C" then (w - width) / 2.0
    else cMargin
  }

  /** The TJ adjustment that carries the word spacing, in thousandths of text space. */
  function Adjustment(ws: real, k: real, fontSizePt: real): real
    requires fontSizePt != 0.0
  {
    -Pt(ws, k) * 1000.0 / fontSizePt
  }

  /** Under section 9.4.3 of ISO 32000-1 an adjustment a moves the next glyph
      by -a/1000 times the font size: exactly the word spacing ws (in points). */
  lemma AdjustmentMovesByWordSpacing(ws: real, k: real, fontSizePt: real)
    requires fontSizePt != 0.0
    ensures -Adjustment(ws, k, fontSizePt) / 1000.0 * fontSizePt == Pt(ws, k)
  {
  }

  /** A string operand in a Unicode subset font: UTF-16BE, then _escape. */
  function EncodeUnicode(c: Settings, s: string): string {
    c.escape(c.utf16be(s))
  }

  /** The TJ array: each piece encoded, an adjustment and a space between two pieces. */
  function TjItems(c: Settings, pieces: seq<string>, adj: real, space: string): (items: seq<TjItem>)
    ensures |pieces| > 0 ==> |items| == 2 * |pieces| - 1
    ensures |pieces| == 0 ==> items == []
    ensures forall i :: 0 <= i < |pieces| ==> 2 * i < |items| && items[2 * i] == Show(EncodeUnicode(c, pieces[i]))
    ensures forall i :: 0 <= i < |pieces| - 1 ==> items[2 * i + 1] == Adjust(adj, space)
    decreases |pieces|
  {
    if |pieces| == 0 then []
    else if |pieces| == 1 then [Show(EncodeUnicode(c, pieces[0]))]
    else
      var n := |pieces|;
      var pre := TjItems(c, pieces[..n - 1], adj, space);
      assert forall i :: 0 <= i < n - 1 ==> pieces[..n - 1][i] == pieces[i];
      pre + [Adjust(adj, space), Show(EncodeUnicode(c, pieces[n - 1]))]
  }

  /** The pieces of the TJ array put back together with spaces are the text,
      and there is one adjustment per space of the text. */
  lemma TjCoversText(c: Settings, t: string, adj: real, space: string)
    ensures Implode(" ", Explode(t, ' ')) == t
    ensures |TjItems(c, Explode(t, ' '), adj, space)| == 2 * CountChar(t, ' ') + 1
  {
    ImplodeExplode(t, ' ');
    ExplodeCount(t, ' ');
  }

  /** The font subset after registering the given code points, each as itself. */
  function AddCodePoints(m: map<int, int>, cps: seq<int>): (r: map<int, int>)
    ensures r.Keys == m.Keys + (set u | u in cps)
    ensures forall i :: 0 <= i < |cps| ==> r[cps[i]] == cps[i]
    ensures forall u :: u in m && u !in cps ==> r[u] == m[u]
    decreases |cps|
  {
    if cps == [] then m
    else
      var n := |cps|;
      var r := AddCodePoints(m, cps[..n - 1]);
      assert forall i :: 0 <= i < n - 1 ==> cps[..n - 1][i] == cps[i];
      assert cps == cps[..n - 1] + [cps[n - 1]];
      r[cps[n - 1] := cps[n - 1]]
  }

  /** The font subset after a cell showing txt: with a Unicode subset font, the
      code points of the escaped text are registered; otherwise it is unchanged. */
  function SubsetAfter(c: Settings, m: map<int, int>, txt: string): map<int, int> {
    if txt != "" && c.unifontSubset then AddCodePoints(m, c.codePoints(EscapeLiteral(txt))) else m
  }

  // ---------------------------------------------------------------------------
  // The content of one Cell call
  // ---------------------------------------------------------------------------

  /** PHP's `$border == 1`. A string compares equal to 1 when it is "1". */
  predicate BorderIsOne(border: Border) {
    match border
    case BorderInt(n) => n == 1
    case BorderStr(s) => s == "1"
  }

  /** The rectangle drawn when the cell is filled or framed on all sides. */
  function FrameOps(c: Settings, x: real, y: real, w: real, h: real, border: Border, fill: bool): seq<Op> {
    if fill || BorderIsOne(border) then
      [Rectangle(Pt(x, c.k), Pt(c.pageH - y, c.k), Pt(w, c.k), Pt(-h, c.k),
                 if fill then (if BorderIsOne(border) then "B" else "f") else "S")]
    else []
  }

  /** One side of a string border, when it names that side. */
  function SideOp(c: Settings, x: real, y: real, w: real, h: real, border: Border, side: char): seq<Op> {
    if border.BorderInt? || side !in border.sides then []
    else
      var k, top, bottom := c.k, c.pageH - y, c.pageH - (y + h);
      if side == 'L' then [Segment(Pt(x, k), Pt(top, k), Pt(x, k), Pt(bottom, k))]
      else if side == 'T' then [Segment(Pt(x, k), Pt(top, k), Pt(x + w, k), Pt(top, k))]
      else if side == 'R' then [Segment(Pt(x + w, k), Pt(top, k), Pt(x + w, k), Pt(bottom, k))]
      else [Segment(Pt(x, k), Pt(bottom, k), Pt(x + w, k), Pt(bottom, k))]
  }

  /** The frame part of the cell: the rectangle, then the sides L, T, R, B. */
  function BorderOps(c: Settings, x: real, y: real, w: real, h: real, border: Border, fill: bool): seq<Op> {
    FrameOps(c, x, y, w, h, border, fill)
    + SideOp(c, x, y, w, h, border, 'L') + SideOp(c, x, y, w, h, border, 'T')
    + SideOp(c, x, y, w, h, border, 'R') + SideOp(c, x, y, w, h, border, 'B')
  }

  /** The text's baseline position in user units. */
  function Baseline(c: Settings, y: real, h: real): real {
    y + 0.5 * h + 0.3 * c.fontSize
  }

  /** The text-showing operator: the TJ array when a word spacing is in force
      with a Unicode subset font (where Tw would not apply), otherwise Tj. The
      text t is already escaped. */
  function ShowOp(c: Settings, x: real, y: real, ws: real, h: real, dx: real, t: string): Op
    requires c.fontSizePt != 0.0
  {
    var px, py := Pt(x + dx, c.k), Pt(c.pageH - Baseline(c, y, h), c.k);
    if ws != 0.0 && c.unifontSubset then
      ShowArray(px, py, TjItems(c, Explode(t, ' '), Adjustment(ws, c.k, c.fontSizePt), EncodeUnicode(c, " ")))
    else if c.unifontSubset then ShowText(px, py, EncodeUnicode(c, t))
    else ShowText(px, py, c.escape(t))
  }

  /** The text part of the stream: colour, the text, underline, colour restored. */
  function TextOps(c: Settings, x: real, y: real, ws: real, h: real, dx: real, t: string): seq<Op>
    requires c.fontSizePt != 0.0
  {
    (if c.colorFlag then [PushColor(c.textColor)] else [])
    + [ShowOp(c, x, y, ws, h, dx, t)]
    + (if c.underline then [Underline(x + dx, Baseline(c, y, h), t)] else [])
    + (if c.colorFlag then [PopColor] else [])
  }

  /** The string $s that Cell writes with one `_out`, for the cell at (x, y)
      of resolved width w, with word spacing ws in force when the text is shown. */
  function CellStream(c: Settings, x: real, y: real, ws: real, w: real, h: real,
                      txt: string, border: Border, align: string, fill: bool): seq<Op>
    requires c.fontSizePt != 0.0
  {
    BorderOps(c, x, y, w, h, border, fill)
    + (if txt != "" then TextOps(c, x, y, ws, h, Dx(align, w, c.cMargin, c.stringWidth(txt)), EscapeLiteral(txt))
       else [])
  }

  predicate IsTextOp(op: Op) {
    op.ShowText? || op.ShowArray?
  }

  function CountTextOps(ops: seq<Op>): nat
    decreases |ops|
  {
    if ops == [] then 0 else (if IsTextOp(ops[0]) then 1 else 0) + CountTextOps(ops[1..])
  }

  lemma {:induction false} CountTextOpsConcat(a: seq<Op>, b: seq<Op>)
    ensures CountTextOps(a + b) == CountTextOps(a) + CountTextOps(b)
    decreases |a|
  {
    if a == [] {
      assert a + b == b;
    } else {
      CountTextOpsConcat(a[1..], b);
      assert (a + b)[0] == a[0];
      assert (a + b)[1..] == a[1..] + b;
    }
  }

  /** A cell shows its text with exactly one operator (none for empty text), and
      that operator is a TJ array exactly when a word spacing is in force with a
      Unicode subset font. */
  lemma CellShowsTextOnce(c: Settings, x: real, y: real, ws: real, w: real, h: real,
                          txt: string, border: Border, align: string, fill: bool)
    requires c.fontSizePt != 0.0
    ensures CountTextOps(CellStream(c, x, y, ws, w, h, txt, border, align, fill)) == (if txt == "" then 0 else 1)
    ensures txt != "" ==>
              var op := ShowOp(c, x, y, ws, h, Dx(align, w, c.cMargin, c.stringWidth(txt)), EscapeLiteral(txt));
              op in CellStream(c, x, y, ws, w, h, txt, border, align, fill)
              && (op.ShowArray? <==> ws != 0.0 && c.unifontSubset)
  {
    var frame := BorderOps(c, x, y, w, h, border, fill);
    FrameShowsNoText(c, x, y, w, h, border, fill);
    if txt != "" {
      var dx := Dx(align, w, c.cMargin, c.stringWidth(txt));
      var t := EscapeLiteral(txt);
      TextOpsShowOnce(c, x, y, ws, h, dx, t);
      CountTextOpsConcat(frame, TextOps(c, x, y, ws, h, dx, t));
    } else {
      assert CellStream(c, x, y, ws, w, h, txt, border, align, fill) == frame;
    }
  }

  /** The border and fill operators show no text. */
  lemma FrameShowsNoText(c: Settings, x: real, y: real, w: real, h: real, border: Border, fill: bool)
    ensures CountTextOps(BorderOps(c, x, y, w, h, border, fill)) == 0
  {
    var frame := BorderOps(c, x, y, w, h, border, fill);
    forall i | 0 <= i < |frame| ensures !IsTextOp(frame[i]) { }
    NoTextOps(frame);
  }

  /** The text part shows its text with exactly one operator. */
  lemma TextOpsShowOnce(c: Settings, x: real, y: real, ws: real, h: real, dx: real, t: string)
    requires c.fontSizePt != 0.0
    ensures CountTextOps(TextOps(c, x, y, ws, h, dx, t)) == 1
    ensures ShowOp(c, x, y, ws, h, dx, t) in TextOps(c, x, y, ws, h, dx, t)
  {
    var pre := if c.colorFlag then [PushColor(c.textColor)] else [];
    var post := (if c.underline then [Underline(x + dx, Baseline(c, y, h), t)] else [])
                + (if c.colorFlag then [PopColor] else []);
    assert TextOps(c, x, y, ws, h, dx, t) == pre + [ShowOp(c, x, y, ws, h, dx, t)] + post;
    forall i | 0 <= i < |post| ensures !IsTextOp(post[i]) { }
    NoTextOps(post);
    assert CountTextOps(pre) == 0;
    CountTextOpsConcat(pre, [ShowOp(c, x, y, ws, h, dx, t)]);
    CountTextOpsConcat(pre + [ShowOp(c, x, y, ws, h, dx, t)], post);
  }

  lemma {:induction false} NoTextOps(ops: seq<Op>)
    requires forall i :: 0 <= i < |ops| ==> !IsTextOp(ops[i])
    ensures CountTextOps(ops) == 0
    decreases |ops|
  {
    if ops != [] {
      NoTextOps(ops[1..]);
    }
  }

  /** The stream entries of an automatic page break: word spacing suspended,
      the new page, and the spacing restored when it was positive. */
  function BreakOps(c: Settings, ws: real): seq<seq<Op>> {
    (if ws > 0.0 then [[SetWordSpacing(0.0)]] else [])
    + [[NewPage]]
    + (if ws > 0.0 then [[SetWordSpacing(Pt(ws, c.k))]] else [])
  }

  /** The automatic page-break test at the start of Cell, for a cell of
      height h at y (AcceptPageBreak answers the auto-page-break setting). */
  predicate BreaksPage(c: Settings, y: real, h: real) {
    y + h > c.pageBreakTrigger && !c.inHeader && !c.inFooter && c.autoPageBreak
  }

  /** The y of the cell: the top margin of a new page after a break. */
  function CellY(c: Settings, y: real, h: real): real {
    if BreaksPage(c, y, h) then c.tMargin else y
  }

  /** The cell width: w, or up to the right margin from x when w is 0. */
  function ResolvedWidth(c: Settings, x: real, w: real): real {
    if w == 0.0 then c.pageW - c.rMargin - x else w
  }

  /** The word spacing in force when the text is shown. */
  function SpacingUsed(c: Settings, ws: real, w: real, txt: string, align: string): real {
    if txt != "" && align == "FJ" then FjWordSpacing(c, w, txt) else ws
  }

  /** What the drawing part of Cell writes at (x, y) for a cell of resolved
      width w, with word spacing ws in force before it: the FJ spacing, then
      the cell's frame and text as one entry when there are any. */
  function DrawOutput(c: Settings, x: real, y: real, ws: real, w: real, h: real,
                      txt: string, border: Border, align: string, fill: bool): seq<seq<Op>>
    requires c.fontSizePt != 0.0
  {
    var ws1 := SpacingUsed(c, ws, w, txt, align);
    var s := CellStream(c, x, y, ws1, w, h, txt, border, align, fill);
    (if txt != "" && align == "FJ" then [[SetWordSpacing(Pt(ws1, c.k))]] else [])
    + (if s != [] then [s] else [])
  }

  /** The link area the drawing part of Cell registers at (x, y), if any. */
  function DrawLinks(c: Settings, x: real, y: real, w: real, h: real, txt: string, align: string, link: string)
    : seq<LinkArea>
  {
    if txt != "" && Truthy(link) then
      [LinkArea(x + Dx(align, w, c.cMargin, c.stringWidth(txt)), y + 0.5 * h - 0.5 * c.fontSize,
                if align == "FJ" then w - 2.0 * c.cMargin else c.stringWidth(EscapeLiteral(txt)),
                c.fontSize, link)]
    else []
  }

  /** Everything one Cell call writes to the content stream, starting from the
      cursor (x, y) with word spacing ws: the page break, the drawing part at
      the resolved position and width, and the FJ reset. */
  function CellOutput(c: Settings, x: real, y: real, ws: real, w: real, h: real,
                      txt: string, border: Border, align: string, fill: bool): seq<seq<Op>>
    requires c.fontSizePt != 0.0
  {
    (if BreaksPage(c, y, h) then BreakOps(c, ws) else [])
    + (DrawOutput(c, x, CellY(c, y, h), ws, ResolvedWidth(c, x, w), h, txt, border, align, fill)
       + (if align == "FJ" then [[SetWordSpacing(0.0)]] else []))
  }

  /** The link area a Cell call registers, if any. */
  function CellLinks(c: Settings, x: real, y: real, w: real, h: real, txt: string, align: string, link: string)
    : seq<LinkArea>
  {
    DrawLinks(c, x, CellY(c, y, h), ResolvedWidth(c, x, w), h, txt, align, link)
  }

  /** The cursor after a cell: below it (at the left margin for ln = 1) or to its right. */
  function NextX(c: Settings, x: real, w: real, ln: int): real {
    if ln > 0 then (if ln == 1 then c.lMargin else x) else x + ResolvedWidth(c, x, w)
  }

  function NextY(c: Settings, y: real, h: real, ln: int): real {
    if ln > 0 then CellY(c, y, h) + h else CellY(c, y, h)
  }

  // ---------------------------------------------------------------------------
  // The PDF object
  // ---------------------------------------------------------------------------

  class CustomPdf {
    const cfg: Settings
    /** The cursor, in user units. */
    var x: real
    var y: real
    /** The word spacing in force, in user units. */
    var ws: real
    /** The height of the last cell. */
    var lasth: real
    var page: nat
    /** The content stream, one entry per `_out` call. */
    var out: seq<seq<Op>>
    /** CurrentFont['subset']: the code points used with the current font. */
    var subset: map<int, int>
    var links: seq<LinkArea>

    constructor (cfg: Settings)
      ensures this.cfg == cfg
      ensures x == cfg.lMargin && y == cfg.tMargin && ws == 0.0 && lasth == 0.0
      ensures page == 1 && out == [] && subset == map[] && links == []
    {
      this.cfg := cfg;
      x, y, ws, lasth := cfg.lMargin, cfg.tMargin, 0.0, 0.0;
      page, out, subset, links := 1, [], map[], [];
    }

    /** AddPage, as far as Cell depends on it: a new page, cursor at the margins. */
    method AddPage()
      modifies this`page, this`x, this`y, this`out
      ensures page == old(page) + 1 && x == cfg.lMargin && y == cfg.tMargin
      ensures out == old(out) + [[NewPage]]
    {
      page := page + 1;
      x, y := cfg.lMargin, cfg.tMargin;
      out := out + [[NewPage]];
    }

    /** Registers each code point of the text in the font subset. */
    method AddToSubset(cps: seq<int>)
      modifies this`subset
      ensures subset == AddCodePoints(old(subset), cps)
    {
      var i := 0;
      while i < |cps|
        invariant 0 <= i <= |cps|
        invariant subset == AddCodePoints(old(subset), cps[..i])
      {
        assert cps[..i + 1][..i] == cps[..i];
        subset := subset[cps[i] := cps[i]];
        i := i + 1;
      }
      assert cps[..i] == cps;
    }

    /** The loop that builds the TJ array, one piece and then (unless it is the
        last) one adjustment with an encoded space. */
    static method BuildTjItems(c: Settings, pieces: seq<string>, adj: real, space: string)
      returns (items: seq<TjItem>)
      ensures items == TjItems(c, pieces, adj, space)
    {
      items := [];
      var numt := |pieces|;
      var i := 0;
      while i < numt
        invariant 0 <= i <= numt
        invariant |items| == (if 0 < i == numt then 2 * i - 1 else 2 * i)
        invariant forall j :: 0 <= j < i ==> items[2 * j] == Show(EncodeUnicode(c, pieces[j]))
        invariant forall j :: 0 <= j < i && j + 1 < numt ==> items[2 * j + 1] == Adjust(adj, space)
      {
        items := items + [Show(c.escape(c.utf16be(pieces[i])))];
        if i + 1 < numt {
          items := items + [Adjust(adj, space)];
        }
        i := i + 1;
      }
      var spec := TjItems(c, pieces, adj, space);
      assert |items| == |spec|;
      forall j | 0 <= j < |items|
        ensures items[j] == spec[j]
      {
        if j % 2 == 0 {
          assert items[2 * (j / 2)] == spec[2 * (j / 2)];
        } else {
          assert items[2 * (j / 2) + 1] == spec[2 * (j / 2) + 1];
        }
      }
    }

    /** Cell(w, h, txt, border, ln, align, fill, link). */
    method Cell(w: real, h: real, txt: string, border: Border, ln: int, align: string, fill: bool, link: string)
      requires cfg.fontSizePt != 0.0
      modifies this`x, this`y, this`ws, this`lasth, this`page, this`out, this`subset, this`links
      ensures page == old(page) + (if BreaksPage(cfg, old(y), h) then 1 else 0)
      ensures ws == (if align == "FJ" then 0.0 else old(ws))
      ensures lasth == h && x == NextX(cfg, old(x), w, ln) && y == NextY(cfg, old(y), h, ln)
      ensures out == old(out) + CellOutput(cfg, old(x), old(y), old(ws), w, h, txt, border, align, fill)
      ensures subset == SubsetAfter(cfg, old(subset), txt)
      ensures links == old(links) + CellLinks(cfg, old(x), old(y), w, h, txt, align, link)
    {
      AutoPageBreak(h);
      ghost var out1 := out;
      DrawCell(w, h, txt, border, ln, align, fill, link);
      AppendAssoc(old(out), out1[|old(out)|..], out[|out1|..]);
    }

    /** The page-break test at the start of Cell for a cell of height h. */
    method AutoPageBreak(h: real)
      modifies this`x, this`y, this`ws, this`page, this`out
      ensures page == old(page) + (if BreaksPage(cfg, old(y), h) then 1 else 0)
      ensures x == old(x) && y == CellY(cfg, old(y), h) && ws == old(ws)
      ensures out == old(out) + (if BreaksPage(cfg, old(y), h) then BreakOps(cfg, old(ws)) else [])
    {
      if y + h > cfg.pageBreakTrigger && !cfg.inHeader && !cfg.inFooter && cfg.autoPageBreak {
        BreakPage();
      }
    }

    /** Cell after the page-break test, at the current cursor. */
    method DrawCell(w: real, h: real, txt: string, border: Border, ln: int, align: string, fill: bool, link: string)
      requires cfg.fontSizePt != 0.0
      modifies this`x, this`y, this`ws, this`lasth, this`out, this`subset, this`links
      ensures ws == (if align == "FJ" then 0.0 else old(ws))
      ensures lasth == h && x == NextX(cfg, old(x), w, ln) && y == old(y) + (if ln > 0 then h else 0.0)
      ensures out == old(out) + (DrawOutput(cfg, old(x), old(y), old(ws), ResolvedWidth(cfg, old(x), w), h, txt, border, align, fill)
                                 + (if align == "FJ" then [[SetWordSpacing(0.0)]] else []))
      ensures subset == SubsetAfter(cfg, old(subset), txt)
      ensures links == old(links) + DrawLinks(cfg, old(x), old(y), ResolvedWidth(cfg, old(x), w), h, txt, align, link)
    {
      var cw := w;
      if cw == 0.0 {
        cw := cfg.pageW - cfg.rMargin - x;
      }
      assert cw == ResolvedWidth(cfg, x, w);
      ghost var drawn := DrawOutput(cfg, x, y, ws, cw, h, txt, border, align, fill);
      ghost var added := DrawLinks(cfg, x, y, cw, h, txt, align, link);
      ghost var fj: seq<seq<Op>> := if align == "FJ" then [[SetWordSpacing(0.0)]] else [];
      Draw(cw, h, txt, border, align, fill, link);
      assert links == old(links) + added;
      ghost var out2 := out;
      if align == "FJ" {
        out := out + [[SetWordSpacing(0.0)]];
        ws := 0.0;
      }
      assert out == out2 + fj;
      AppendAssoc(old(out), drawn, fj);
      Advance(cw, h, ln);
    }

    /** The cursor move at the end of Cell for a cell of resolved width w. */
    method Advance(w: real, h: real, ln: int)
      modifies this`x, this`y, this`lasth
      ensures lasth == h
      ensures ln > 0 ==> y == old(y) + h && x == (if ln == 1 then cfg.lMargin else old(x))
      ensures ln <= 0 ==> y == old(y) && x == old(x) + w
    {
      lasth := h;
      if ln > 0 {
        y := y + h;
        if ln == 1 {
          x := cfg.lMargin;
        }
      } else {
        x := x + w;
      }
    }

    /** The drawing part of Cell at the current cursor, for a cell of resolved
        width w: the FJ spacing, then the frame and text written with one `_out`. */
    method Draw(w: real, h: real, txt: string, border: Border, align: string, fill: bool, link: string)
      requires cfg.fontSizePt != 0.0
      modifies this`ws, this`out, this`subset, this`links
      ensures ws == SpacingUsed(cfg, old(ws), w, txt, align)
      ensures out == old(out) + DrawOutput(cfg, x, y, old(ws), w, h, txt, border, align, fill)
      ensures subset == SubsetAfter(cfg, old(subset), txt)
      ensures links == old(links) + DrawLinks(cfg, x, y, w, h, txt, align, link)
    {
      ghost var ws1 := SpacingUsed(cfg, ws, w, txt, align);
      ghost var fj: seq<seq<Op>> := if txt != "" && align == "FJ" then [[SetWordSpacing(Pt(ws1, cfg.k))]] else [];
      var s := Frame(cfg, x, y, w, h, border, fill);
      if txt != "" {
        var t := TextPart(w, h, txt, align, link);
        s := s + t;
      }
      assert ws == ws1;
      assert s == CellStream(cfg, x, y, ws1, w, h, txt, border, align, fill);
      assert out == old(out) + fj;
      if s != [] {
        out := out + [s];
      }
      AppendAssoc(old(out), fj, if s != [] then [s] else []);
    }

    /** The automatic page break of Cell: a positive word spacing is suspended
        around AddPage and the cursor keeps its x. */
    method BreakPage()
      modifies this`x, this`y, this`ws, this`page, this`out
      ensures page == old(page) + 1 && x == old(x) && y == cfg.tMargin && ws == old(ws)
      ensures out == old(out) + BreakOps(cfg, old(ws))
    {
      var x0 := x;
      var ws0 := ws;
      if ws0 > 0.0 {
        ws := 0.0;
        out := out + [[SetWordSpacing(0.0)]];
      }
      AddPage();
      x := x0;
      if ws0 > 0.0 {
        ws := ws0;
        out := out + [[SetWordSpacing(Pt(ws0, cfg.k))]];
      }
    }

    /** The frame part of $s: the rectangle, then the named sides. */
    static method Frame(c: Settings, x: real, y: real, w: real, h: real, border: Border, fill: bool)
      returns (s: seq<Op>)
      ensures s == BorderOps(c, x, y, w, h, border, fill)
    {
      var k := c.k;
      s := [];
      if fill || BorderIsOne(border) {
        var op := if fill then (if BorderIsOne(border) then "B" else "f") else "S";
        s := [Rectangle(Pt(x, k), Pt(c.pageH - y, k), Pt(w, k), Pt(-h, k), op)];
      }
      ghost var expected := FrameOps(c, x, y, w, h, border, fill);
      assert s == expected;
      if border.BorderStr? {
        if 'L' in border.sides {
          s := s + [Segment(Pt(x, k), Pt(c.pageH - y, k), Pt(x, k), Pt(c.pageH - (y + h), k))];
        }
        expected := expected + SideOp(c, x, y, w, h, border, 'L');
        assert s == expected;
        if 'T' in border.sides {
          s := s + [Segment(Pt(x, k), Pt(c.pageH - y, k), Pt(x + w, k), Pt(c.pageH - y, k))];
        }
        expected := expected + SideOp(c, x, y, w, h, border, 'T');
        assert s == expected;
        if 'R' in border.sides {
          s := s + [Segment(Pt(x + w, k), Pt(c.pageH - y, k), Pt(x + w, k), Pt(c.pageH - (y + h), k))];
        }
        expected := expected + SideOp(c, x, y, w, h, border, 'R');
        assert s == expected;
        if 'B' in border.sides {
          s := s + [Segment(Pt(x, k), Pt(c.pageH - (y + h), k), Pt(x + w, k), Pt(c.pageH - (y + h), k))];
        }
        expected := expected + SideOp(c, x, y, w, h, border, 'B');
        assert s == expected;
      } else {
        assert BorderOps(c, x, y, w, h, border, fill) == expected + [] + [] + [] + [];
      }
    }

    /** The text part of Cell for non-empty text in a cell of resolved width w:
        FJ spacing, escaping, the show operator, underline, colour and link. */
    method TextPart(w: real, h: real, txt: string, align: string, link: string) returns (s: seq<Op>)
      requires cfg.fontSizePt != 0.0 && txt != ""
      modifies this`ws, this`out, this`subset, this`links
      ensures ws == (if align == "FJ" then FjWordSpacing(cfg, w, txt) else old(ws))
      ensures out == old(out) + (if align == "FJ" then [[SetWordSpacing(Pt(ws, cfg.k))]] else [])
      ensures s == TextOps(cfg, x, y, ws, h, Dx(align, w, cfg.cMargin, cfg.stringWidth(txt)), EscapeLiteral(txt))
      ensures subset == (if cfg.unifontSubset then AddCodePoints(old(subset), cfg.codePoints(EscapeLiteral(txt)))
                         else old(subset))
      ensures links == old(links) + DrawLinks(cfg, x, y, w, h, txt, align, link)
    {
      var dx := Placement(w, txt, align);
      var escaped := ReplaceChar(ReplaceChar(ReplaceChar(txt, '\\', "\\\\"), '(', "\\("), ')', "\\)");
      var show := ShowPart(h, dx, escaped);
      s := Decorate(cfg, x, y, ws, h, dx, show, escaped);
      AddLink(w, h, dx, txt, escaped, align, link);
    }

    /** Colour, underline and the colour restore around the show operator. */
    static method Decorate(c: Settings, x: real, y: real, ws: real, h: real, dx: real, show: Op, t: string)
      returns (s: seq<Op>)
      requires c.fontSizePt != 0.0 && show == ShowOp(c, x, y, ws, h, dx, t)
      ensures s == TextOps(c, x, y, ws, h, dx, t)
    {
      s := [];
      if c.colorFlag {
        s := s + [PushColor(c.textColor)];
      }
      s := s + [show];
      if c.underline {
        s := s + [Underline(x + dx, y + 0.5 * h + 0.3 * c.fontSize, t)];
      }
      assert s == (if c.colorFlag then [PushColor(c.textColor)] else []) + [show]
                  + (if c.underline then [Underline(x + dx, Baseline(c, y, h), t)] else []);
      if c.colorFlag {
        s := s + [PopColor];
      }
    }

    /** The link over the text: as wide as the inner cell for FJ, otherwise as
        the escaped text. */
    method AddLink(w: real, h: real, dx: real, txt: string, escaped: string, align: string, link: string)
      requires txt != "" && escaped == EscapeLiteral(txt) && dx == Dx(align, w, cfg.cMargin, cfg.stringWidth(txt))
      modifies this`links
      ensures links == old(links) + DrawLinks(cfg, x, y, w, h, txt, align, link)
    {
      if Truthy(link) {
        var wlink := if align == "FJ" then w - 2.0 * cfg.cMargin else cfg.stringWidth(escaped);
        links := links + [LinkArea(x + dx, y + 0.5 * h - 0.5 * cfg.fontSize, wlink, cfg.fontSize, link)];
      }
    }

    /** The horizontal offset of the text, and for FJ the word spacing that
        fills the inner width, written out at once. */
    method Placement(w: real, txt: string, align: string) returns (dx: real)
      modifies this`ws, this`out
      ensures dx == Dx(align, w, cfg.cMargin, cfg.stringWidth(txt))
      ensures ws == (if align == "FJ" then FjWordSpacing(cfg, w, txt) else old(ws))
      ensures out == old(out) + (if align == "FJ" then [[SetWordSpacing(Pt(ws, cfg.k))]] else [])
    {
      if align == "R" {
        dx := w - cfg.cMargin - cfg.stringWidth(txt);
      } else if align == "C" {
        dx := (w - cfg.stringWidth(txt)) / 2.0;
      } else if align == "FJ" {
        var wmax := w - 2.0 * cfg.cMargin;
        var spaces := CountChar(txt, ' ');
        if spaces > 0 {
          ws := (wmax - cfg.stringWidth(txt)) / (spaces as real);
        } else {
          ws := wmax - cfg.stringWidth(txt);
        }
        out := out + [[SetWordSpacing(Pt(ws, cfg.k))]];
        dx := cfg.cMargin;
      } else {
        dx := cfg.cMargin;
      }
    }

    /** The text-showing part of Cell for the escaped text t: the TJ array with
        one adjustment per space when a word spacing is in force with a Unicode
        subset font, otherwise a single Tj operand; Unicode fonts register the
        text's code points in the subset. */
    method ShowPart(h: real, dx: real, t: string) returns (op: Op)
      requires cfg.fontSizePt != 0.0
      modifies this`subset
      ensures op == ShowOp(cfg, x, y, ws, h, dx, t)
      ensures subset == (if cfg.unifontSubset then AddCodePoints(old(subset), cfg.codePoints(t)) else old(subset))
    {
      var k := cfg.k;
      var px, py := Pt(x + dx, k), Pt(cfg.pageH - (y + 0.5 * h + 0.3 * cfg.fontSize), k);
      if ws != 0.0 && cfg.unifontSubset {
        AddToSubset(cfg.codePoints(t));
        var space := cfg.escape(cfg.utf16be(" "));
        var pieces := Explode(t, ' ');
        var adj := -Pt(ws, cfg.k) * 1000.0 / cfg.fontSizePt;
        var items := BuildTjItems(cfg, pieces, adj, space);
        assert space == EncodeUnicode(cfg, " ") && adj == Adjustment(ws, cfg.k, cfg.fontSizePt);
        op := ShowArray(px, py, items);
      } else {
        var txt2: string;
        if cfg.unifontSubset {
          txt2 := cfg.escape(cfg.utf16be(t));
          AddToSubset(cfg.codePoints(t));
        } else {
          txt2 := cfg.escape(t);
        }
        op := ShowText(px, py, txt2);
      }
    }
  }

  /** After any FJ call no word spacing remains: the next cell starts from a
      spacing of 0, and the last word-spacing operator written is 0 Tw. */
  method FjResetsSpacing(pdf: CustomPdf, w: real, h: real, txt: string, border: Border, ln: int, fill: bool, link: string)
    requires pdf.cfg.fontSizePt != 0.0
    modifies pdf
    ensures pdf.ws == 0.0 && pdf.out != [] && pdf.out[|pdf.out| - 1] == [SetWordSpacing(0.0)]
  {
    pdf.Cell(w, h, txt, border, ln, "FJ", fill, link);
  }
}
