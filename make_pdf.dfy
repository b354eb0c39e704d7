/** The document assembly of MakePDF::generate_article_pdf: per-page geometry,
    the page loop that lays the OCR lines over the page images, the cover page,
    the metadata-only rebuild, and the document metadata. The PDF object is a
    recorder of the drawing calls made on it. */
module MakePdf {
  import opened PhpStrings
  import opened Djvu
  import opened Citation

  // ---------------------------------------------------------------------------
  // Page geometry
  // ---------------------------------------------------------------------------

  const A4WidthMM: int := 210
  const A4HeightMM: int := 297

  datatype Orientation = Portrait | Landscape

  /** The fields the geometry loop adds to one entry of $page_details. */
  datatype Geometry = Geometry(
    widthPX: int, heightPX: int, orientation: Orientation, dpmm: real, widthMM: int, heightMM: int)

  /** PHP's (int) cast of a finite float: truncation toward zero. */
  function Trunc(r: real): (n: int)
    ensures r >= 0.0 ==> 0 <= n && (n as real) <= r < (n as real) + 1.0
    ensures r < 0.0 ==> n <= 0 && (n as real) - 1.0 < r <= (n as real)
  {
    if r >= 0.0 then r.Floor else -((-r).Floor)
  }

  /** $img_height_px / $img_width_px > 1. A zero width gives INF (or NAN when
      the height is zero too), and only INF is greater than 1. */
  predicate AspectAbove1(widthPX: int, heightPX: int) {
    if widthPX != 0 then (heightPX as real) / (widthPX as real) > 1.0 else heightPX > 0
  }

  /** (int)($px / $dpmm): a division by zero gives INF or NAN, which PHP 7
      casts to 0. */
  function ToMM(px: int, dpmm: real): int {
    if dpmm == 0.0 then 0 else Trunc((px as real) / dpmm)
  }

  /** One pass of the geometry loop for an image of the given pixel size. */
  function PageGeometry(imageWidth: int, imageHeight: int, resize: real): Geometry {
    var w := Trunc((imageWidth as real) * resize);
    var h := Trunc((imageHeight as real) * resize);
    var o := if AspectAbove1(w, h) then Portrait else Landscape;
    var dpmm := if o == Portrait then (h as real) / (A4HeightMM as real) else (w as real) / (A4WidthMM as real);
    Geometry(w, h, o, dpmm, ToMM(w, dpmm), ToMM(h, dpmm))
  }

  /** The A4 aspect ratio plays no part: a page is portrait exactly when it is
      taller than it is wide, so a square page is landscape. */
  lemma OrientationByPixels(imageWidth: int, imageHeight: int, resize: real)
    requires imageWidth >= 0 && imageHeight >= 0 && resize >= 0.0
    ensures var g := PageGeometry(imageWidth, imageHeight, resize);
      g.widthPX >= 0 && g.heightPX >= 0 && (g.orientation == Portrait <==> g.heightPX > g.widthPX)
  {
    var g := PageGeometry(imageWidth, imageHeight, resize);
    var w, h := g.widthPX, g.heightPX;
    if w > 0 {
      if h > w {
        assert (h as real) / (w as real) > 1.0 by { DivAboveOne(h as real, w as real); }
      } else {
        assert (h as real) / (w as real) <= 1.0 by { DivAtMostOne(h as real, w as real); }
      }
    }
  }

  lemma DivAboveOne(a: real, b: real)
    requires b > 0.0 && a > b
    ensures a / b > 1.0
  {
    assert a / b * b == a;
  }

  lemma DivAtMostOne(a: real, b: real)
    requires b > 0.0 && a <= b
    ensures a / b <= 1.0
  {
    assert a / b * b == a;
  }

  /** A portrait page is scaled to the A4 height: in exact arithmetic its
      height is 297 mm and its width less than that. */
  lemma PortraitFitsA4Height(imageWidth: int, imageHeight: int, resize: real)
    requires imageWidth >= 0 && imageHeight >= 0 && resize >= 0.0
    requires PageGeometry(imageWidth, imageHeight, resize).orientation == Portrait
    ensures var g := PageGeometry(imageWidth, imageHeight, resize);
      g.dpmm > 0.0 && g.heightMM == A4HeightMM && 0 <= g.widthMM < A4HeightMM
  {
    OrientationByPixels(imageWidth, imageHeight, resize);
    var g := PageGeometry(imageWidth, imageHeight, resize);
    var w, h := g.widthPX as real, g.heightPX as real;
    FitScale(h, w, 297.0);
  }

  /** Scaling both sides by side / c maps that side to exactly c and a
      shorter other side to at most c. */
  lemma FitScale(side: real, other: real, c: real)
    requires side > 0.0 && c > 0.0 && 0.0 <= other
    ensures side / (side / c) == c
    ensures other < side ==> other / (side / c) < c
    ensures other <= side ==> other / (side / c) <= c
  {
    var d := side / c;
    assert d * c == side;
    assert side / d * d == side;
    assert other / d * d == other;
  }

  /** A landscape page of non-zero width is scaled to the A4 width: in exact
      arithmetic its width is 210 mm and its height at most that. */
  lemma LandscapeFitsA4Width(imageWidth: int, imageHeight: int, resize: real)
    requires imageWidth >= 0 && imageHeight >= 0 && resize >= 0.0
    requires var g := PageGeometry(imageWidth, imageHeight, resize);
      g.orientation == Landscape && g.widthPX != 0
    ensures var g := PageGeometry(imageWidth, imageHeight, resize);
      g.dpmm > 0.0 && g.widthMM == A4WidthMM && 0 <= g.heightMM <= A4WidthMM
  {
    OrientationByPixels(imageWidth, imageHeight, resize);
    var g := PageGeometry(imageWidth, imageHeight, resize);
    var w, h := g.widthPX as real, g.heightPX as real;
    FitScale(w, h, 210.0);
  }

  /** An image with no pixels after resizing gives a landscape page with a
      zero scale and a 0 x 0 mm size. */
  lemma EmptyImageGeometry(imageWidth: int, imageHeight: int, resize: real)
    requires Trunc((imageWidth as real) * resize) == 0 && Trunc((imageHeight as real) * resize) == 0
    ensures PageGeometry(imageWidth, imageHeight, resize)
         == Geometry(0, 0, Landscape, 0.0, 0, 0)
  {
  }

  /** A $page_details entry as the database and the image fetcher leave it. */
  datatype PageDetail = PageDetail(
    pageId: int, barCode: string, sequenceOrder: int, fileNamePrefix: string, jpgFile: string,
    imageWidth: int, imageHeight: int)

  /** An entry after the geometry loop has filled in its size fields. */
  datatype MeasuredPage = MeasuredPage(detail: PageDetail, geometry: Geometry)

  /** The geometry loop over $page_details, in the array's order: every page
      gets its geometry; a page without an image file stops the run (exit(1)). */
  method ComputeGeometry(details: seq<PageDetail>, resize: real) returns (r: Option<seq<MeasuredPage>>)
    ensures r.None? <==> exists i :: 0 <= i < |details| && !Truthy(details[i].jpgFile)
    ensures r.Some? ==> r.value == MeasureAll(details, resize)
  {
    var done: seq<MeasuredPage> := [];
    for i := 0 to |details|
      invariant |done| == i
      invariant forall j :: 0 <= j < i ==> Truthy(details[j].jpgFile)
      invariant forall j :: 0 <= j < i ==>
                  done[j] == MeasuredPage(details[j], PageGeometry(details[j].imageWidth, details[j].imageHeight, resize))
    {
      if !Truthy(details[i].jpgFile) {
        return None;
      }
      var g := MeasurePage(details[i].imageWidth, details[i].imageHeight, resize);
      done := done + [MeasuredPage(details[i], g)];
    }
    return Some(done);
  }

  /** Every entry with its geometry filled in. */
  function MeasureAll(details: seq<PageDetail>, resize: real): (r: seq<MeasuredPage>)
    ensures |r| == |details|
  {
    seq(|details|, i requires 0 <= i < |details| =>
      MeasuredPage(details[i], PageGeometry(details[i].imageWidth, details[i].imageHeight, resize)))
  }

  /** The body of the geometry loop for one page: pixel size after resizing,
      the side to fit, the scale and the size in millimetres. */
  method MeasurePage(imageWidth: int, imageHeight: int, resize: real) returns (g: Geometry)
    ensures g == PageGeometry(imageWidth, imageHeight, resize)
  {
    var w := Trunc((imageWidth as real) * resize);
    var h := Trunc((imageHeight as real) * resize);
    var dpmm: real;
    var o: Orientation;
    if AspectAbove1(w, h) {
      dpmm, o := (h as real) / (A4HeightMM as real), Portrait;
    } else {
      dpmm, o := (w as real) / (A4WidthMM as real), Landscape;
    }
    g := Geometry(w, h, o, dpmm, ToMM(w, dpmm), ToMM(h, dpmm));
  }

  // ---------------------------------------------------------------------------
  // The PDF object, as a recorder of the calls made on it
  // ---------------------------------------------------------------------------

  /** The size argument of AddPage: none (the document default) or an
      orientation with a width and height in millimetres. */
  datatype PageFormat = DefaultFormat | Sized(orientation: Orientation, width: int, height: int)

  /** One drawing call. Font and colour changes are folded into the style of
      a Write run. */
  datatype DocOp =
    | AddPageOp(format: PageFormat)
    | UseTemplateOp(pageNo: int)
    | SetXYOp(x: real, y: real)
    | SetYOp(y: real)
    | CellOp(w: real, h: real, text: string, border: int, ln: int, align: string)
    | ImageOp(file: string, x: real, y: real, w: real, h: real)
    | WriteOp(lineHeight: real, run: Run)
    | LnOp(h: real)

  class Document {
    /** Every drawing call so far, in order. */
    var ops: seq<DocOp>
    var title: string
    var author: string
    var subject: string
    var creator: string

    constructor ()
      ensures ops == [] && title == "" && author == "" && subject == "" && creator == ""
    {
      ops, title, author, subject, creator := [], "", "", "", "";
    }

    method AddPage(format: PageFormat)
      modifies this`ops
      ensures ops == old(ops) + [AddPageOp(format)]
    {
      ops := ops + [AddPageOp(format)];
    }

    method UseTemplate(pageNo: int)
      modifies this`ops
      ensures ops == old(ops) + [UseTemplateOp(pageNo)]
    {
      ops := ops + [UseTemplateOp(pageNo)];
    }

    method SetXY(x: real, y: real)
      modifies this`ops
      ensures ops == old(ops) + [SetXYOp(x, y)]
    {
      ops := ops + [SetXYOp(x, y)];
    }

    method SetY(y: real)
      modifies this`ops
      ensures ops == old(ops) + [SetYOp(y)]
    {
      ops := ops + [SetYOp(y)];
    }

    method Cell(w: real, h: real, text: string, border: int, ln: int, align: string)
      modifies this`ops
      ensures ops == old(ops) + [CellOp(w, h, text, border, ln, align)]
    {
      ops := ops + [CellOp(w, h, text, border, ln, align)];
    }

    method Image(file: string, x: real, y: real, w: real, h: real)
      modifies this`ops
      ensures ops == old(ops) + [ImageOp(file, x, y, w, h)]
    {
      ops := ops + [ImageOp(file, x, y, w, h)];
    }

    method Write(lineHeight: real, text: string, style: Style, link: string)
      modifies this`ops
      ensures ops == old(ops) + [WriteOp(lineHeight, Run(text, style, link))]
    {
      ops := ops + [WriteOp(lineHeight, Run(text, style, link))];
    }

    method Ln(h: real)
      modifies this`ops
      ensures ops == old(ops) + [LnOp(h)]
    {
      ops := ops + [LnOp(h)];
    }

    method SetTitle(t: string)
      modifies this`title
      ensures title == t
    {
      title := t;
    }

    method SetAuthor(a: string)
      modifies this`author
      ensures author == a
    {
      author := a;
    }

    method SetSubject(s: string)
      modifies this`subject
      ensures subject == s
    {
      subject := s;
    }

    method SetCreator(c: string)
      modifies this`creator
      ensures creator == c
    {
      creator := c;
    }
  }

  /** The formats of the pages a sequence of calls adds, in order. */
  function PageFormats(ops: seq<DocOp>): seq<PageFormat>
    decreases |ops|
  {
    if ops == [] then []
    else (if ops[0].AddPageOp? then [ops[0].format] else []) + PageFormats(ops[1..])
  }

  function PageCount(ops: seq<DocOp>): nat {
    |PageFormats(ops)|
  }

  lemma {:induction false} PageFormatsAppend(a: seq<DocOp>, b: seq<DocOp>)
    ensures PageFormats(a + b) == PageFormats(a) + PageFormats(b)
    decreases |a|
  {
    if a == [] {
      assert a + b == b;
    } else {
      assert (a + b)[1..] == a[1..] + b;
      PageFormatsAppend(a[1..], b);
      AppendAssoc(if a[0].AddPageOp? then [a[0].format] else [], PageFormats(a[1..]), PageFormats(b));
    }
  }

  // ---------------------------------------------------------------------------
  // The page loop
  // ---------------------------------------------------------------------------

  datatype Config = Config(outputDir: string, desaturate: bool, resize: real, resizeDir: string)

  /** $page_details['pageid-'.$pg]: the entry of the page with that id. */
  function FindPage(pages: seq<MeasuredPage>, id: int): (r: Option<MeasuredPage>)
    ensures r.Some? <==> exists i :: 0 <= i < |pages| && pages[i].detail.pageId == id
    ensures r.Some? ==> r.value in pages && r.value.detail.pageId == id
  {
    if pages == [] then None
    else if pages[0].detail.pageId == id then Some(pages[0])
    else
      var r := FindPage(pages[1..], id);
      assert forall i :: 1 <= i < |pages| ==> pages[i] == pages[1..][i - 1];
      r
  }

  /** The image placed on the page: the resized copy unless the resize factor is 1. */
  function PageImageFile(p: MeasuredPage, cfg: Config): string {
    if cfg.resize != 1.0 then cfg.resizeDir + "/" + p.detail.fileNamePrefix + ".jpg" else p.detail.jpgFile
  }

  function ScaledLines(lines: seq<Line>, factor: real, dpi: real): (r: seq<ScaledLine>)
    requires dpi != 0.0 || lines == []
  {
    seq(|lines|, i requires 0 <= i < |lines| => ScaleLine(lines[i], factor, dpi))
  }

  /** setXY then a force-justified Cell with a border, for each line in turn. */
  function LineOps(lines: seq<ScaledLine>): seq<DocOp>
    decreases |lines|
  {
    if lines == [] then []
    else
      var l := lines[|lines| - 1];
      LineOps(lines[..|lines| - 1]) + [SetXYOp(l.x, l.y), CellOp(l.w, l.h, l.text, 1, 0, "FJ")]
  }

  /** The DPI argument of Image for a page: a negative width means a
      resolution, -DPMM * 25.4 dots per inch. */
  function ImageWidthArg(dpmm: real): real {
    dpmm * -25.4
  }

  /** Why the page loop stops early: an exception, which the run's
      catch (\Exception) turns into its error path; a PHP fatal error (a
      method called on null), which nothing catches; or a state this model
      does not follow (text placed at INF or NAN coordinates, or a page drawn
      from a null row). */
  datatype Stop = Thrown(message: string) | FatalError | Unfollowed

  /** The calls for one segment page, or why the loop stops there. A page
      missing from the sequence index is looked up under "" (PHP's key for
      null); a zero DPMM makes GetPageLines divide by what it reads from the
      page name. */
  function PageOps(p: MeasuredPage, b: Book, cfg: Config): Result<seq<DocOp>, Stop> {
    var g := p.geometry;
    var prefix := SequenceEntry(b.sequences, p.detail.sequenceOrder - 1).GetOr("");
    var divisor := Divisor(prefix, g.dpmm);
    if prefix !in b.pages then Failure(Thrown("Page ID " + prefix + " not found."))
    else if divisor == 0.0 && b.pages[prefix].lines != [] then Failure(Unfollowed)
    else Success([AddPageOp(Sized(g.orientation, g.widthMM, g.heightMM))]
                 + LineOps(ScaledLines(b.pages[prefix].lines, cfg.resize, divisor))
                 + [ImageOp(PageImageFile(p, cfg), 0.0, 0.0, ImageWidthArg(g.dpmm), 0.0)])
  }

  /** A page id without a page_details row: $p is null, and $djvus[null] is
      the book under "". Without such a book the call on null is fatal. With
      it, GetPagebySequence(-1) gives null and GetPageLines raises unless the
      book has a page named ""; the model does not follow the page the null
      row would then draw. */
  function NullRowOps(books: map<string, Book>): Result<seq<DocOp>, Stop> {
    if "" !in books then Failure(FatalError)
    else if "" !in books[""].pages then Failure(Thrown("Page ID  not found."))
    else Failure(Unfollowed)
  }

  /** One pass of the page loop for a page id: its row, its book, its page. A
      row whose book was not read leaves $djvu null, and the call on it is fatal. */
  function PageStepOps(id: int, pages: seq<MeasuredPage>, books: map<string, Book>, cfg: Config): Result<seq<DocOp>, Stop> {
    match FindPage(pages, id)
    case None => NullRowOps(books)
    case Some(p) => if p.detail.barCode in books then PageOps(p, books[p.detail.barCode], cfg) else Failure(FatalError)
  }

  /** The calls of the page loop for the pages in the given order, or the
      first stop. */
  function PagesOps(ids: seq<int>, pages: seq<MeasuredPage>, books: map<string, Book>, cfg: Config): Result<seq<DocOp>, Stop>
    decreases |ids|
  {
    if ids == [] then Success([])
    else
      var n := |ids| - 1;
      match PagesOps(ids[..n], pages, books, cfg)
      case Failure(e) => Failure(e)
      case Success(before) =>
        match PageStepOps(ids[n], pages, books, cfg)
        case Failure(e) => Failure(e)
        case Success(ops) => Success(before + ops)
  }

  /** The line loop of one page. */
  method DrawLines(doc: Document, lines: seq<ScaledLine>)
    modifies doc`ops
    ensures doc.ops == old(doc.ops) + LineOps(lines)
  {
    ghost var ops0 := doc.ops;
    for k := 0 to |lines|
      invariant doc.ops == ops0 + LineOps(lines[..k])
    {
      var l := lines[k];
      assert lines[..k + 1][..k] == lines[..k];
      doc.SetXY(l.x, l.y);
      doc.Cell(l.w, l.h, l.text, 1, 0, "FJ");
      AppendAssoc(ops0, LineOps(lines[..k]), [SetXYOp(l.x, l.y), CellOp(l.w, l.h, l.text, 1, 0, "FJ")]);
    }
    assert lines[..|lines|] == lines;
  }

  /** One page: a page of the measured size, the OCR lines scaled with the
      page's own resize factor and scale, then the image. */
  method AddSegmentPage(doc: Document, p: MeasuredPage, d: PhpDjvu, cfg: Config) returns (r: Result<(), Stop>)
    modifies doc`ops
    ensures PageOps(p, d.Contents(), cfg).Failure? ==> r == Failure(PageOps(p, d.Contents(), cfg).error)
    ensures PageOps(p, d.Contents(), cfg).Success? ==> r.Success? && doc.ops == old(doc.ops) + PageOps(p, d.Contents(), cfg).value
  {
    var g := p.geometry;
    doc.AddPage(Sized(g.orientation, g.widthMM, g.heightMM));
    var prefix := d.GetPageBySequence(p.detail.sequenceOrder - 1).GetOr("");
    var lines := d.GetPageLines(prefix, cfg.resize, g.dpmm);
    match lines
    case NotFound(message) =>
      return Failure(Thrown(message));
    case NonFinite =>
      return Failure(Unfollowed);
    case Scaled(items) =>
      assert items == ScaledLines(d.pages[prefix].lines, cfg.resize, Divisor(prefix, g.dpmm));
      DrawLines(doc, items);
      var file := if cfg.resize != 1.0 then cfg.resizeDir + "/" + p.detail.fileNamePrefix + ".jpg" else p.detail.jpgFile;
      doc.Image(file, 0.0, 0.0, g.dpmm * -25.4, 0.0);
      AppendAssoc(old(doc.ops), [AddPageOp(Sized(g.orientation, g.widthMM, g.heightMM))], LineOps(items));
      return Success(());
  }

  /** A failure in the first pages is the failure of the whole loop. */
  lemma {:induction false} PagesOpsFailurePersists(ids: seq<int>, k: nat, pages: seq<MeasuredPage>, books: map<string, Book>, cfg: Config)
    requires k <= |ids| && PagesOps(ids[..k], pages, books, cfg).Failure?
    ensures PagesOps(ids, pages, books, cfg) == PagesOps(ids[..k], pages, books, cfg)
    decreases |ids|
  {
    if k < |ids| {
      var n := |ids| - 1;
      assert ids[..n][..k] == ids[..k];
      PagesOpsFailurePersists(ids[..n], k, pages, books, cfg);
    } else {
      assert ids[..k] == ids;
    }
  }

  /** One more page of the loop: its calls follow those of the pages before,
      or its stop ends the loop. */
  lemma PagesOpsStep(ids: seq<int>, k: nat, pages: seq<MeasuredPage>, books: map<string, Book>, cfg: Config)
    requires k < |ids| && PagesOps(ids[..k], pages, books, cfg).Success?
    ensures var one := PageStepOps(ids[k], pages, books, cfg);
      && (one.Failure? ==> PagesOps(ids[..k + 1], pages, books, cfg) == Failure(one.error))
      && (one.Success? ==>
            PagesOps(ids[..k + 1], pages, books, cfg) == Success(PagesOps(ids[..k], pages, books, cfg).value + one.value))
  {
    assert ids[..k + 1][..k] == ids[..k];
  }

  /** The loop ends with the stop of its first page that stops. */
  lemma PagesOpsFirstStop(ids: seq<int>, k: nat, pages: seq<MeasuredPage>, books: map<string, Book>, cfg: Config)
    requires k < |ids| && PagesOps(ids[..k], pages, books, cfg).Success?
    requires PageStepOps(ids[k], pages, books, cfg).Failure?
    ensures PagesOps(ids, pages, books, cfg) == Failure(PageStepOps(ids[k], pages, books, cfg).error)
  {
    PagesOpsStep(ids, k, pages, books, cfg);
    PagesOpsFailurePersists(ids, k + 1, pages, books, cfg);
  }

  /** The parsed DjVu files as values, by barcode. */
  function Books(djvus: map<string, PhpDjvu>): (r: map<string, Book>)
    reads djvus.Values
  {
    map bc | bc in djvus :: djvus[bc].Contents()
  }

  /** One pass of the page loop: the row of the page id, the book of the
      row, then the page. */
  method AddPageById(doc: Document, id: int, pages: seq<MeasuredPage>, djvus: map<string, PhpDjvu>,
                     ghost books: map<string, Book>, cfg: Config)
    returns (r: Result<(), Stop>)
    requires books == Books(djvus)
    modifies doc`ops
    ensures PageStepOps(id, pages, books, cfg).Failure? ==> r == Failure(PageStepOps(id, pages, books, cfg).error)
    ensures PageStepOps(id, pages, books, cfg).Success? ==>
              r.Success? && doc.ops == old(doc.ops) + PageStepOps(id, pages, books, cfg).value
  {
    var found := FindPage(pages, id);
    if found.None? {
      if "" !in djvus {
        return Failure(FatalError);
      }
      assert books[""] == djvus[""].Contents();
      if "" !in djvus[""].pages {
        return Failure(Thrown("Page ID  not found."));
      }
      return Failure(Unfollowed);
    }
    var p := found.value;
    if p.detail.barCode !in djvus {
      return Failure(FatalError);
    }
    var d := djvus[p.detail.barCode];
    assert d.Contents() == books[p.detail.barCode];
    r := AddSegmentPage(doc, p, d, cfg);
  }

  /** The page loop: the pages of the segment in their order, stopping at the
      first page that raises or fails. */
  method AddSegmentPages(doc: Document, ids: seq<int>, pages: seq<MeasuredPage>, djvus: map<string, PhpDjvu>,
                         ghost books: map<string, Book>, cfg: Config)
    returns (r: Result<(), Stop>)
    requires books == Books(djvus)
    modifies doc`ops
    ensures PagesOps(ids, pages, books, cfg).Failure? ==> r == Failure(PagesOps(ids, pages, books, cfg).error)
    ensures PagesOps(ids, pages, books, cfg).Success? ==>
              r.Success? && doc.ops == old(doc.ops) + PagesOps(ids, pages, books, cfg).value
  {
    ghost var ops0 := doc.ops;
    for k := 0 to |ids|
      invariant PagesOps(ids[..k], pages, books, cfg).Success?
      invariant doc.ops == ops0 + PagesOps(ids[..k], pages, books, cfg).value
    {
      PagesOpsStep(ids, k, pages, books, cfg);
      ghost var before := PagesOps(ids[..k], pages, books, cfg).value;
      var one := AddPageById(doc, ids[k], pages, djvus, books, cfg);
      if one.Failure? {
        PagesOpsFailurePersists(ids, k + 1, pages, books, cfg);
        return one;
      }
      AppendAssoc(ops0, before, PageStepOps(ids[k], pages, books, cfg).value);
    }
    assert ids[..|ids|] == ids;
    return Success(());
  }

  /** The page a measured entry asks for. */
  function FormatOf(p: MeasuredPage): PageFormat {
    Sized(p.geometry.orientation, p.geometry.widthMM, p.geometry.heightMM)
  }

  /** The pages of the segment, in the order of its page list. */
  function SegmentFormats(ids: seq<int>, pages: seq<MeasuredPage>): (r: seq<PageFormat>)
    requires AllFound(ids, pages)
    ensures |r| == |ids|
  {
    seq(|ids|, i requires 0 <= i < |ids| => FormatOf(FindPage(pages, ids[i]).value))
  }

  lemma {:induction false} LineOpsAddNoPage(lines: seq<ScaledLine>)
    ensures PageFormats(LineOps(lines)) == []
    decreases |lines|
  {
    if lines != [] {
      var l := lines[|lines| - 1];
      LineOpsAddNoPage(lines[..|lines| - 1]);
      var two := [SetXYOp(l.x, l.y), CellOp(l.w, l.h, l.text, 1, 0, "FJ")];
      PageFormatsAppend(LineOps(lines[..|lines| - 1]), two);
      assert two[1..][1..] == [];
      assert PageFormats(two[1..]) == [];
    }
  }

  /** A segment page adds exactly one page, of its measured size. */
  lemma PageOpsAddOnePage(p: MeasuredPage, b: Book, cfg: Config)
    requires PageOps(p, b, cfg).Success?
    ensures PageFormats(PageOps(p, b, cfg).value) == [FormatOf(p)]
  {
    var g := p.geometry;
    var prefix := SequenceEntry(b.sequences, p.detail.sequenceOrder - 1).GetOr("");
    var divisor := Divisor(prefix, g.dpmm);
    var scaled := ScaledLines(b.pages[prefix].lines, cfg.resize, divisor);
    var head := [AddPageOp(FormatOf(p))];
    var lines := LineOps(scaled);
    var tail := [ImageOp(PageImageFile(p, cfg), 0.0, 0.0, ImageWidthArg(g.dpmm), 0.0)];
    assert PageOps(p, b, cfg).value == head + lines + tail;
    LineOpsAddNoPage(scaled);
    PageFormatsAppend(head + lines, tail);
    PageFormatsAppend(head, lines);
    assert head[1..] == [] && tail[1..] == [];
    assert PageFormats(head) == [FormatOf(p)] && PageFormats(tail) == [];
  }

  /** Every page id has a page_details row. */
  predicate AllFound(ids: seq<int>, pages: seq<MeasuredPage>) {
    forall i :: 0 <= i < |ids| ==> FindPage(pages, ids[i]).Some?
  }

  /** A page loop that runs to its end found a row for every page id and
      added one page per id, in that order, each of its measured size. */
  lemma {:induction false} PagesOpsFormats(ids: seq<int>, pages: seq<MeasuredPage>, books: map<string, Book>, cfg: Config)
    requires PagesOps(ids, pages, books, cfg).Success?
    ensures AllFound(ids, pages)
    ensures PageFormats(PagesOps(ids, pages, books, cfg).value) == SegmentFormats(ids, pages)
    decreases |ids|
  {
    if ids != [] {
      var n := |ids| - 1;
      PagesOpsFormats(ids[..n], pages, books, cfg);
      assert FindPage(pages, ids[n]).Some?;
      assert AllFound(ids, pages) by {
        forall i | 0 <= i < n ensures FindPage(pages, ids[i]).Some? {
          assert ids[..n][i] == ids[i];
        }
      }
      var p := FindPage(pages, ids[n]).value;
      var b := books[p.detail.barCode];
      PageOpsAddOnePage(p, b, cfg);
      PageFormatsAppend(PagesOps(ids[..n], pages, books, cfg).value, PageOps(p, b, cfg).value);
      SegmentFormatsLast(ids, pages);
    }
  }

  lemma SegmentFormatsLast(ids: seq<int>, pages: seq<MeasuredPage>)
    requires ids != [] && AllFound(ids, pages)
    ensures var n := |ids| - 1;
      AllFound(ids[..n], pages) &&
      SegmentFormats(ids, pages) == SegmentFormats(ids[..n], pages) + [FormatOf(FindPage(pages, ids[n]).value)]
  {
    var n := |ids| - 1;
    assert AllFound(ids[..n], pages) by {
      forall i | 0 <= i < n ensures FindPage(pages, ids[..n][i]).Some? {
        assert ids[..n][i] == ids[i];
      }
    }
    var a, b := SegmentFormats(ids, pages), SegmentFormats(ids[..n], pages) + [FormatOf(FindPage(pages, ids[n]).value)];
    forall i | 0 <= i < |ids| ensures a[i] == b[i] {
      if i < n {
        assert ids[..n][i] == ids[i];
      }
    }
  }

  // ---------------------------------------------------------------------------
  // Text and image registration
  // ---------------------------------------------------------------------------

  /** Where Image puts a pixel column or row of the image, in millimetres from
      its corner, when its width argument is a negative resolution. */
  function ImageMM(px: real, widthArg: real): real
    requires widthArg < 0.0
  {
    px * 25.4 / -widthArg
  }

  /** A point the OCR locates at raw pixel c lies, after the same resize, at
      pixel c * resize of the placed image; the scaled OCR box and the image
      put it at the same place on the page. The placed image is taken to be
      exactly resize times the original; the percentage `convert` makes is
      not modelled. */
  lemma OcrRegistersWithImage(l: Line, resize: real, dpmm: real)
    requires dpmm > 0.0
    ensures var s := ScaleLine(l, resize, dpmm);
      var arg := ImageWidthArg(dpmm);
      arg < 0.0
      && s.x == ImageMM(l.x1 as real * resize, arg) && s.y == ImageMM(l.y1 as real * resize, arg)
      && s.x + s.w == ImageMM(l.x2 as real * resize, arg) && s.y + s.h == ImageMM(l.y2 as real * resize, arg)
  {
    var arg := ImageWidthArg(dpmm);
    MmPerPixel(l.x1 as real * resize, dpmm);
    MmPerPixel(l.y1 as real * resize, dpmm);
    MmPerPixel(l.x2 as real * resize, dpmm);
    MmPerPixel(l.y2 as real * resize, dpmm);
    var s := ScaleLine(l, resize, dpmm);
    assert s.x + s.w == (l.x2 as real) * resize / dpmm;
    assert s.y + s.h == (l.y2 as real) * resize / dpmm;
  }

  lemma MmPerPixel(px: real, dpmm: real)
    requires dpmm > 0.0
    ensures ImageWidthArg(dpmm) < 0.0 && ImageMM(px, ImageWidthArg(dpmm)) == px / dpmm
  {
    assert -ImageWidthArg(dpmm) == dpmm * 25.4;
    assert px * 25.4 / (dpmm * 25.4) == px / dpmm;
  }

  /** The placed image spans the fitted side of the page: the A4 height for a
      portrait page, the A4 width for a landscape one. The placed file is
      taken to have the measured pixel size. */
  lemma PageImageFitsPage(imageWidth: int, imageHeight: int, resize: real)
    requires imageWidth >= 0 && imageHeight >= 0 && resize >= 0.0
    requires var g := PageGeometry(imageWidth, imageHeight, resize); g.widthPX != 0 || g.heightPX != 0
    ensures var g := PageGeometry(imageWidth, imageHeight, resize);
      g.dpmm > 0.0
      && (g.orientation == Portrait ==> ImageMM(g.heightPX as real, ImageWidthArg(g.dpmm)) == A4HeightMM as real)
      && (g.orientation == Landscape ==> ImageMM(g.widthPX as real, ImageWidthArg(g.dpmm)) == A4WidthMM as real)
  {
    var g := PageGeometry(imageWidth, imageHeight, resize);
    OrientationByPixels(imageWidth, imageHeight, resize);
    if g.orientation == Portrait {
      FitScale(g.heightPX as real, g.widthPX as real, 297.0);
      MmPerPixel(g.heightPX as real, g.dpmm);
    } else {
      FitScale(g.widthPX as real, g.heightPX as real, 210.0);
      MmPerPixel(g.widthPX as real, g.dpmm);
    }
  }

  // ---------------------------------------------------------------------------
  // The cover page
  // ---------------------------------------------------------------------------

  /** The segment ($part) as the API returns it; an absent field is "". */
  datatype Segment = Segment(
    authors: seq<Author>, date: string, title: string, containerTitle: string,
    volume: string, issue: string, pageRange: string, doi: string,
    itemId: Option<string>, partId: string, externalUrl: Option<string>,
    rightsStatus: string, licenseUrl: string, partUrl: string, pageIds: seq<int>)

  /** The item ($item) the segment belongs to. */
  datatype Item = Item(holdingInstitution: string, sponsor: string, rightsHolder: string, rights: string)

  function AuthorNames(authors: seq<Author>): (r: seq<string>)
    ensures |r| == |authors|
  {
    seq(|authors|, i requires 0 <= i < |authors| => authors[i].name)
  }

  /** The fields of the segment the citation reads. */
  function CitationPart(s: Segment): Part {
    Part(AuthorNames(s.authors), s.date, s.title, s.containerTitle, s.volume, s.issue, s.pageRange, s.doi)
  }

  const LogoFile: string := "assets/BHL-logo.png"
  const ItemUrlPrefix: string := "https://www.biodiversitylibrary.org/item/"
  const PartPdfUrlPrefix: string := "https://www.biodiversitylibrary.org/partpdf/"
  const BhlUrl: string := "https://www.biodiversitylibrary.org"
  const CreditLead: string := "This document was created from content at the "
  const CreditName: string := "Biodiversity Heritage Library"
  const CreditTail: string := ", the world's largest open access digital library for biodiversity literature and archives. "
  /** The sentence every generated cover must contain. */
  const CreditSentence: string := "This document was created from content at the Biodiversity Heritage Library"

  function Text(lineHeight: real, text: string, style: Style): DocOp {
    WriteOp(lineHeight, Run(text, style, ""))
  }

  function Link(lineHeight: real, url: string, style: Style): DocOp {
    WriteOp(lineHeight, Run(url, style, url))
  }

  /** An A4 portrait page with the logo; the citation starts 100 mm down. */
  function CoverHeadOps(): seq<DocOp> {
    [AddPageOp(Sized(Portrait, A4WidthMM, A4HeightMM)), ImageOp(LogoFile, 30.0, 30.0, 150.0, 0.0), SetYOp(100.0)]
  }

  function WriteOps(lineHeight: real, runs: seq<Run>): (r: seq<DocOp>)
    ensures |r| == |runs|
  {
    seq(|runs|, i requires 0 <= i < |runs| => WriteOp(lineHeight, runs[i]))
  }

  /** The citation runs at a 7 mm line height, then two line breaks. */
  function CoverCitationOps(s: Segment): seq<DocOp> {
    CitationBlock(CoverCitationRuns(CitationPart(s)))
  }

  function CitationBlock(runs: seq<Run>): seq<DocOp> {
    WriteOps(7.0, runs) + [LnOp(7.0), LnOp(7.0)]
  }

  /** A bold label, an underlined self-link, a line break. */
  function LinkLine(caption: string, url: string): seq<DocOp> {
    [Text(6.0, caption, Bold), Link(6.0, url, Underlined), LnOp(6.0)]
  }

  /** The item link, the DOI link when there is a DOI, and the permalink. */
  function CoverLinkOps(s: Segment, itemId: string): seq<DocOp> {
    LinkLine("View This Item Online: ", ItemUrlPrefix + itemId)
    + (if Truthy(s.doi) then LinkLine("DOI: ", DoiPrefix + s.doi) else [])
    + LinkLine("Permalink: ", PartPdfUrlPrefix + s.partId) + [LnOp(6.0)]
  }

  /** A bold heading on its own line, then the value and a blank line. */
  function Block(heading: string, value: string): seq<DocOp> {
    if Truthy(value) then [Text(6.0, heading, Bold), LnOp(6.0), Text(6.0, value, Regular), LnOp(6.0), LnOp(6.0)]
    else []
  }

  /** A regular label followed by the value as an underlined self-link. */
  function LabelledLink(caption: string, url: string): seq<DocOp> {
    if Truthy(url) then [Text(6.0, caption, Regular), Link(6.0, url, Underlined), LnOp(6.0)] else []
  }

  /** Holding institution, sponsor, and the copyright and reuse block. */
  function CoverRightsOps(s: Segment, item: Item): seq<DocOp> {
    Block("Holding Institution ", item.holdingInstitution)
    + Block("Sponsored by ", item.sponsor)
    + CopyrightOps(s, item)
    + LabelledLink("License: ", s.licenseUrl)
    + LabelledLink("Rights: ", item.rights)
    + [LnOp(6.0)]
  }

  /** The copyright status, and the rights holder when there is one. */
  function CopyrightOps(s: Segment, item: Item): seq<DocOp> {
    [Text(6.0, "Copyright & Reuse ", Bold), LnOp(6.0), Text(6.0, "Copyright Status: " + s.rightsStatus, Regular), LnOp(6.0)]
    + (if Truthy(item.rightsHolder) then [Text(6.0, "Rights Holder: " + item.rightsHolder, Regular), LnOp(6.0)] else [])
  }

  /** The credit to the library, then the generation stamp 270 mm down. */
  function CoverFootOps(stamp: string): seq<DocOp> {
    [LnOp(5.0), Text(5.0, CreditLead, Regular), Text(5.0, CreditName, Bold), Text(5.0, CreditTail, Regular),
     Text(5.0, "Visit BHL at ", Regular), Link(5.0, BhlUrl, Regular), Text(5.0, ".", Regular),
     SetYOp(270.0), Text(5.0, "This file was generated " + stamp, Regular), LnOp(5.0)]
  }

  /** Every call add_cover_page makes. */
  function CoverOps(s: Segment, itemId: string, item: Item, stamp: string): seq<DocOp> {
    CoverBodyOps(s, itemId, item) + CoverFootOps(stamp)
  }

  /** Everything on the cover before the credit to the library. */
  function CoverBodyOps(s: Segment, itemId: string, item: Item): seq<DocOp> {
    CoverHeadOps() + CoverCitationOps(s) + CoverLinkOps(s, itemId) + CoverRightsOps(s, item)
  }

  method CoverHead(doc: Document)
    modifies doc`ops
    ensures doc.ops == old(doc.ops) + CoverHeadOps()
  {
    doc.AddPage(Sized(Portrait, A4WidthMM, A4HeightMM));
    doc.Image(LogoFile, 30.0, 30.0, 150.0, 0.0);
    doc.SetY(100.0);
  }

  /** Write each run in turn at the given line height. */
  method WriteRuns(doc: Document, lineHeight: real, runs: seq<Run>)
    modifies doc`ops
    ensures doc.ops == old(doc.ops) + WriteOps(lineHeight, runs)
  {
    ghost var ops0 := doc.ops;
    for k := 0 to |runs|
      invariant doc.ops == ops0 + WriteOps(lineHeight, runs[..k])
    {
      doc.Write(lineHeight, runs[k].text, runs[k].style, runs[k].link);
      assert WriteOps(lineHeight, runs[..k + 1]) == WriteOps(lineHeight, runs[..k]) + [WriteOp(lineHeight, runs[k])];
    }
    assert runs[..|runs|] == runs;
  }

  method CoverCitation(doc: Document, s: Segment)
    modifies doc`ops
    ensures doc.ops == old(doc.ops) + CoverCitationOps(s)
  {
    var runs := CoverCitationRuns(CitationPart(s));
    WriteCitationBlock(doc, runs);
  }

  method WriteCitationBlock(doc: Document, runs: seq<Run>)
    modifies doc`ops
    ensures doc.ops == old(doc.ops) + CitationBlock(runs)
  {
    WriteRuns(doc, 7.0, runs);
    doc.Ln(7.0);
    doc.Ln(7.0);
    AppendAssoc(old(doc.ops), WriteOps(7.0, runs), [LnOp(7.0), LnOp(7.0)]);
  }

  method WriteLinkLine(doc: Document, caption: string, url: string)
    modifies doc`ops
    ensures doc.ops == old(doc.ops) + LinkLine(caption, url)
  {
    doc.Write(6.0, caption, Bold, "");
    doc.Write(6.0, url, Underlined, url);
    doc.Ln(6.0);
  }

  method CoverLinks(doc: Document, s: Segment, itemId: string)
    modifies doc`ops
    ensures doc.ops == old(doc.ops) + CoverLinkOps(s, itemId)
  {
    var a := LinkLine("View This Item Online: ", ItemUrlPrefix + itemId);
    var b := if Truthy(s.doi) then LinkLine("DOI: ", DoiPrefix + s.doi) else [];
    var c := LinkLine("Permalink: ", PartPdfUrlPrefix + s.partId);
    WriteLinkLine(doc, "View This Item Online: ", ItemUrlPrefix + itemId);
    if Truthy(s.doi) {
      WriteLinkLine(doc, "DOI: ", DoiPrefix + s.doi);
    }
    WriteLinkLine(doc, "Permalink: ", PartPdfUrlPrefix + s.partId);
    doc.Ln(6.0);
    assert doc.ops == old(doc.ops) + a + b + c + [LnOp(6.0)];
  }

  method WriteBlock(doc: Document, heading: string, value: string)
    modifies doc`ops
    ensures doc.ops == old(doc.ops) + Block(heading, value)
  {
    if Truthy(value) {
      doc.Write(6.0, heading, Bold, "");
      doc.Ln(6.0);
      doc.Write(6.0, value, Regular, "");
      doc.Ln(6.0);
      doc.Ln(6.0);
    }
  }

  method WriteLabelledLink(doc: Document, caption: string, url: string)
    modifies doc`ops
    ensures doc.ops == old(doc.ops) + LabelledLink(caption, url)
  {
    if Truthy(url) {
      doc.Write(6.0, caption, Regular, "");
      doc.Write(6.0, url, Underlined, url);
      doc.Ln(6.0);
    }
  }

  method CoverCopyright(doc: Document, s: Segment, item: Item)
    modifies doc`ops
    ensures doc.ops == old(doc.ops) + CopyrightOps(s, item)
  {
    doc.Write(6.0, "Copyright & Reuse ", Bold, "");
    doc.Ln(6.0);
    doc.Write(6.0, "Copyright Status: " + s.rightsStatus, Regular, "");
    doc.Ln(6.0);
    if Truthy(item.rightsHolder) {
      doc.Write(6.0, "Rights Holder: " + item.rightsHolder, Regular, "");
      doc.Ln(6.0);
    }
  }

  method CoverRights(doc: Document, s: Segment, item: Item)
    modifies doc`ops
    ensures doc.ops == old(doc.ops) + CoverRightsOps(s, item)
  {
    ghost var a := Block("Holding Institution ", item.holdingInstitution);
    ghost var b := Block("Sponsored by ", item.sponsor);
    ghost var c := CopyrightOps(s, item);
    ghost var d := LabelledLink("License: ", s.licenseUrl);
    ghost var e := LabelledLink("Rights: ", item.rights);
    ghost var o0 := doc.ops;
    WriteBlock(doc, "Holding Institution ", item.holdingInstitution);
    WriteBlock(doc, "Sponsored by ", item.sponsor);
    AppendAssoc(o0, a, b);
    CoverCopyright(doc, s, item);
    AppendAssoc(o0, a + b, c);
    WriteLabelledLink(doc, "License: ", s.licenseUrl);
    AppendAssoc(o0, a + b + c, d);
    WriteLabelledLink(doc, "Rights: ", item.rights);
    AppendAssoc(o0, a + b + c + d, e);
    doc.Ln(6.0);
    AppendAssoc(o0, a + b + c + d + e, [LnOp(6.0)]);
    assert CoverRightsOps(s, item) == a + b + c + d + e + [LnOp(6.0)];
  }

  method CoverFoot(doc: Document, stamp: string)
    modifies doc`ops
    ensures doc.ops == old(doc.ops) + CoverFootOps(stamp)
  {
    doc.Ln(5.0);
    doc.Write(5.0, CreditLead, Regular, "");
    doc.Write(5.0, CreditName, Bold, "");
    doc.Write(5.0, CreditTail, Regular, "");
    doc.Write(5.0, "Visit BHL at ", Regular, "");
    doc.Write(5.0, BhlUrl, Regular, BhlUrl);
    doc.Write(5.0, ".", Regular, "");
    doc.SetY(270.0);
    doc.Write(5.0, "This file was generated " + stamp, Regular, "");
    doc.Ln(5.0);
  }

  /** add_cover_page: the cover, drawn after whatever pages are already there.
      The generation date is a parameter. */
  method AddCoverPage(doc: Document, s: Segment, itemId: string, item: Item, stamp: string)
    modifies doc`ops
    ensures doc.ops == old(doc.ops) + CoverOps(s, itemId, item, stamp)
  {
    CoverHead(doc);
    ghost var o1 := doc.ops;
    CoverCitation(doc, s);
    ghost var o2 := doc.ops;
    CoverLinks(doc, s, itemId);
    ghost var o3 := doc.ops;
    CoverRights(doc, s, item);
    ghost var o4 := doc.ops;
    CoverFoot(doc, stamp);
    AppendAssoc(old(doc.ops), CoverHeadOps(), CoverCitationOps(s));
    AppendAssoc(old(doc.ops), CoverHeadOps() + CoverCitationOps(s), CoverLinkOps(s, itemId));
    AppendAssoc(old(doc.ops), CoverHeadOps() + CoverCitationOps(s) + CoverLinkOps(s, itemId), CoverRightsOps(s, item));
    AppendAssoc(old(doc.ops), CoverBodyOps(s, itemId, item), CoverFootOps(stamp));
  }

  lemma {:induction false} NoPages(ops: seq<DocOp>)
    requires forall i :: 0 <= i < |ops| ==> !ops[i].AddPageOp?
    ensures PageFormats(ops) == []
    decreases |ops|
  {
    if ops != [] {
      assert forall i :: 0 <= i < |ops| - 1 ==> ops[1..][i] == ops[i + 1];
      NoPages(ops[1..]);
    }
  }

  lemma CitationAddsNoPage(s: Segment)
    ensures PageFormats(CoverCitationOps(s)) == []
  {
    CitationBlockAddsNoPage(CoverCitationRuns(CitationPart(s)));
  }

  lemma CitationBlockAddsNoPage(runs: seq<Run>)
    ensures PageFormats(CitationBlock(runs)) == []
  {
    NoPages(CitationBlock(runs));
  }

  lemma LinksAddNoPage(s: Segment, itemId: string)
    ensures PageFormats(CoverLinkOps(s, itemId)) == []
  {
    NoPages(CoverLinkOps(s, itemId));
  }

  lemma NoPagesConcat(a: seq<DocOp>, b: seq<DocOp>)
    requires PageFormats(a) == [] && PageFormats(b) == []
    ensures PageFormats(a + b) == []
  {
    PageFormatsAppend(a, b);
  }

  lemma BlockAddsNoPage(heading: string, value: string)
    ensures PageFormats(Block(heading, value)) == []
  {
    NoPages(Block(heading, value));
  }

  lemma LabelledLinkAddsNoPage(caption: string, url: string)
    ensures PageFormats(LabelledLink(caption, url)) == []
  {
    NoPages(LabelledLink(caption, url));
  }

  lemma CopyrightAddsNoPage(s: Segment, item: Item)
    ensures PageFormats(CopyrightOps(s, item)) == []
  {
    NoPages(CopyrightOps(s, item));
  }

  lemma RightsAddNoPage(s: Segment, item: Item)
    ensures PageFormats(CoverRightsOps(s, item)) == []
  {
    var a := Block("Holding Institution ", item.holdingInstitution);
    var b := Block("Sponsored by ", item.sponsor);
    var c := CopyrightOps(s, item);
    var d := LabelledLink("License: ", s.licenseUrl);
    var e := LabelledLink("Rights: ", item.rights);
    BlockAddsNoPage("Holding Institution ", item.holdingInstitution);
    BlockAddsNoPage("Sponsored by ", item.sponsor);
    CopyrightAddsNoPage(s, item);
    LabelledLinkAddsNoPage("License: ", s.licenseUrl);
    LabelledLinkAddsNoPage("Rights: ", item.rights);
    NoPages([LnOp(6.0)]);
    NoPagesConcat(a, b);
    NoPagesConcat(a + b, c);
    NoPagesConcat(a + b + c, d);
    NoPagesConcat(a + b + c + d, e);
    NoPagesConcat(a + b + c + d + e, [LnOp(6.0)]);
  }

  /** The two runs of the credit together write the credit sentence. */
  lemma CreditSplits()
    ensures CreditLead + CreditName == CreditSentence
  {
    assert CreditSentence[..|CreditLead|] == CreditLead;
    assert CreditSentence[|CreditLead|..] == CreditName;
    assert CreditSentence == CreditSentence[..|CreditLead|] + CreditSentence[|CreditLead|..];
  }

  lemma FootAddsNoPage(stamp: string, k: nat)
    requires k <= 10
    ensures PageFormats(CoverFootOps(stamp)[k..]) == []
  {
    var foot := CoverFootOps(stamp);
    assert |foot| == 10;
    forall i | 0 <= i < 10 ensures !foot[i].AddPageOp? {}
    NoPages(foot[k..]);
  }

  /** The cover adds exactly one page, A4 portrait, and it is its first call. */
  lemma CoverAddsOneA4Page(s: Segment, itemId: string, item: Item, stamp: string)
    ensures var ops := CoverOps(s, itemId, item, stamp);
      ops[0] == AddPageOp(Sized(Portrait, A4WidthMM, A4HeightMM))
      && PageFormats(ops) == [Sized(Portrait, A4WidthMM, A4HeightMM)]
  {
    var head, cit, links, rights, foot :=
      CoverHeadOps(), CoverCitationOps(s), CoverLinkOps(s, itemId), CoverRightsOps(s, item), CoverFootOps(stamp);
    NoPages(head[1..]);
    assert PageFormats(head) == [Sized(Portrait, A4WidthMM, A4HeightMM)];
    CitationAddsNoPage(s);
    LinksAddNoPage(s, itemId);
    RightsAddNoPage(s, item);
    FootAddsNoPage(stamp, 0);
    PageFormatsAppend(head, cit);
    PageFormatsAppend(head + cit, links);
    PageFormatsAppend(head + cit + links, rights);
    PageFormatsAppend(head + cit + links + rights, foot);
  }

  /** The credit sentence is written as two consecutive runs near the end of
      the cover, with no page added after them. */
  lemma CoverEndsWithCredit(s: Segment, itemId: string, item: Item, stamp: string)
    ensures var ops := CoverOps(s, itemId, item, stamp);
      var i := |ops| - 9;
      0 < i && ops[i] == Text(5.0, CreditLead, Regular) && ops[i + 1] == Text(5.0, CreditName, Bold)
      && ops[i].run.text + ops[i + 1].run.text == CreditSentence
      && PageFormats(ops[i..]) == []
  {
    CoverBodyNotEmpty(s, itemId, item);
    CreditFollowsBody(CoverOps(s, itemId, item, stamp), CoverBodyOps(s, itemId, item), stamp);
  }

  lemma CoverBodyNotEmpty(s: Segment, itemId: string, item: Item)
    ensures |CoverBodyOps(s, itemId, item)| > 0
  {
    assert |CoverHeadOps()| > 0;
  }

  /** Whatever precedes the foot, the credit starts nine calls from the end. */
  lemma CreditFollowsBody(ops: seq<DocOp>, body: seq<DocOp>, stamp: string)
    requires |body| > 0 && ops == body + CoverFootOps(stamp)
    ensures var i := |ops| - 9;
      0 < i && ops[i] == Text(5.0, CreditLead, Regular) && ops[i + 1] == Text(5.0, CreditName, Bold)
      && ops[i].run.text + ops[i + 1].run.text == CreditSentence
      && PageFormats(ops[i..]) == []
  {
    var foot := CoverFootOps(stamp);
    var i := |ops| - 9;
    assert ops[i..] == foot[1..];
    assert ops[i] == foot[1] && ops[i + 1] == foot[2];
    FootAddsNoPage(stamp, 1);
    CreditSplits();
  }

  /** The text of the Write calls, in order. */
  function WrittenText(ops: seq<DocOp>): string
    decreases |ops|
  {
    if ops == [] then ""
    else (if ops[0].WriteOp? then ops[0].run.text else "") + WrittenText(ops[1..])
  }

  lemma {:induction false} WrittenTextOfRuns(lineHeight: real, runs: seq<Run>)
    ensures WrittenText(WriteOps(lineHeight, runs)) == RunsText(runs)
    decreases |runs|
  {
    if runs != [] {
      assert WriteOps(lineHeight, runs)[1..] == WriteOps(lineHeight, runs[1..]);
      WrittenTextOfRuns(lineHeight, runs[1..]);
    }
  }

  lemma {:induction false} WrittenTextAppend(a: seq<DocOp>, b: seq<DocOp>)
    ensures WrittenText(a + b) == WrittenText(a) + WrittenText(b)
    decreases |a|
  {
    if a == [] {
      assert a + b == b;
    } else {
      assert (a + b)[1..] == a[1..] + b;
      WrittenTextAppend(a[1..], b);
      AppendAssoc(if a[0].WriteOp? then a[0].run.text else "", WrittenText(a[1..]), WrittenText(b));
    }
  }

  /** The citation block of the cover writes the document title's citation
      when the cover's and get_citation's tests agree. */
  lemma CoverShowsCitation(s: Segment)
    requires var a := AuthorString(StrippedNames(CitationPart(s).authorNames)); Trim(a) == a
    requires !EndsWithPunctuation(s.title)
    requires '\0' !in CitationText(CitationPart(s))
    ensures WrittenText(CoverCitationOps(s)) == GetCitation(CitationPart(s))
  {
    var p := CitationPart(s);
    CitationBlockText(CoverCitationRuns(p));
    CoverMatchesCitation(p);
  }

  /** The citation block writes the text of its runs and nothing else. */
  lemma CitationBlockText(runs: seq<Run>)
    ensures WrittenText(CitationBlock(runs)) == RunsText(runs)
  {
    WrittenTextAppend(WriteOps(7.0, runs), [LnOp(7.0), LnOp(7.0)]);
    WrittenTextOfRuns(7.0, runs);
    assert [LnOp(7.0), LnOp(7.0)][1..][1..] == [];
    assert WrittenText([LnOp(7.0), LnOp(7.0)]) == "";
  }

  // ---------------------------------------------------------------------------
  // Full build and metadata-only rebuild
  // ---------------------------------------------------------------------------

  /** The calls of a full build: the segment pages, then the cover. */
  function BuildOps(s: Segment, itemId: string, item: Item, pages: seq<MeasuredPage>,
                    books: map<string, Book>, cfg: Config, stamp: string): seq<DocOp>
    requires PagesOps(s.pageIds, pages, books, cfg).Success?
  {
    PagesOps(s.pageIds, pages, books, cfg).value + CoverOps(s, itemId, item, stamp)
  }

  /** A full build has one page per entry of the page list, in that order and
      of the measured sizes, then one A4 portrait cover page. */
  lemma FullBuildPages(s: Segment, itemId: string, item: Item, pages: seq<MeasuredPage>,
                       books: map<string, Book>, cfg: Config, stamp: string)
    requires PagesOps(s.pageIds, pages, books, cfg).Success?
    ensures AllFound(s.pageIds, pages)
    ensures PageFormats(BuildOps(s, itemId, item, pages, books, cfg, stamp))
         == SegmentFormats(s.pageIds, pages) + [Sized(Portrait, A4WidthMM, A4HeightMM)]
    ensures PageCount(BuildOps(s, itemId, item, pages, books, cfg, stamp)) == |s.pageIds| + 1
  {
    PagesOpsFormats(s.pageIds, pages, books, cfg);
    CoverAddsOneA4Page(s, itemId, item, stamp);
    PageFormatsAppend(PagesOps(s.pageIds, pages, books, cfg).value, CoverOps(s, itemId, item, stamp));
  }

  /** The import loop for pages 1 .. n: a default page, then the template of
      the old page drawn on it (resized to it). */
  function ImportOps(n: int): seq<DocOp>
    decreases n
  {
    if n <= 0 then [] else ImportOps(n - 1) + [AddPageOp(DefaultFormat), UseTemplateOp(n)]
  }

  /** The calls of a metadata-only rebuild from a file of pageCount pages:
      every page but the old cover, then a new cover. */
  function RebuildOps(pageCount: int, s: Segment, itemId: string, item: Item, stamp: string): seq<DocOp> {
    ImportOps(pageCount - 1) + CoverOps(s, itemId, item, stamp)
  }

  lemma {:induction false} ImportOpsFormats(n: int)
    ensures PageFormats(ImportOps(n)) == seq(if n <= 0 then 0 else n, i => DefaultFormat)
    decreases n
  {
    if n > 0 {
      var two := [AddPageOp(DefaultFormat), UseTemplateOp(n)];
      ImportOpsFormats(n - 1);
      PageFormatsAppend(ImportOps(n - 1), two);
      assert two[1..][1..] == [];
      assert PageFormats(two[1..]) == [];
    }
  }

  /** A rebuild keeps the page count of the file it starts from (a file has
      at least its cover page). */
  lemma RebuildKeepsPageCount(pageCount: int, s: Segment, itemId: string, item: Item, stamp: string)
    requires pageCount >= 1
    ensures PageCount(RebuildOps(pageCount, s, itemId, item, stamp)) == pageCount
    ensures PageFormats(RebuildOps(pageCount, s, itemId, item, stamp))[pageCount - 1]
         == Sized(Portrait, A4WidthMM, A4HeightMM)
  {
    ImportOpsFormats(pageCount - 1);
    CoverAddsOneA4Page(s, itemId, item, stamp);
    PageFormatsAppend(ImportOps(pageCount - 1), CoverOps(s, itemId, item, stamp));
  }

  /** Rebuilding the file of a full build gives the same number of pages:
      the segment's pages plus one cover. */
  lemma RebuildAfterFullBuild(s: Segment, itemId: string, item: Item, pages: seq<MeasuredPage>,
                              books: map<string, Book>, cfg: Config, stamp: string, s2: Segment, item2: Item, stamp2: string)
    requires PagesOps(s.pageIds, pages, books, cfg).Success?
    ensures var n := PageCount(BuildOps(s, itemId, item, pages, books, cfg, stamp));
      PageCount(RebuildOps(n, s2, itemId, item2, stamp2)) == n == |s.pageIds| + 1
  {
    FullBuildPages(s, itemId, item, pages, books, cfg, stamp);
    RebuildKeepsPageCount(|s.pageIds| + 1, s2, itemId, item2, stamp2);
  }

  method ImportPages(doc: Document, pageCount: int)
    modifies doc`ops
    ensures doc.ops == old(doc.ops) + ImportOps(pageCount - 1)
  {
    ghost var ops0 := doc.ops;
    var pageNo := 1;
    while pageNo <= pageCount - 1
      invariant 1 <= pageNo && (pageCount >= 1 ==> pageNo <= pageCount) && (pageCount < 1 ==> pageNo == 1)
      invariant doc.ops == ops0 + ImportOps(pageNo - 1)
      decreases pageCount - pageNo
    {
      doc.AddPage(DefaultFormat);
      doc.UseTemplate(pageNo);
      AppendAssoc(ops0, ImportOps(pageNo - 1), [AddPageOp(DefaultFormat), UseTemplateOp(pageNo)]);
      pageNo := pageNo + 1;
    }
    assert pageCount < 1 ==> ImportOps(pageCount - 1) == [] && ImportOps(pageNo - 1) == [];
  }

  // ---------------------------------------------------------------------------
  // generate_article_pdf
  // ---------------------------------------------------------------------------

  /** How a run ends: an early return, exit(1), a rethrown exception, a
      fatal error nothing catches, a page loop this model does not follow to
      its end, FPDI failing to open the missing output file, a call on the
      null document when neither branch ran, or the PDF written to the named
      file. */
  datatype Outcome =
    | Skipped
    | NoItemId
    | Exited
    | Raised(message: string)
    | Crashed
    | Untracked
    | SourceMissing
    | NullDocument
    | Written(file: string)

  function ExceptionMessage(id: string, message: string): string {
    "Exception while processing segment " + id + ": " + message
  }

  /** The outcome of a run whose page loop stopped. */
  function StopOutcome(id: string, stop: Stop): (o: Outcome)
    ensures !o.Written? && o != NullDocument
  {
    match stop
    case Thrown(message) => Raised(ExceptionMessage(id, message))
    case FatalError => Crashed
    case Unfollowed => Untracked
  }

  const Subject: string := "From the Biodiversity Heritage Library (BHL)"

  predicate ImagesPresent(details: seq<PageDetail>) {
    forall i :: 0 <= i < |details| ==> Truthy(details[i].jpgFile)
  }

  /** The pages_changed branch: the DjVu files, the geometry loop, the page
      loop and the cover. */
  method BuildDocument(id: string, s: Segment, itemId: string, item: Item, details: seq<PageDetail>,
                       djvus: map<string, PhpDjvu>, ghost books: map<string, Book>, cfg: Config, stamp: string)
    returns (failure: Option<Outcome>, doc: Document)
    requires books == Books(djvus)
    ensures fresh(doc) && doc.title == "" && doc.author == "" && doc.subject == "" && doc.creator == ""
    ensures djvus == map[] || !ImagesPresent(details) ==> failure == Some(Exited)
    ensures djvus != map[] && ImagesPresent(details) ==>
      var built := PagesOps(s.pageIds, MeasureAll(details, cfg.resize), books, cfg);
      (built.Failure? ==> failure == Some(StopOutcome(id, built.error)))
      && (built.Success? ==>
            failure.None? && doc.ops == BuildOps(s, itemId, item, MeasureAll(details, cfg.resize), books, cfg, stamp))
  {
    doc := new Document();
    if djvus == map[] {
      return Some(Exited), doc;
    }
    var measured := ComputeGeometry(details, cfg.resize);
    if measured.None? {
      return Some(Exited), doc;
    }
    var r := AddSegmentPages(doc, s.pageIds, measured.value, djvus, books, cfg);
    if r.Failure? {
      return Some(StopOutcome(id, r.error)), doc;
    }
    ghost var pagesOps := doc.ops;
    assert pagesOps == PagesOps(s.pageIds, MeasureAll(details, cfg.resize), books, cfg).value;
    AddCoverPage(doc, s, itemId, item, stamp);
    return None, doc;
  }

  /** The metadata_changed branch: a new document with the old file's pages
      except its last, then a new cover. */
  method RebuildDocument(s: Segment, itemId: string, item: Item, existing: Option<nat>, stamp: string)
    returns (failure: Option<Outcome>, doc: Document)
    ensures fresh(doc) && doc.title == "" && doc.author == "" && doc.subject == "" && doc.creator == ""
    ensures existing.None? ==> failure == Some(SourceMissing)
    ensures existing.Some? ==> failure.None? && doc.ops == RebuildOps(existing.value, s, itemId, item, stamp)
  {
    doc := new Document();
    if existing.None? {
      return Some(SourceMissing), doc;
    }
    ImportPages(doc, existing.value);
    assert doc.ops == ImportOps(existing.value - 1);
    AddCoverPage(doc, s, itemId, item, stamp);
    return None, doc;
  }

  /** The four metadata fields. The title is the citation and the author
      field the joined author entries (both before utf8_decode). */
  method SetMetadata(doc: Document, s: Segment)
    modifies doc`title, doc`author, doc`subject, doc`creator
    ensures doc.title == GetCitation(CitationPart(s)) && doc.author == AuthorMetadata(s.authors)
    ensures doc.subject == Subject && doc.creator == s.partUrl
  {
    doc.SetTitle(GetCitation(CitationPart(s)));
    doc.SetAuthor(AuthorMetadata(s.authors));
    doc.SetSubject(Subject);
    doc.SetCreator(s.partUrl);
  }

  /** The segment is one the generator processes: it exists, is not an
      external link, and names its item. */
  predicate Processable(segment: Option<Segment>, item: Option<Item>) {
    segment.Some? && !(segment.value.externalUrl.Some? && segment.value.externalUrl.value != "")
    && segment.value.itemId.Some? && item.Some?
  }

  /** The calls recorded in the document a run produces: the rebuild from the
      old file when the metadata changed, otherwise the full build. */
  predicate ProducedOps(ops: seq<DocOp>, buildPages: bool, metadataChanged: bool, existing: Option<nat>,
                        s: Segment, itemId: string, item: Item, built: Result<seq<DocOp>, Stop>, stamp: string)
  {
    (metadataChanged ==> existing.Some? && ops == RebuildOps(existing.value, s, itemId, item, stamp))
    && (!metadataChanged ==> buildPages && built.Success? && ops == built.value + CoverOps(s, itemId, item, stamp))
  }

  /** The page build either is not asked for or runs to its end: the DjVu
      files and every image are there and no page stops the loop. */
  predicate BuildGoesThrough(buildPages: bool, djvus: map<string, PhpDjvu>, details: seq<PageDetail>,
                             built: Result<seq<DocOp>, Stop>)
  {
    !buildPages || (djvus != map[] && ImagesPresent(details) && built.Success?)
  }

  /** The two branches of generate_article_pdf for a processable segment,
      then the metadata. */
  method Produce(cfg: Config, id: string, buildPages: bool, metadataChanged: bool, existing: Option<nat>,
                 s: Segment, itemId: string, item: Item, details: seq<PageDetail>,
                 djvus: map<string, PhpDjvu>, ghost books: map<string, Book>, stamp: string)
    returns (outcome: Outcome, doc: Document?)
    requires books == Books(djvus)
    ensures !buildPages && !metadataChanged ==> outcome == NullDocument
    ensures buildPages && (djvus == map[] || !ImagesPresent(details)) ==> outcome == Exited
    ensures buildPages && djvus != map[] && ImagesPresent(details) && PagesOps(s.pageIds, MeasureAll(details, cfg.resize), books, cfg).Failure?
            ==> outcome == StopOutcome(id, PagesOps(s.pageIds, MeasureAll(details, cfg.resize), books, cfg).error)
    ensures metadataChanged && existing.None? ==> !outcome.Written?
    ensures BuildGoesThrough(buildPages, djvus, details, PagesOps(s.pageIds, MeasureAll(details, cfg.resize), books, cfg))
            && metadataChanged && existing.None?
            ==> outcome == SourceMissing
    ensures BuildGoesThrough(buildPages, djvus, details, PagesOps(s.pageIds, MeasureAll(details, cfg.resize), books, cfg))
            && metadataChanged && existing.Some?
            ==> outcome == Written(OutputFilename(cfg.outputDir, id, cfg.desaturate))
    ensures buildPages && !metadataChanged && djvus != map[] && ImagesPresent(details)
            && PagesOps(s.pageIds, MeasureAll(details, cfg.resize), books, cfg).Success?
            ==> outcome == Written(OutputFilename(cfg.outputDir, id, cfg.desaturate))
    ensures outcome.Written? ==>
      doc != null && outcome.file == OutputFilename(cfg.outputDir, id, cfg.desaturate)
      && doc.title == GetCitation(CitationPart(s)) && doc.author == AuthorMetadata(s.authors)
      && doc.subject == Subject && doc.creator == s.partUrl
      && ProducedOps(doc.ops, buildPages, metadataChanged, existing, s, itemId, item,
                     PagesOps(s.pageIds, MeasureAll(details, cfg.resize), books, cfg), stamp)
  {
    var failure;
    failure, doc := ChooseDocument(id, buildPages, metadataChanged, existing, s, itemId, item, details, djvus, books, cfg, stamp);
    if failure.Some? {
      return failure.value, null;
    }
    if doc == null {
      return NullDocument, null;
    }
    SetMetadata(doc, s);
    return Written(OutputFilename(cfg.outputDir, id, cfg.desaturate)), doc;
  }

  /** The two branches that make the document: the full build when the pages
      are to be built, then, when the metadata changed, the rebuild from the
      old file, which replaces whatever the first branch built. */
  method ChooseDocument(id: string, buildPages: bool, metadataChanged: bool, existing: Option<nat>,
                        s: Segment, itemId: string, item: Item, details: seq<PageDetail>,
                        djvus: map<string, PhpDjvu>, ghost books: map<string, Book>, cfg: Config, stamp: string)
    returns (failure: Option<Outcome>, doc: Document?)
    requires books == Books(djvus)
    ensures failure.Some? ==> !failure.value.Written? && failure.value != NullDocument
    ensures buildPages && (djvus == map[] || !ImagesPresent(details)) ==> failure == Some(Exited)
    ensures buildPages && djvus != map[] && ImagesPresent(details) && PagesOps(s.pageIds, MeasureAll(details, cfg.resize), books, cfg).Failure?
            ==> failure == Some(StopOutcome(id, PagesOps(s.pageIds, MeasureAll(details, cfg.resize), books, cfg).error))
    ensures !buildPages && !metadataChanged ==> failure.None? && doc == null
    ensures metadataChanged && existing.None? ==> failure.Some?
    ensures BuildGoesThrough(buildPages, djvus, details, PagesOps(s.pageIds, MeasureAll(details, cfg.resize), books, cfg))
            && metadataChanged && existing.None?
            ==> failure == Some(SourceMissing)
    ensures BuildGoesThrough(buildPages, djvus, details, PagesOps(s.pageIds, MeasureAll(details, cfg.resize), books, cfg))
            && metadataChanged && existing.Some?
            ==> failure.None? && doc != null
    ensures buildPages && !metadataChanged && djvus != map[] && ImagesPresent(details)
            && PagesOps(s.pageIds, MeasureAll(details, cfg.resize), books, cfg).Success?
            ==> failure.None? && doc != null
    ensures failure.None? && doc != null ==>
      fresh(doc) && ProducedOps(doc.ops, buildPages, metadataChanged, existing, s, itemId, item,
                                PagesOps(s.pageIds, MeasureAll(details, cfg.resize), books, cfg), stamp)
  {
    failure, doc := None, null;
    if buildPages {
      var built;
      failure, built := BuildDocument(id, s, itemId, item, details, djvus, books, cfg, stamp);
      if failure.Some? {
        return;
      }
      doc := built;
    }
    if metadataChanged {
      var rebuilt;
      failure, rebuilt := RebuildDocument(s, itemId, item, existing, stamp);
      if failure.Some? {
        return;
      }
      doc := rebuilt;
    }
  }

  /** generate_article_pdf. The fetchers' results (segment, item, page
      details, parsed DjVu files, whether and with how many pages the output
      file exists) and the date stamp are parameters. A missing output file
      forces the pages to be built. */
  method GenerateArticlePdf(cfg: Config, id: string, pagesChanged: bool, metadataChanged: bool,
                            existing: Option<nat>, segment: Option<Segment>, item: Option<Item>,
                            details: seq<PageDetail>, djvus: map<string, PhpDjvu>, ghost books: map<string, Book>, stamp: string)
    returns (outcome: Outcome, doc: Document?)
    requires books == Books(djvus)
    ensures segment.None? ==> outcome == Skipped
    ensures segment.Some? && segment.value.externalUrl.Some? && segment.value.externalUrl.value != "" ==> outcome == Skipped
    ensures (segment.Some? && !(segment.value.externalUrl.Some? && segment.value.externalUrl.value != "")
             && segment.value.itemId.None?) ==> outcome == NoItemId
    ensures segment.Some? && !(segment.value.externalUrl.Some? && segment.value.externalUrl.value != "")
            && segment.value.itemId.Some? && item.None?
            ==> outcome == Skipped
    ensures !Processable(segment, item) ==> !outcome.Written?
    ensures Processable(segment, item) && !pagesChanged && !metadataChanged && existing.Some? ==> outcome == NullDocument
    ensures Processable(segment, item) && (pagesChanged || existing.None?) && (djvus == map[] || !ImagesPresent(details))
            ==> outcome == Exited
    ensures Processable(segment, item) && (pagesChanged || existing.None?) && djvus != map[] && ImagesPresent(details)
            && PagesOps(segment.value.pageIds, MeasureAll(details, cfg.resize), books, cfg).Failure?
            ==> outcome == StopOutcome(id, PagesOps(segment.value.pageIds, MeasureAll(details, cfg.resize), books, cfg).error)
    ensures Processable(segment, item) && (pagesChanged || existing.None?) && !metadataChanged
            && djvus != map[] && ImagesPresent(details) && PagesOps(segment.value.pageIds, MeasureAll(details, cfg.resize), books, cfg).Success?
            ==> outcome == Written(OutputFilename(cfg.outputDir, id, cfg.desaturate))
    ensures Processable(segment, item) && metadataChanged && existing.None? ==> !outcome.Written?
    ensures Processable(segment, item) && BuildGoesThrough(pagesChanged || existing.None?, djvus, details, PagesOps(segment.value.pageIds, MeasureAll(details, cfg.resize), books, cfg))
            && metadataChanged && existing.None?
            ==> outcome == SourceMissing
    ensures Processable(segment, item) && BuildGoesThrough(pagesChanged || existing.None?, djvus, details, PagesOps(segment.value.pageIds, MeasureAll(details, cfg.resize), books, cfg))
            && metadataChanged && existing.Some?
            ==> outcome == Written(OutputFilename(cfg.outputDir, id, cfg.desaturate))
    ensures outcome.Written? ==>
      var s := segment.value;
      doc != null && outcome.file == OutputFilename(cfg.outputDir, id, cfg.desaturate)
      && doc.title == GetCitation(CitationPart(s)) && doc.author == AuthorMetadata(s.authors)
      && doc.subject == Subject && doc.creator == s.partUrl
      && ProducedOps(doc.ops, pagesChanged || existing.None?, metadataChanged, existing, s, s.itemId.value, item.value,
                     PagesOps(s.pageIds, MeasureAll(details, cfg.resize), books, cfg), stamp)
  {
    var buildPages := pagesChanged || existing.None?;
    if segment.None? {
      return Skipped, null;
    }
    var s := segment.value;
    if s.externalUrl.Some? && s.externalUrl.value != "" {
      return Skipped, null;
    }
    if s.itemId.None? {
      return NoItemId, null;
    }
    if item.None? {
      return Skipped, null;
    }
    outcome, doc := Produce(cfg, id, buildPages, metadataChanged, existing, s, s.itemId.value, item.value, details, djvus, books, stamp);
  }
}
