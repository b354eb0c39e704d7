# BHL article PDF generator: a verified model of its core

The Biodiversity Heritage Library publishes each article ("segment") of a
scanned book as a PDF. The generator builds the PDF from the book's page
images and its DjVu XML text layer. This project models three parts of it in
Dafny 4 and proves properties of the model:

- **The DjVu XML parser** `PhpDjvu` (`djvu.dfy`, module `Djvu`). It walks
  OBJECT / HIDDENTEXT / PAGECOLUMN / REGION / PARAGRAPH / LINE / WORD. It
  decodes each word's `coords` field and records each line's bounding
  envelope. It keeps one page record per page name and a sequence index of
  page names. Its getters scale a page's lines or words by `factor / dpi`.
  The parser is a `class` whose fields `pages` and `pageSequences` are updated
  in place by its methods. The parse loops are methods proved against
  recursive specification functions.
- **The force-justified cell** `CustomPdf::Cell` (`force_justify.dfy`, module
  `ForceJustify`). It makes these decisions:
  - the automatic page break, with the word spacing saved and restored;
  - the width resolution when `w == 0`;
  - the frame and borders;
  - the word spacing for `FJ` that fills the inner width;
  - the escaping of `\`, `(` and `)`;
  - the choice between a TJ array and `Tj`;
  - the font-subset update;
  - the link area;
  - the `0 Tw` reset;
  - the cursor advance.

  The content stream is a sequence of operator values. Text formatting
  (`sprintf`) is not modelled.
- **MakePDF in `PDFGenerator`** (`citation.dfy`, module `Citation`, and
  `make_pdf.dfy`, module `MakePdf`). It covers these steps:
  - the output path;
  - the geometry loop, which fits each page image to A4;
  - the page loop: a page of the measured size, the OCR lines as invisible
    force-justified cells, then the image;
  - the cover page;
  - the citation used as the document title;
  - the author metadata;
  - the `escapeshellarg_special` quoting;
  - the branching of `generate_article_pdf`: full build, metadata-only
    rebuild from the existing file, and the early exits.

  The PDF document is a `class Document` that records the drawing calls made
  on it.

`php_strings.dfy` (module `PhpStrings`) holds the PHP built-ins the core
relies on, as byte-string functions:
- truthiness;
- `explode` and `implode`;
- reading a numeric string;
- `trim`;
- `str_replace` of one byte;
- `substr_count`;
- the PCRE `$` anchor.

Strings are PHP byte strings: one `char` per byte.

## Model

| member | source | states |
|---|---|---|
| PhpStrings.Explode | packages/bhl/pdfgenerator/lib/djvu.php:121 | explode yields at least one piece and no piece contains the separator byte |
| PhpStrings.ImplodeExplode | packages/bhl/pdfgenerator/lib/djvu.php:121 | joining the pieces of explode with the same byte gives back the original string (no byte is lost) |
| PhpStrings.ExplodeImplode | packages/bhl/pdfgenerator/lib/djvu.php:137 | explode inverts implode for pieces that do not contain the glue byte |
| PhpStrings.ExplodeCount | packages/bhl/pdfgenerator/src/ForceJustify.php:71-72 | explode(' ', t) has one more piece than substr_count(t, ' ') |
| PhpStrings.CountChar | packages/bhl/pdfgenerator/src/ForceJustify.php:50 | substr_count of one byte is at most the length and is zero exactly when the byte is absent |
| PhpStrings.LeadingDigits | packages/bhl/pdfgenerator/lib/djvu.php:130-133 | the longest all-digit prefix of a field; for an all-digit field this is the number PHP reads (LeadingDigitsOfDigits), other fields are listed under Left out |
| PhpStrings.ShowNat | packages/bhl/pdfgenerator/lib/djvu.php:121 | a printed natural number is a non-empty run of digits |
| PhpStrings.ShowNatValue | packages/bhl/pdfgenerator/lib/djvu.php:121 | the digits of a printed natural number have that number as value |
| PhpStrings.LeadingDigitsOfDigits | packages/bhl/pdfgenerator/lib/djvu.php:130-133 | an all-digit field is read in full |
| PhpStrings.NumeralValueOfShowNat | packages/bhl/pdfgenerator/lib/djvu.php:130-133 | reading back a printed coordinate gives the coordinate |
| PhpStrings.ReplaceChar | packages/bhl/pdfgenerator/src/PDFGenerator.php:1060 | str_replace of a byte that does not occur leaves the string unchanged |
| PhpStrings.ReplaceCharByNothing | packages/bhl/pdfgenerator/src/PDFGenerator.php:1060 | replacing NUL by "" leaves no NUL byte and never lengthens the string |
| PhpStrings.ReplaceCharConcat | packages/bhl/pdfgenerator/src/ForceJustify.php:61 | a one-byte str_replace works piecewise over a concatenation |
| PhpStrings.TrimLeft | packages/bhl/pdfgenerator/src/PDFGenerator.php:1015 | left trimming removes exactly the leading run of space, tab, LF, CR, NUL and VT: every removed byte is one of them and the kept suffix does not start with one |
| PhpStrings.TrimRight | packages/bhl/pdfgenerator/src/PDFGenerator.php:1015 | right trimming removes exactly the trailing run of those bytes: every removed byte is one of them and the kept prefix does not end with one |
| PhpStrings.Trim | packages/bhl/pdfgenerator/src/PDFGenerator.php:1015 | trim keeps one contiguous slice of the string; every byte before and after it is whitespace, and the slice neither starts nor ends with whitespace |
| Djvu.FirstParam | packages/bhl/pdfgenerator/lib/djvu.php:149-155 | _get_object_param is null exactly when no PARAM has the name, and otherwise gives the value of the FIRST PARAM with it |
| Djvu.FindExtension | packages/bhl/pdfgenerator/lib/djvu.php:86 | a found extension (dot plus 3 or 4 bytes) lies inside the name |
| Djvu.FindExtensionIsLeftmost | packages/bhl/pdfgenerator/lib/djvu.php:86 | `\..{3,4}$` matches nowhere exactly when none is found, and otherwise the leftmost match is taken, greedy (4 before 3) |
| Djvu.NoDotNoChange | packages/bhl/pdfgenerator/lib/djvu.php:86 | a page name without a dot is kept as it is |
| Djvu.StripKnownExtension | packages/bhl/pdfgenerator/lib/djvu.php:86 | "base.jpg" or "base.djvu" loses exactly its extension and dot |
| Djvu.DecodeEncodeCoords | packages/bhl/pdfgenerator/lib/djvu.php:119-128 | decoding coords written as x1,y2,x2,y1,unused recovers the word's box (field 0 = x1, 3 = y1, 2 = x2, 1 = y2) |
| Djvu.DecodeExample | packages/bhl/pdfgenerator/lib/djvu.php:120-128 | "100,250,300,50,0" is the box x1=100, y1=50, x2=300, y2=250 |
| Djvu.ExampleCoords | packages/bhl/pdfgenerator/lib/djvu.php:120 | the encoder writes the box of that example in the documented field order |
| Djvu.EnvelopeIsTight | packages/bhl/pdfgenerator/lib/djvu.php:113-133 | for coordinates within the sentinels the min/max accumulators give the tight envelope: every word inside it, each side touched by some word |
| Djvu.EnvelopeClampsAtSentinel | packages/bhl/pdfgenerator/lib/djvu.php:113-133 | if every word starts beyond 10000000, the line reports x1 = 10000000 (the sentinel) |
| Djvu.DecodeWords | packages/bhl/pdfgenerator/lib/djvu.php:118-128 | one decoded word per WORD, in order |
| Djvu.WordTexts | packages/bhl/pdfgenerator/lib/djvu.php:129 | one text per WORD, in order |
| Djvu.LineOfWords | packages/bhl/pdfgenerator/lib/djvu.php:110-142 | a stored line keeps every word in order; its text is the word texts joined by single spaces; for in-range coordinates its box encloses exactly its words |
| Djvu.LinesOf | packages/bhl/pdfgenerator/lib/djvu.php:110-117 | a paragraph gives at most one line per LINE |
| Djvu.LinesOfHaveWords | packages/bhl/pdfgenerator/lib/djvu.php:117 | no line of a paragraph is stored without a word |
| Djvu.ParagraphsLinesHaveWords | packages/bhl/pdfgenerator/lib/djvu.php:108-117 | no line of a column is stored without a word |
| Djvu.ColumnsLinesHaveWords | packages/bhl/pdfgenerator/lib/djvu.php:106-117 | no line of a page is stored without a word |
| Djvu.PageLinesHaveWords | packages/bhl/pdfgenerator/lib/djvu.php:103-147 | every line _parse_words returns has at least one word |
| Djvu.AllWordsAppend | packages/bhl/pdfgenerator/lib/djvu.php:34-35 | the words of two runs of lines are those of the first run, then those of the second |
| Djvu.LinesOfKeepsWords | packages/bhl/pdfgenerator/lib/djvu.php:110-142 | the words of a paragraph's stored lines are all its WORDs, in order |
| Djvu.ParagraphsKeepWords | packages/bhl/pdfgenerator/lib/djvu.php:108-144 | the words of a column's stored lines are all its WORDs, in order |
| Djvu.PageLinesKeepWords | packages/bhl/pdfgenerator/lib/djvu.php:103-147 | no word is lost or reordered: a page's stored lines hold exactly the WORDs of the page, in document order |
| Djvu.PageNames | packages/bhl/pdfgenerator/lib/djvu.php:84-86 | one page name per OBJECT, in order |
| Djvu.StoredNames | packages/bhl/pdfgenerator/lib/djvu.php:92-97 | a name has a record after parsing exactly when it had one before or some OBJECT carries it |
| Djvu.UnnamedPageKept | packages/bhl/pdfgenerator/lib/djvu.php:92-97 | a record whose name no OBJECT carries is left unchanged |
| Djvu.LastPageWins | packages/bhl/pdfgenerator/lib/djvu.php:81-98 | when OBJECTs share a name, the record kept is that of the last one, with its 1-based position as sequence |
| Djvu.StoreStep | packages/bhl/pdfgenerator/lib/djvu.php:92-99 | one more OBJECT stores its record under its name and appends its name to the sequence index |
| Djvu.ScaleIdentity | packages/bhl/pdfgenerator/lib/djvu.php:61-64 | with factor = dpi = 1 a line comes back as its raw origin, width and height |
| Djvu.ScaleInverse | packages/bhl/pdfgenerator/lib/djvu.php:61-64 | the scaled box times dpi / factor is the raw box: scaling loses nothing |
| Djvu.PhpDjvu.constructor | packages/bhl/pdfgenerator/lib/djvu.php:9-12 | a truthy file name is parsed into the records and the sequence index; "" or "0" leaves both empty |
| Djvu.PhpDjvu.File | packages/bhl/pdfgenerator/lib/djvu.php:14-17 | parsing another file adds to the records and appends to the sequence index; nothing is cleared |
| Djvu.PhpDjvu.Init | packages/bhl/pdfgenerator/lib/djvu.php:70-77 | parses only when the file name is truthy |
| Djvu.PhpDjvu.ParsePages | packages/bhl/pdfgenerator/lib/djvu.php:79-101 | the loop stores one record per OBJECT, numbered from 1, and appends each name to the index |
| Djvu.PhpDjvu.StorePage | packages/bhl/pdfgenerator/lib/djvu.php:92-99 | the loop body updates the name's record and appends the name |
| Djvu.PhpDjvu.ParseWords | packages/bhl/pdfgenerator/lib/djvu.php:103-147 | the column loop returns the lines of PageLines, skipping columns without PARAGRAPH |
| Djvu.PhpDjvu.ParseParagraphs | packages/bhl/pdfgenerator/lib/djvu.php:108-144 | the paragraph loop returns ParagraphsLines, skipping paragraphs without LINE |
| Djvu.PhpDjvu.ParseLines | packages/bhl/pdfgenerator/lib/djvu.php:110-143 | the line loop returns LinesOf, skipping LINEs without WORD |
| Djvu.PhpDjvu.ParseLine | packages/bhl/pdfgenerator/lib/djvu.php:111-142 | the word loop builds LineOf: the words, the joined text and the accumulated envelope |
| Djvu.PhpDjvu.GetPageLines | packages/bhl/pdfgenerator/lib/djvu.php:49-68 | an unknown page raises "Page ID … not found."; otherwise every stored line, in order, scaled by factor / divisor; a zero divisor gives no lines for a page without lines and NonFinite for one with lines |
| Djvu.PhpDjvu.GetPageWords | packages/bhl/pdfgenerator/lib/djvu.php:26-46 | an unknown page raises the same error; otherwise every word of every line, line after line, scaled by factor / divisor; a zero divisor gives no words for a wordless page and NonFinite otherwise |
| Djvu.Divisor | packages/bhl/pdfgenerator/lib/djvu.php:30-53 | a non-zero dpi is the divisor; dpi 0 is replaced by the value of the page name's first byte, non-zero exactly when that byte is a digit 1-9 |
| Djvu.SequenceIndex | packages/bhl/pdfgenerator/lib/djvu.php:19-24 | after parsing, GetPageBySequence(i) is the name of the (i+1)-th OBJECT, or null out of range; the record of a last-named page carries sequence i + 1 |
| ForceJustify.EscapeOneChar | packages/bhl/pdfgenerator/src/ForceJustify.php:61 | the three replacements on one byte escape it exactly once |
| ForceJustify.EscapeLiteralConcat | packages/bhl/pdfgenerator/src/ForceJustify.php:61 | the escaping works piecewise over a concatenation |
| ForceJustify.EscapeLiteralIsPerChar | packages/bhl/pdfgenerator/src/ForceJustify.php:61 | the replacement order is right: the backslash added before a parenthesis is not doubled again |
| ForceJustify.EscapeRoundTrip | packages/bhl/pdfgenerator/src/ForceJustify.php:61 | the escaped text has no bare parenthesis, and `Unescape` inverts the line-61 escaping for every string |
| ForceJustify.EscapeEachRoundTrip | packages/bhl/pdfgenerator/src/ForceJustify.php:61 | the same round trip for per-byte escaping |
| ForceJustify.FjSpacingFills | packages/bhl/pdfgenerator/src/ForceJustify.php:47-54 | the FJ word spacing makes the text plus one spacing per space exactly the inner width (w - 2 cMargin); with no space, all the slack goes to the one spacing |
| ForceJustify.Dx | packages/bhl/pdfgenerator/src/ForceJustify.php:43-60 | R aligns the text to w - cMargin, C centres it, anything else (FJ included) starts at cMargin |
| ForceJustify.AdjustmentMovesByWordSpacing | packages/bhl/pdfgenerator/src/ForceJustify.php:78 | the TJ adjustment moves the next glyph by exactly the word spacing in points (section 9.4.3 of ISO 32000-1) |
| ForceJustify.TjItems | packages/bhl/pdfgenerator/src/ForceJustify.php:71-81 | the TJ array alternates the encoded pieces with an adjustment and space: 2n - 1 items for n pieces |
| ForceJustify.TjCoversText | packages/bhl/pdfgenerator/src/ForceJustify.php:71-81 | the TJ pieces joined with spaces are the text, with one adjustment per space of the text |
| ForceJustify.AddCodePoints | packages/bhl/pdfgenerator/src/ForceJustify.php:67-68 | every code point of the text is added to the subset as itself; other entries are unchanged |
| ForceJustify.CountTextOpsConcat | packages/bhl/pdfgenerator/src/ForceJustify.php:111-113 | counting text operators is additive over a concatenation |
| ForceJustify.CellShowsTextOnce | packages/bhl/pdfgenerator/src/ForceJustify.php:22-113 | a cell shows its text with exactly one operator (none for empty text), and uses a TJ array exactly when a word spacing is set with a Unicode subset font |
| ForceJustify.FrameShowsNoText | packages/bhl/pdfgenerator/src/ForceJustify.php:23-41 | the frame and border operators show no text |
| ForceJustify.TextOpsShowOnce | packages/bhl/pdfgenerator/src/ForceJustify.php:62-102 | the text part holds its show operator once |
| ForceJustify.NoTextOps | packages/bhl/pdfgenerator/src/ForceJustify.php:23-41 | a stream without show operators counts none |
| ForceJustify.CustomPdf.AddPage | packages/bhl/pdfgenerator/src/ForceJustify.php:13 | a new page, with the cursor at the top-left margins |
| ForceJustify.CustomPdf.AddToSubset | packages/bhl/pdfgenerator/src/ForceJustify.php:67-68 | the subset loop registers each code point as AddCodePoints does |
| ForceJustify.CustomPdf.BuildTjItems | packages/bhl/pdfgenerator/src/ForceJustify.php:71-81 | the TJ loop builds exactly TjItems |
| ForceJustify.CustomPdf.Cell | packages/bhl/pdfgenerator/src/ForceJustify.php:4-128 | Cell adds a page exactly when the break test holds; it writes the break, the frame and text, then the FJ reset; it registers the link area; it leaves ws at 0 after FJ; it moves the cursor to NextX/NextY |
| ForceJustify.CustomPdf.AutoPageBreak | packages/bhl/pdfgenerator/src/ForceJustify.php:6-19 | the page-break test and its output, with x and the word spacing kept |
| ForceJustify.CustomPdf.DrawCell | packages/bhl/pdfgenerator/src/ForceJustify.php:20-127 | the cell at a resolved width: its output, then "0 Tw" for FJ, and the cursor advance |
| ForceJustify.CustomPdf.Advance | packages/bhl/pdfgenerator/src/ForceJustify.php:119-127 | ln > 0 moves down by h (to the left margin for ln = 1); otherwise the cursor moves right by w |
| ForceJustify.CustomPdf.Draw | packages/bhl/pdfgenerator/src/ForceJustify.php:22-113 | frame and text are written with one `_out` when non-empty, after the FJ spacing |
| ForceJustify.CustomPdf.BreakPage | packages/bhl/pdfgenerator/src/ForceJustify.php:7-18 | a positive word spacing is suspended with "0 Tw" around AddPage and restored; x is kept |
| ForceJustify.CustomPdf.Frame | packages/bhl/pdfgenerator/src/ForceJustify.php:23-41 | the rectangle (B, f or S) when filled or border == 1, then the named sides L, T, R, B |
| ForceJustify.CustomPdf.TextPart | packages/bhl/pdfgenerator/src/ForceJustify.php:42-110 | for non-empty text: the FJ spacing, the escaped show operator with colour and underline, the subset and the link |
| ForceJustify.CustomPdf.Decorate | packages/bhl/pdfgenerator/src/ForceJustify.php:62-102 | colour, the show operator, underline, then the colour restore |
| ForceJustify.CustomPdf.AddLink | packages/bhl/pdfgenerator/src/ForceJustify.php:103-109 | a truthy link registers an area as wide as the inner cell for FJ, otherwise as the escaped text |
| ForceJustify.CustomPdf.Placement | packages/bhl/pdfgenerator/src/ForceJustify.php:43-60 | the text offset, and for FJ the spacing written at once as Tw in points |
| ForceJustify.CustomPdf.ShowPart | packages/bhl/pdfgenerator/src/ForceJustify.php:66-95 | TJ with per-space adjustments when ws is non-zero and the font is a Unicode subset; otherwise Tj; a Unicode font registers the code points |
| ForceJustify.FjResetsSpacing | packages/bhl/pdfgenerator/src/ForceJustify.php:114-118 | after any FJ cell the word spacing is 0 and the last stream entry is "0 Tw" |
| Citation.StripTrailingComma | packages/bhl/pdfgenerator/src/PDFGenerator.php:1000 | stripping never lengthens a name |
| Citation.StripWithoutMatch | packages/bhl/pdfgenerator/src/PDFGenerator.php:1000 | a name that `,\s?$` does not match is kept |
| Citation.StripRemovesLeftmostMatch | packages/bhl/pdfgenerator/src/PDFGenerator.php:1000 | otherwise exactly the leftmost match is cut, and no match remains after it |
| Citation.StripCommaSuffix | packages/bhl/pdfgenerator/src/PDFGenerator.php:1000 | "Name," and "Name, " lose the comma and the whitespace |
| Citation.StrippedNames | packages/bhl/pdfgenerator/src/PDFGenerator.php:999-1001 | one stripped name per author, in order |
| Citation.AuthorStringMentionsInOrder | packages/bhl/pdfgenerator/src/PDFGenerator.php:1002-1010 | one name is given alone; two as "A and B"; three as "A, B, and C"; four or more as the first name and " et al." |
| Citation.FirstYear | packages/bhl/pdfgenerator/src/PDFGenerator.php:1023 | a found year is four digits |
| Citation.FirstYearIsLeftmost | packages/bhl/pdfgenerator/src/PDFGenerator.php:1023-1025 | `(\d\d\d\d)` finds nothing exactly when there are no four consecutive digits, and otherwise finds the leftmost run |
| Citation.SkipClassRun | packages/bhl/pdfgenerator/src/PDFGenerator.php:1052 | a run of bytes from the class is skipped up to the first byte outside it |
| Citation.CollapseDashBytes | packages/bhl/pdfgenerator/src/PDFGenerator.php:1052 | as written, no hyphen remains in the page range |
| Citation.CollapseBytesPlainPrefix | packages/bhl/pdfgenerator/src/PDFGenerator.php:1052 | text without class bytes is copied |
| Citation.CollapseDashBytesMangelsEmDash | packages/bhl/pdfgenerator/src/PDFGenerator.php:1052 | as written, an em dash becomes an en dash followed by a stray byte 0x94 (see Findings) |
| Citation.CollapseDashBytesRun | packages/bhl/pdfgenerator/src/PDFGenerator.php:1052 | as written, a non-empty run of hyphens and en dashes between texts without dash-class bytes becomes one en dash |
| Citation.CollapseAgreesOnPlainRanges | packages/bhl/pdfgenerator/src/PDFGenerator.php:1052 | on such ranges the byte-class normalisation and the character one give the same text |
| Citation.SkipDashes | packages/bhl/pdfgenerator/src/PDFGenerator.php:1052 | as intended, a run of hyphens and en dashes is skipped as characters |
| Citation.CollapseDashes | packages/bhl/pdfgenerator/src/PDFGenerator.php:1052 | as intended, no hyphen remains in the page range |
| Citation.CollapseDashesKeepsOtherText | packages/bhl/pdfgenerator/src/PDFGenerator.php:1052 | as intended, text without hyphens and en dashes is kept as it is |
| Citation.CollapseDashesKeepsEmDash | packages/bhl/pdfgenerator/src/PDFGenerator.php:1052 | as intended, "1—9" is kept |
| Citation.SkipDashRun | packages/bhl/pdfgenerator/src/PDFGenerator.php:1052 | any mix of hyphens and en dashes is skipped as one run |
| Citation.CollapsePlainPrefix | packages/bhl/pdfgenerator/src/PDFGenerator.php:1052 | text without dash bytes is copied |
| Citation.CollapseDashRun | packages/bhl/pdfgenerator/src/PDFGenerator.php:1052 | "12-15", "12--15", "12–-15" all become "12–15": a non-empty dash run becomes one en dash |
| Citation.CollapseLeadingRun | packages/bhl/pdfgenerator/src/PDFGenerator.php:1052 | a leading dash run becomes one en dash |
| Citation.GetCitation | packages/bhl/pdfgenerator/src/PDFGenerator.php:1060 | the citation has no NUL byte, is no longer than the text before the replacement, and is that text exactly when it had no NUL |
| Citation.CitationFrame | packages/bhl/pdfgenerator/src/PDFGenerator.php:1014-1059 | the citation text starts with the author part and ends with the DOI part ("https://doi.org/<doi>." when there is a DOI) |
| Citation.CitationOfDoiOnly | packages/bhl/pdfgenerator/src/PDFGenerator.php:1056-1060 | a segment with only a DOI cites as "https://doi.org/<doi>." |
| Citation.EtAlNotDoubled | packages/bhl/pdfgenerator/src/PDFGenerator.php:1008-1019 | four or more authors start the citation with "<first> et al. ": the full stop is not doubled |
| Citation.PrefixKept | packages/bhl/pdfgenerator/src/PDFGenerator.php:1014-1059 | the later parts are appended: the author part stays a prefix |
| Citation.EtAlAuthorPart | packages/bhl/pdfgenerator/src/PDFGenerator.php:1014-1019 | "X et al." already ends in a full stop, so only a space is added |
| Citation.TrimLeftKeepsLast | packages/bhl/pdfgenerator/src/PDFGenerator.php:1015 | trimming keeps a last byte that is not whitespace |
| Citation.RunsTextAppend | packages/bhl/pdfgenerator/src/PDFGenerator.php:337-394 | the text of consecutive Write runs concatenates |
| Citation.RunsTextOne | packages/bhl/pdfgenerator/src/PDFGenerator.php:340 | one Write run writes its text |
| Citation.RunsTextSeven | packages/bhl/pdfgenerator/src/PDFGenerator.php:337-394 | the seven citation pieces write their texts in order |
| Citation.CoverAuthorMatches | packages/bhl/pdfgenerator/src/PDFGenerator.php:338-344 | the cover tests the untrimmed author string, get_citation the trimmed one (1015); on a trimmed string they write the same |
| Citation.CoverDateMatches | packages/bhl/pdfgenerator/src/PDFGenerator.php:345-351 | the cover's date matches get_citation's (1022-1026) |
| Citation.CoverTitleMatches | packages/bhl/pdfgenerator/src/PDFGenerator.php:352-358 | without final punctuation the cover title matches get_citation's (1027) |
| Citation.CoverContainerMatches | packages/bhl/pdfgenerator/src/PDFGenerator.php:359-363 | the italic container title writes get_citation's text (1028-1032) |
| Citation.CoverVolumeMatches | packages/bhl/pdfgenerator/src/PDFGenerator.php:365-380 | volume and issue match get_citation's (1034-1049) |
| Citation.CoverPageMatches | packages/bhl/pdfgenerator/src/PDFGenerator.php:382-385 | the page range matches get_citation's (1051-1054) |
| Citation.CoverDoiMatches | packages/bhl/pdfgenerator/src/PDFGenerator.php:387-394 | the DOI link run and the full stop write get_citation's DOI part (1056-1059) |
| Citation.CoverMatchesCitation | packages/bhl/pdfgenerator/src/PDFGenerator.php:337-394 | the cover's citation text equals the document title's citation when the author string is trimmed, the title has no final punctuation and there is no NUL |
| Citation.AuthorEntries | packages/bhl/pdfgenerator/src/PDFGenerator.php:271-274 | one "Name (Dates)" entry per author, in order |
| Citation.CountCharImplode | packages/bhl/pdfgenerator/src/PDFGenerator.php:276 | joining n entries with "; " puts n - 1 semicolons between them |
| Citation.CountCharConcat | packages/bhl/pdfgenerator/src/PDFGenerator.php:276 | counting a byte is additive over a concatenation |
| Citation.AuthorMetadataSplitsPerAuthor | packages/bhl/pdfgenerator/src/PDFGenerator.php:271-276 | if no entry holds ';', the author metadata splits at ';' into exactly one piece per author |
| Citation.OutputFilename | packages/bhl/pdfgenerator/src/PDFGenerator.php:71-73 | the output file always ends in ".pdf" |
| Citation.OutputFilenameInShard | packages/bhl/pdfgenerator/src/PDFGenerator.php:71-74 | the file lies in the shard directory output/L1/L2 |
| Citation.OutputFilenameInjective | packages/bhl/pdfgenerator/src/PDFGenerator.php:71-73 | two segments never share an output file, whatever the length of their ids |
| Citation.IdInOutputFilename | packages/bhl/pdfgenerator/src/PDFGenerator.php:71-73 | the id sits at an offset fixed by the id's length (the shard letters take min(|id|, 2) bytes), followed by ".pdf" or "-grey.pdf" |
| Citation.UpTo | packages/bhl/pdfgenerator/src/PDFGenerator.php:874-876 | finds the first occurrence of a quote byte, or reports that there is none |
| Citation.UpToFirst | packages/bhl/pdfgenerator/src/PDFGenerator.php:874-876 | UpTo returns the first occurrence |
| Citation.EscapeShellArgRoundTrip | packages/bhl/pdfgenerator/src/PDFGenerator.php:874-876 | a POSIX shell reads the quoted argument as exactly the original string, quotes included |
| Citation.UnquoteSingleQuoted | packages/bhl/pdfgenerator/src/PDFGenerator.php:874-876 | a string without quotes, in single quotes, denotes itself |
| Citation.UnquotePieces | packages/bhl/pdfgenerator/src/PDFGenerator.php:875 | the shell reads 'a' then "'" then the rest |
| Citation.EscapeAtFirstQuote | packages/bhl/pdfgenerator/src/PDFGenerator.php:875 | the quoting splits at the first quote into 'a', "'" and the quoted rest |
| MakePdf.Trunc | packages/bhl/pdfgenerator/src/PDFGenerator.php:161-162 | the (int) cast truncates toward zero: the result is within 1 of the value, on the side of zero |
| MakePdf.OrientationByPixels | packages/bhl/pdfgenerator/src/PDFGenerator.php:161-182 | the pixel sizes are non-negative; a page is portrait exactly when it is taller than wide, so a square page is landscape; the A4 ratio (169) plays no part |
| MakePdf.PortraitFitsA4Height | packages/bhl/pdfgenerator/src/PDFGenerator.php:174-185 | a portrait page is 297 mm high and less than that wide |
| MakePdf.FitScale | packages/bhl/pdfgenerator/src/PDFGenerator.php:176-185 | dividing by side / c maps that side to c and a shorter side below c |
| MakePdf.LandscapeFitsA4Width | packages/bhl/pdfgenerator/src/PDFGenerator.php:178-185 | a landscape page of non-zero width is 210 mm wide and at most that high |
| MakePdf.EmptyImageGeometry | packages/bhl/pdfgenerator/src/PDFGenerator.php:161-185 | an image with no pixels after resizing is landscape, with a zero scale and a 0 x 0 mm size |
| MakePdf.ComputeGeometry | packages/bhl/pdfgenerator/src/PDFGenerator.php:153-186 | the loop stops the run (exit 1) exactly when some page has no image file; otherwise every page gets PageGeometry, in order |
| MakePdf.MeasureAll | packages/bhl/pdfgenerator/src/PDFGenerator.php:153-186 | one measured entry per page detail |
| MakePdf.MeasurePage | packages/bhl/pdfgenerator/src/PDFGenerator.php:159-185 | the loop body computes PageGeometry |
| MakePdf.Document.AddPage | packages/bhl/pdfgenerator/src/PDFGenerator.php:217 | records one page of the given format |
| MakePdf.Document.UseTemplate | packages/bhl/pdfgenerator/src/PDFGenerator.php:253 | records drawing an imported page |
| MakePdf.Document.SetXY | packages/bhl/pdfgenerator/src/PDFGenerator.php:226 | records a cursor move |
| MakePdf.Document.SetY | packages/bhl/pdfgenerator/src/PDFGenerator.php:331 | records a vertical cursor move |
| MakePdf.Document.Cell | packages/bhl/pdfgenerator/src/PDFGenerator.php:227 | records a cell call |
| MakePdf.Document.Image | packages/bhl/pdfgenerator/src/PDFGenerator.php:229 | records an image placement |
| MakePdf.Document.Write | packages/bhl/pdfgenerator/src/PDFGenerator.php:340 | records a styled text run |
| MakePdf.Document.Ln | packages/bhl/pdfgenerator/src/PDFGenerator.php:396 | records a line break |
| MakePdf.Document.SetTitle | packages/bhl/pdfgenerator/src/PDFGenerator.php:268 | sets the title field |
| MakePdf.Document.SetAuthor | packages/bhl/pdfgenerator/src/PDFGenerator.php:276 | sets the author field |
| MakePdf.Document.SetSubject | packages/bhl/pdfgenerator/src/PDFGenerator.php:279 | sets the subject field |
| MakePdf.Document.SetCreator | packages/bhl/pdfgenerator/src/PDFGenerator.php:289 | sets the creator field |
| MakePdf.PageFormatsAppend | packages/bhl/pdfgenerator/src/PDFGenerator.php:201-262 | the pages of consecutive calls are those of the first calls, then those of the rest |
| MakePdf.FindPage | packages/bhl/pdfgenerator/src/PDFGenerator.php:202 | `$page_details['pageid-'.$pg]` exists exactly when some entry has that id, and the entry found has it |
| MakePdf.DrawLines | packages/bhl/pdfgenerator/src/PDFGenerator.php:225-228 | the line loop records setXY and a bordered FJ Cell per line, in order |
| MakePdf.AddSegmentPage | packages/bhl/pdfgenerator/src/PDFGenerator.php:217-229 | one page raises GetPageLines' exception, stops as unfollowed on a zero divisor with text, or records the page, its lines and its image (PageOps) |
| MakePdf.AddPageById | packages/bhl/pdfgenerator/src/PDFGenerator.php:201-231 | one pass of the loop: a page id without a row is fatal unless a book is keyed "", a row whose book was not read is fatal, otherwise the page (PageStepOps) |
| MakePdf.PagesOpsFailurePersists | packages/bhl/pdfgenerator/src/PDFGenerator.php:201-231 | a stop on an early page is the loop's stop |
| MakePdf.PagesOpsStep | packages/bhl/pdfgenerator/src/PDFGenerator.php:201-231 | each page's calls follow the earlier pages' calls, or its stop ends the loop |
| MakePdf.PagesOpsFirstStop | packages/bhl/pdfgenerator/src/PDFGenerator.php:201-231 | the loop ends with the stop of the first page that stops |
| MakePdf.AddSegmentPages | packages/bhl/pdfgenerator/src/PDFGenerator.php:201-231 | the page loop records PagesOps for the segment's pages in order, or stops with the first exception, fatal error or unfollowed page |
| MakePdf.SegmentFormats | packages/bhl/pdfgenerator/src/PDFGenerator.php:201-217 | one page format per page id |
| MakePdf.LineOpsAddNoPage | packages/bhl/pdfgenerator/src/PDFGenerator.php:225-228 | the OCR lines add no page |
| MakePdf.PageOpsAddOnePage | packages/bhl/pdfgenerator/src/PDFGenerator.php:217-229 | a segment page adds exactly one page, of its measured orientation and size |
| MakePdf.PagesOpsFormats | packages/bhl/pdfgenerator/src/PDFGenerator.php:201-231 | a loop that runs to its end found a row for every page id and added one page per id, in order, each of its measured size |
| MakePdf.SegmentFormatsLast | packages/bhl/pdfgenerator/src/PDFGenerator.php:201-217 | the formats of a page list end with the format of its last page |
| MakePdf.OcrRegistersWithImage | packages/bhl/pdfgenerator/src/PDFGenerator.php:224-229 | for a placed image of exactly resize times the original's pixels, a point at raw OCR pixel c lies at its pixel c·resize, and the scaled text box and the image put it at the same place on the page |
| MakePdf.MmPerPixel | packages/bhl/pdfgenerator/src/PDFGenerator.php:229 | an image placed with width -DPMM·25.4 (a dpi) puts pixel p at p / DPMM mm |
| MakePdf.PageImageFitsPage | packages/bhl/pdfgenerator/src/PDFGenerator.php:174-229 | a placed image of the measured pixel size (the original's times resize) spans the A4 height on a portrait page and the A4 width on a landscape one |
| MakePdf.AuthorNames | packages/bhl/pdfgenerator/src/PDFGenerator.php:999-1001 | one name per author, in order |
| MakePdf.WriteOps | packages/bhl/pdfgenerator/src/PDFGenerator.php:337-394 | one Write call per run |
| MakePdf.CoverHead | packages/bhl/pdfgenerator/src/PDFGenerator.php:310-331 | an A4 portrait page, the logo, then y = 100 |
| MakePdf.WriteRuns | packages/bhl/pdfgenerator/src/PDFGenerator.php:337-394 | each run is written in turn |
| MakePdf.CoverCitation | packages/bhl/pdfgenerator/src/PDFGenerator.php:337-397 | the citation runs at 7 mm, then two line breaks |
| MakePdf.WriteCitationBlock | packages/bhl/pdfgenerator/src/PDFGenerator.php:337-397 | the runs, then two line breaks |
| MakePdf.WriteLinkLine | packages/bhl/pdfgenerator/src/PDFGenerator.php:403-410 | a bold caption, an underlined self-link, a line break |
| MakePdf.CoverLinks | packages/bhl/pdfgenerator/src/PDFGenerator.php:402-427 | the item link, the DOI link when the DOI is set, the permalink, a blank line |
| MakePdf.WriteBlock | packages/bhl/pdfgenerator/src/PDFGenerator.php:435-443 | a bold heading line, the value, a blank line |
| MakePdf.WriteLabelledLink | packages/bhl/pdfgenerator/src/PDFGenerator.php:468-474 | a label, the value as an underlined self-link, a line break |
| MakePdf.CoverCopyright | packages/bhl/pdfgenerator/src/PDFGenerator.php:455-467 | the copyright status, and the rights holder when set |
| MakePdf.CoverRights | packages/bhl/pdfgenerator/src/PDFGenerator.php:434-484 | holding institution and sponsor when set, then copyright, licence and rights |
| MakePdf.CoverFoot | packages/bhl/pdfgenerator/src/PDFGenerator.php:489-510 | the credit to the library, then the stamp at y = 270 |
| MakePdf.AddCoverPage | packages/bhl/pdfgenerator/src/PDFGenerator.php:309-512 | add_cover_page appends exactly the cover calls after whatever is already there |
| MakePdf.NoPages | packages/bhl/pdfgenerator/src/PDFGenerator.php:309-512 | calls without AddPage add no page |
| MakePdf.CitationAddsNoPage | packages/bhl/pdfgenerator/src/PDFGenerator.php:337-397 | the citation block adds no page |
| MakePdf.CitationBlockAddsNoPage | packages/bhl/pdfgenerator/src/PDFGenerator.php:337-397 | any block of runs adds no page |
| MakePdf.LinksAddNoPage | packages/bhl/pdfgenerator/src/PDFGenerator.php:402-427 | the links add no page |
| MakePdf.NoPagesConcat | packages/bhl/pdfgenerator/src/PDFGenerator.php:309-512 | two page-free runs of calls stay page-free together |
| MakePdf.BlockAddsNoPage | packages/bhl/pdfgenerator/src/PDFGenerator.php:435-452 | a heading block adds no page |
| MakePdf.LabelledLinkAddsNoPage | packages/bhl/pdfgenerator/src/PDFGenerator.php:468-483 | a labelled link adds no page |
| MakePdf.CopyrightAddsNoPage | packages/bhl/pdfgenerator/src/PDFGenerator.php:455-467 | the copyright lines add no page |
| MakePdf.RightsAddNoPage | packages/bhl/pdfgenerator/src/PDFGenerator.php:434-484 | the rights block adds no page |
| MakePdf.CreditSplits | packages/bhl/pdfgenerator/src/PDFGenerator.php:492-494 | the regular and the bold run together form the credit sentence |
| MakePdf.FootAddsNoPage | packages/bhl/pdfgenerator/src/PDFGenerator.php:489-510 | no suffix of the foot adds a page |
| MakePdf.CoverAddsOneA4Page | packages/bhl/pdfgenerator/src/PDFGenerator.php:309-512 | the cover's first call adds an A4 portrait page, and it is the cover's only page |
| MakePdf.CoverEndsWithCredit | packages/bhl/pdfgenerator/src/PDFGenerator.php:489-510 | the credit sentence is written as two consecutive runs nine calls from the end, with no page after it |
| MakePdf.CoverBodyNotEmpty | packages/bhl/pdfgenerator/src/PDFGenerator.php:309-484 | the cover has calls before the credit |
| MakePdf.CreditFollowsBody | packages/bhl/pdfgenerator/src/PDFGenerator.php:489-510 | whatever precedes the foot, the credit starts nine calls from the end |
| MakePdf.WrittenTextOfRuns | packages/bhl/pdfgenerator/src/PDFGenerator.php:337-394 | the Write calls of runs write the runs' text |
| MakePdf.WrittenTextAppend | packages/bhl/pdfgenerator/src/PDFGenerator.php:337-394 | the written text of consecutive calls concatenates |
| MakePdf.CoverShowsCitation | packages/bhl/pdfgenerator/src/PDFGenerator.php:337-397 | the cover writes the same citation as the document title (268) when the two tests agree |
| MakePdf.CitationBlockText | packages/bhl/pdfgenerator/src/PDFGenerator.php:337-397 | the citation block writes its runs' text and nothing else |
| MakePdf.FullBuildPages | packages/bhl/pdfgenerator/src/PDFGenerator.php:201-238 | a full build has one page per page id, in order and of the measured sizes, then one A4 portrait cover: the page count is the number of page ids plus one |
| MakePdf.ImportOpsFormats | packages/bhl/pdfgenerator/src/PDFGenerator.php:247-254 | the import loop adds n default-size pages (none for n ≤ 0) |
| MakePdf.RebuildKeepsPageCount | packages/bhl/pdfgenerator/src/PDFGenerator.php:241-264 | a metadata rebuild from a file of n ≥ 1 pages makes n AddPage calls, the last for an A4 portrait cover |
| MakePdf.RebuildAfterFullBuild | packages/bhl/pdfgenerator/src/PDFGenerator.php:201-264 | rebuilding the file of a full build makes as many AddPage calls as the build: the page ids plus one cover |
| MakePdf.ImportPages | packages/bhl/pdfgenerator/src/PDFGenerator.php:247-254 | the loop imports pages 1 to pageCount - 1: a default page, then the template drawn on it |
| MakePdf.BuildDocument | packages/bhl/pdfgenerator/src/PDFGenerator.php:124-240 | no DjVu file or a missing image exits; otherwise a page-loop exception is rethrown as "Exception while processing segment <id>: …", a fatal error crashes the run and an unfollowed page leaves it untracked; otherwise the document holds the pages, then the cover |
| MakePdf.RebuildDocument | packages/bhl/pdfgenerator/src/PDFGenerator.php:241-264 | with no existing file FPDI fails; otherwise the document holds the imported pages, then a new cover |
| MakePdf.SetMetadata | packages/bhl/pdfgenerator/src/PDFGenerator.php:266-289 | the title is the citation, the author the "; "-joined entries, the subject the fixed BHL text, the creator the part URL |
| MakePdf.ChooseDocument | packages/bhl/pdfgenerator/src/PDFGenerator.php:124-264 | neither flag: no document; a page build exits or stops as BuildDocument says; once the page build is skipped or goes through, a metadata change yields SourceMissing without the old file and a document with it, replacing the full build; the document holds the calls of the branch that ran last |
| MakePdf.Produce | packages/bhl/pdfgenerator/src/PDFGenerator.php:124-292 | a page build that exits or stops ends the run with that outcome; once it is skipped or goes through, a metadata change gives SourceMissing without the old file and Written with it (the default run with both flags), and a full build alone gives Written; a written document goes to the output path with the metadata and the calls of the chosen branch |
| MakePdf.GenerateArticlePdf | packages/bhl/pdfgenerator/src/PDFGenerator.php:68-302 | no segment or an external URL is skipped; no ItemID fails; a failed item fetch is skipped; a missing output file forces the page build, whose exit or stop is the outcome; once the page build is skipped or goes through, a metadata change gives SourceMissing without the old file and writes the PDF with it, and a completed build without a metadata change writes the PDF; a written PDF goes to the output path with the citation title, the author entries, the subject and the part URL, and holds the calls of the branch that ran |

## Left out

- I/O and services are parameters of `GenerateArticlePdf`. These are the API and database fetchers, `getimagesize`, reading the DjVu XML file, `file_exists` and the page count of an existing output file. Left out entirely: the `convert` resize command (206-216), logging, verbose printing, `mkdir`, `chmod`, writing the XMP metadata with `exiftool`, and `exit`, which becomes an outcome value.
- The generation date of the cover (509) is a parameter `stamp`, because it reads the clock.
- The keyword list (PDFGenerator.php:282-287) is computed but never passed to the document. Nothing of it is modelled.
- `utf8_decode` of the title and author (268, 276) is left out: the model states the metadata before that conversion.
- Fonts, font sizes, margins and text colours are left out. Font and colour changes before a `Write` are folded into the run's style (regular, bold, italic, underlined).
- `sprintf` number formatting is left out. ForceJustify writes content-stream operators as values carrying exact real coordinates, not as formatted text.
- Floating point is modelled as exact reals. The A4 fit lemmas are exact-arithmetic statements. Rounding in PHP's float division is not modelled.
- `_dounderline`, `GetStringWidth`, `UTF8ToUTF16BE`, `_escape` and `UTF8StringToArray` are tFPDF code that is not part of this model. They are parameters of `Settings`.
- ForceJustify.BorderIsOne treats only the string "1" as equal to 1. PHP's loose comparison also accepts forms such as "1.0" or " 1", which are not modelled.
- The `CustomPdf` class is modelled on its own. In `MakePdf`, the page loop records the `Cell` call with its arguments rather than running `CustomPdf.Cell`.
- Djvu.PhpDjvu.GetPageLines: with a zero divisor and at least one line, PHP 7 only warns about the division by zero and returns lines at INF or NAN coordinates. The model returns `NonFinite` instead of those lines. The divisor itself follows PHP 7.3: the dpi-0 fallback reads `$page['dpi']` from the page-name string (djvu.php:30, 53), that is its first byte.
- Djvu.PhpDjvu.GetPageWords: the same `NonFinite` result for a zero divisor with at least one word.
- MakePdf.AddSegmentPage: a page whose scale (DPMM) is 0 comes from an image with no pixels after resizing (PDFGenerator.php:161-185, see `EmptyImageGeometry`), and line 224 passes that 0 to GetPageLines. Its divisor is then the first byte of the page name, usually 0. When such a page has text lines, the source goes on with INF or NAN coordinates; the model stops the loop with `Unfollowed`, and the run's outcome is `Untracked` instead of the file written from those coordinates.
- MakePdf.AddPageById: a page id without a page_details row reads `$p = null` (202). When a book is keyed "" and that book has a page named "", the source draws a page from the null row's fields; the model stops with `Unfollowed` instead. The other null-row cases are modelled: the call on a null `$djvu` is a fatal error (`Crashed`), and a missing page raises.
- MakePdf.RebuildKeepsPageCount: counts AddPage calls. The FPDI document of the rebuild (242) keeps automatic page breaks on, unlike the full build's `SetAutoPageBreak(false)` (192). A cover whose text runs past the break margin therefore gains pages that the count does not include.
- MakePdf.RebuildAfterFullBuild: counts AddPage calls too, with the same automatic page-break gap in the rebuild.
- The parsed DjVu files enter the page loop as a snapshot of their contents (`Books`). The loop does not change them, so nothing is lost.
- Word coordinates are kept as naturals: an all-digit field is read as PHP reads it, and a missing field reads as 0. The source keeps them as strings and converts on use. Negative coordinates are not modelled.
- Page ids are integers. Aliasing between `$page_details` entries is not modelled; the geometry loop's entries are values.
- The message of the FPDI exception for a missing output file is not modelled. Only the outcome `SourceMissing` is.
- The PHP warning when the geometry loop divides by zero is not modelled; the model follows PHP 7's value. A zero width gives INF (or NAN), and casting it to int gives 0.

- ForceJustify.EscapeRoundTrip: the text escaped at ForceJustify.php:61 is escaped a second time by `_escape` on every output path (lines 77, 88 and 91). The model passes `EscapeLiteral(txt)` to the `escape` parameter of `Settings` in the same way. So a PDF reader unescapes the string once and gets `EscapeLiteral(txt)`, not `txt`, whenever the text holds `\`, `(` or `)`. The lemma states only that `Unescape` inverts the line-61 escaping.
- MakePdf.OcrRegistersWithImage: the placed file is made by `convert -resize (int)(resize*100)%` (PDFGenerator.php:207-212), which is not modelled. For example, resize 0.125 gives 12% and 0.29 gives 28%, and ImageMagick rounds the pixel sizes. The lemma takes the placed image to be exactly resize times the original, which holds for resize 1, where no conversion runs.
- MakePdf.PageImageFitsPage: the same assumption. The measured pixel size (PDFGenerator.php:160-161) is taken as the placed file's size, which the percentage resize need not give.

- PhpStrings.LeadingDigits: a coordinate field is read as its leading digits. PHP 7 reads more than that in the arithmetic of djvu.php:38-41 and 61-64: leading whitespace, a sign, a fraction and an exponent (" 12" is 12, "+5" is 5, "12.5" is 12.5, "1e3" is 1000). The model agrees with PHP only on all-digit fields, which is what the DjVu XML writes.
- Djvu.DecodeWord: the min/max comparisons of djvu.php:130-133 compare two strings as text unless both are numeric strings, so "9a" > "12" there. The model compares the fields' numeric values. It agrees with PHP on all-digit fields.
- ForceJustify.CustomPdf.Cell: the automatic break at ForceJustify.php:13 calls AddPage with the current orientation and no size. tFPDF then starts the new page at the document's default size and resets its width, its height and the page-break trigger. The model keeps the old page's size in `Settings`. After a break from a page of custom size, a zero width (lines 20-21) and the frame and text y coordinates therefore use the old size. tFPDF is not part of this model. The generator itself never reaches this path: the full build turns automatic breaks off (PDFGenerator.php:192).
- ForceJustify.CustomPdf.AddPage: the same gap. The new page keeps the old page's size where tFPDF switches to the default size.

## Findings

| source | as written | input that shows it | evidently intended | confidence | as-written member | corrected member |
|---|---|---|---|---|---|---|
| packages/bhl/pdfgenerator/src/PDFGenerator.php:1052 (and 383) | `preg_replace("/[–-]+/", "–", …)` without the `u` flag: the class is a class of BYTES (the three bytes of the en dash and the hyphen) | a page range "1—9" with an em dash (bytes E2 80 94): the E2 80 prefix is replaced by an en dash and the byte 94 is left behind, giving "1–\x949", which is not valid UTF-8 | collapse runs of hyphens and en dashes, read as characters, into one en dash, leaving other characters such as the em dash intact (CollapseDashesKeepsOtherText keeps dash-free text, em dashes included) | not executed | Citation.CollapseDashBytesMangelsEmDash | Citation.CollapseDashRun |

The citation and the cover page use the normalisation as written: `PagePart` calls `CollapseDashBytes`, so a title or cover built from an em-dash range carries the stray byte, as the program's does. `CollapseDashes` is the intended normalisation. It is proved beside the written one, and `CollapseAgreesOnPlainRanges` shows that the two agree on ranges of plain text around one run of hyphens and en dashes.
