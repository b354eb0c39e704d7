/** The string-building parts of MakePDF: the author string, the citation
    (get_citation and the citation runs of the cover page), the author
    metadata, the output path and the shell quoting helper
    escapeshellarg_special. Strings are PHP byte strings, one char per byte. */
module Citation {
  import opened PhpStrings

  // ---------------------------------------------------------------------------
  // Author names: preg_replace('/,\s?$/', '', $name)
  // ---------------------------------------------------------------------------

  /** The regular expression `,\s?$` matches at i: a comma, at most one
      whitespace byte, then the end of the subject (or its final newline). */
  predicate CommaMatchAt(s: string, i: int) {
    0 <= i < |s| && s[i] == ',' &&
    (AtDollar(s, i + 1) || (i + 1 < |s| && IsPcreSpace(s[i + 1]) && AtDollar(s, i + 2)))
  }

  /** Where the match at i ends: `\s?` is greedy, so it takes the whitespace
      byte whenever `$` still matches after it. */
  function MatchEnd(s: string, i: int): int
    requires CommaMatchAt(s, i)
  {
    if i + 1 < |s| && IsPcreSpace(s[i + 1]) && AtDollar(s, i + 2) then i + 2 else i + 1
  }

  /** The name with its trailing comma removed, by the three places the match
      can start: before a whitespace byte and a final newline, before one
      final whitespace byte, or at the last byte. */
  function StripTrailingComma(s: string): (r: string)
    ensures |r| <= |s|
  {
    var n := |s|;
    if n >= 3 && s[n - 3] == ',' && IsPcreSpace(s[n - 2]) && s[n - 1] == '\n' then s[..n - 3] + "\n"
    else if n >= 2 && s[n - 2] == ',' && IsPcreSpace(s[n - 1]) then s[..n - 2]
    else if n >= 1 && s[n - 1] == ',' then s[..n - 1]
    else s
  }

  /** A name the pattern does not match is kept as it is. */
  lemma StripWithoutMatch(s: string)
    requires forall i :: 0 <= i < |s| ==> !CommaMatchAt(s, i)
    ensures StripTrailingComma(s) == s
  {
    var n := |s|;
    assert !CommaMatchAt(s, n - 3) && !CommaMatchAt(s, n - 2) && !CommaMatchAt(s, n - 1);
  }

  /** Otherwise exactly the leftmost match is cut out, as preg_replace does:
      no second match remains after it. */
  lemma StripRemovesLeftmostMatch(s: string, i: int)
    requires CommaMatchAt(s, i)
    requires forall j :: 0 <= j < i ==> !CommaMatchAt(s, j)
    ensures StripTrailingComma(s) == s[..i] + s[MatchEnd(s, i)..]
    ensures forall j :: MatchEnd(s, i) <= j < |s| ==> !CommaMatchAt(s, j)
  {
    var n := |s|;
    if 0 <= n - 3 < i {
      assert !CommaMatchAt(s, n - 3);
    }
    if 0 <= n - 2 < i {
      assert !CommaMatchAt(s, n - 2);
    }
  }

  /** A comma, with or without one trailing whitespace byte, is stripped. */
  lemma StripCommaSuffix(name: string, tail: string)
    requires tail == "," || (|tail| == 2 && tail[0] == ',' && IsPcreSpace(tail[1]) && tail[1] != '\n')
    ensures StripTrailingComma(name + tail) == name
  {
    var s := name + tail;
    assert s[..|name|] == name;
  }

  // ---------------------------------------------------------------------------
  // The author string
  // ---------------------------------------------------------------------------

  /** The author names as listed, each with its trailing comma stripped. */
  function StrippedNames(names: seq<string>): (r: seq<string>)
    ensures |r| == |names|
    ensures forall i :: 0 <= i < |names| ==> r[i] == StripTrailingComma(names[i])
  {
    seq(|names|, i requires 0 <= i < |names| => StripTrailingComma(names[i]))
  }

  /** The author string for already stripped names: one name, "A and B",
      "A, B, and C", or the first name and "et al." for four or more. */
  function AuthorString(authors: seq<string>): (r: string)
    ensures |authors| == 0 ==> r == ""
    ensures |authors| >= 1 ==> |r| >= |authors[0]| && r[..|authors[0]|] == authors[0]
  {
    if |authors| == 1 then authors[0]
    else if |authors| == 2 then authors[0] + " and " + authors[1]
    else if |authors| == 3 then authors[0] + ", " + authors[1] + ", and " + authors[2]
    else if |authors| != 0 then authors[0] + " et al."
    else ""
  }

  /** The names the author string mentions: all of them up to three, the first
      one beyond that. */
  function Mentioned(authors: seq<string>): seq<string> {
    if |authors| <= 3 then authors else authors[..1]
  }

  /** The author string lists the mentioned names in order, separated as
      English prose does, and marks the omitted ones with "et al.". */
  lemma AuthorStringMentionsInOrder(authors: seq<string>)
    ensures |authors| == 1 ==> AuthorString(authors) == Implode(", ", Mentioned(authors))
    ensures 2 <= |authors| <= 3 ==> var m := Mentioned(authors);
      AuthorString(authors) == Implode(", ", m[..|m| - 1]) + (if |m| == 3 then "," else "") + " and " + m[|m| - 1]
    ensures |authors| >= 4 ==> AuthorString(authors) == Mentioned(authors)[0] + " et al."
  {
    var m := Mentioned(authors);
    if |authors| == 2 {
      assert m[..1] == [authors[0]];
      assert Implode(", ", m[..1]) == authors[0];
    } else if |authors| == 3 {
      assert m[..2] == [authors[0], authors[1]];
      assert Implode(", ", m[..2]) == authors[0] + ", " + Implode(", ", [authors[1]]);
    }
  }

  // ---------------------------------------------------------------------------
  // Regular expressions of the citation
  // ---------------------------------------------------------------------------

  /** preg_match('/\.$/', t): a full stop at the end, or just before a final newline. */
  predicate EndsWithPeriod(t: string) {
    exists j :: 0 <= j < |t| && t[j] == '.' && AtDollar(t, j + 1)
  }

  /** preg_match("/['?,.:;]$/", t) on the title of the cover page. */
  predicate EndsWithPunctuation(t: string) {
    exists j :: 0 <= j < |t| && t[j] in "'?,.:;" && AtDollar(t, j + 1)
  }

  predicate YearAt(s: string, i: int) {
    0 <= i && i + 4 <= |s| && AllDigits(s[i..i + 4])
  }

  /** preg_match('/(\d\d\d\d)/', s, $m): the first run of four digits. */
  function FirstYear(s: string): (r: Option<string>)
    ensures r.Some? ==> |r.value| == 4 && AllDigits(r.value)
    decreases |s|
  {
    if |s| < 4 then None
    else if AllDigits(s[..4]) then Some(s[..4])
    else FirstYear(s[1..])
  }

  /** FirstYear finds the leftmost four-digit run, and finds one whenever there is one. */
  lemma {:induction false} FirstYearIsLeftmost(s: string)
    ensures FirstYear(s).None? <==> forall i :: 0 <= i ==> !YearAt(s, i)
    ensures FirstYear(s).Some? ==>
      exists i :: YearAt(s, i) && FirstYear(s).value == s[i..i + 4] && forall j :: 0 <= j < i ==> !YearAt(s, j)
    decreases |s|
  {
    if |s| < 4 {
    } else if AllDigits(s[..4]) {
      assert YearAt(s, 0) && s[..4] == s[0..0 + 4];
    } else {
      FirstYearIsLeftmost(s[1..]);
      assert !YearAt(s, 0) by { assert s[0..0 + 4] == s[..4]; }
      forall i | 0 <= i
        ensures YearAt(s, i + 1) <==> YearAt(s[1..], i)
      {
        if i + 5 <= |s| {
          assert s[i + 1..i + 1 + 4] == s[1..][i..i + 4];
        }
      }
      if FirstYear(s).None? {
        forall i | 0 <= i
          ensures !YearAt(s, i)
        {
          if i > 0 {
            assert !YearAt(s[1..], i - 1);
          }
        }
      } else {
        var i :| YearAt(s[1..], i) && FirstYear(s[1..]).value == s[1..][i..i + 4]
          && forall j :: 0 <= j < i ==> !YearAt(s[1..], j);
        assert s[1..][i..i + 4] == s[i + 1..i + 1 + 4];
        forall j | 0 <= j < i + 1
          ensures !YearAt(s, j)
        {
          if j > 0 {
            assert !YearAt(s[1..], j - 1);
          }
        }
        assert YearAt(s, i + 1);
      }
    }
  }

  /** The date as cited: its first four-digit run when it has one, otherwise as given. */
  function CitedDate(date: string): string {
    match FirstYear(date)
    case Some(y) => y
    case None => date
  }

  // ---------------------------------------------------------------------------
  // Page ranges: preg_replace("/[–-]+/", "–", $range)
  // ---------------------------------------------------------------------------

  /** The en dash U+2013 in UTF-8. */
  const EnDash: string := "\U{E2}\U{80}\U{93}"

  /** Without the `u` flag the class `[–-]` is a class of bytes: the three
      bytes of the en dash and the hyphen. */
  predicate InDashClass(c: char) {
    c == '\U{E2}' || c == '\U{80}' || c == '\U{93}' || c == '-'
  }

  function SkipClassRun(s: string): (r: string)
    ensures |r| <= |s| && r == s[|s| - |r|..]
    ensures r != [] ==> !InDashClass(r[0])
    decreases |s|
  {
    if s != [] && InDashClass(s[0]) then SkipClassRun(s[1..]) else s
  }

  /** The page-range normalisation as written: every run of bytes from the
      class becomes one en dash. */
  function CollapseDashBytes(s: string): (r: string)
    ensures '-' !in r
    decreases |s|
  {
    if s == [] then []
    else if InDashClass(s[0]) then EnDash + CollapseDashBytes(SkipClassRun(s[1..]))
    else [s[0]] + CollapseDashBytes(s[1..])
  }

  /** The em dash U+2014 in UTF-8; it shares two bytes with the en dash. */
  const EmDash: string := "\U{E2}\U{80}\U{94}"

  /** None of the class's bytes occurs in s. */
  predicate NoClassBytes(s: string) {
    '\U{E2}' !in s && '\U{80}' !in s && '\U{93}' !in s && '-' !in s
  }

  /** Text without bytes of the class is copied as it is. */
  lemma {:induction false} CollapseBytesPlainPrefix(a: string, t: string)
    requires NoClassBytes(a)
    ensures CollapseDashBytes(a + t) == a + CollapseDashBytes(t)
    decreases |a|
  {
    if a != [] {
      var s := a + t;
      assert s[0] == a[0];
      assert s[1..] == a[1..] + t;
      CollapseBytesPlainPrefix(a[1..], t);
      assert CollapseDashBytes(s) == [a[0]] + (a[1..] + CollapseDashBytes(t));
      AppendAssoc([a[0]], a[1..], CollapseDashBytes(t));
      assert [a[0]] + a[1..] == a;
    } else {
      assert a + t == t;
    }
  }

  /** As written, an em dash between two texts without dash bytes comes out
      as an en dash followed by a stray continuation byte: the em dash is
      neither kept nor collapsed. */
  lemma CollapseDashBytesMangelsEmDash(a: string, b: string)
    requires NoClassBytes(a) && NoClassBytes(b)
    ensures CollapseDashBytes(a + EmDash + b) == a + EnDash + "\U{94}" + b
  {
    var e := EmDash + b;
    assert a + EmDash + b == a + e;
    CollapseBytesPlainPrefix(a, e);
    EmDashThenPlain(b);
    AppendAssoc(a, EnDash + "\U{94}", b);
    AppendAssoc(a, EnDash, "\U{94}");
  }

  lemma EmDashThenPlain(b: string)
    requires NoClassBytes(b)
    ensures CollapseDashBytes(EmDash + b) == EnDash + "\U{94}" + b
  {
    var e := EmDash + b;
    assert e[1..] == ['\U{80}', '\U{94}'] + b;
    var u := ['\U{94}'] + b;
    assert e[1..][1..] == u;
    assert SkipClassRun(e[1..]) == u;
    CollapseBytesPlainPrefix(u, []);
    assert u + [] == u;
    assert CollapseDashBytes([]) == [];
    assert CollapseDashBytes(e) == EnDash + u;
    AppendAssoc(EnDash, "\U{94}", b);
  }

  /** The three bytes of an en dash start at i. */
  predicate EnDashAt(s: string, i: int) {
    0 <= i && i + 3 <= |s| && s[i] == '\U{E2}' && s[i + 1] == '\U{80}' && s[i + 2] == '\U{93}'
  }

  /** A dash of the page-range class, as a character: a hyphen or an en dash. */
  predicate StartsWithDash(s: string) {
    (|s| >= 1 && s[0] == '-') || EnDashAt(s, 0)
  }

  function SkipDashes(s: string): (r: string)
    ensures |r| <= |s| && r == s[|s| - |r|..]
    ensures !StartsWithDash(r)
    decreases |s|
  {
    if |s| >= 1 && s[0] == '-' then
      var r := SkipDashes(s[1..]);
      assert s[1..][|s| - 1 - |r|..] == s[|s| - |r|..];
      r
    else if EnDashAt(s, 0) then
      var r := SkipDashes(s[3..]);
      assert s[3..][|s| - 3 - |r|..] == s[|s| - |r|..];
      r
    else s
  }

  /** The page-range normalisation as intended: every run of hyphens and en
      dashes, read as characters, becomes one en dash; all other bytes stay. */
  function CollapseDashes(s: string): (r: string)
    ensures '-' !in r
    decreases |s|
  {
    if s == [] then []
    else if StartsWithDash(s) then EnDash + CollapseDashes(SkipDashes(s))
    else [s[0]] + CollapseDashes(s[1..])
  }

  predicate HasEnDash(s: string) {
    exists i :: 0 <= i < |s| && EnDashAt(s, i)
  }

  /** A range with neither hyphens nor en dashes (an em dash, say) is kept. */
  lemma {:induction false} CollapseDashesKeepsOtherText(s: string)
    requires '-' !in s && !HasEnDash(s)
    ensures CollapseDashes(s) == s
    decreases |s|
  {
    if s != [] {
      assert !EnDashAt(s, 0);
      assert !HasEnDash(s[1..]) by {
        forall i | 0 <= i < |s[1..]|
          ensures !EnDashAt(s[1..], i)
        {
          assert EnDashAt(s[1..], i) ==> EnDashAt(s, i + 1);
        }
      }
      CollapseDashesKeepsOtherText(s[1..]);
    }
  }

  /** The em dash range that the bytewise class mangles is kept as intended. */
  lemma CollapseDashesKeepsEmDash()
    ensures CollapseDashes("1" + EmDash + "9") == "1" + EmDash + "9"
  {
    var s := "1" + EmDash + "9";
    assert s == ['1', '\U{E2}', '\U{80}', '\U{94}', '9'];
    assert !HasEnDash(s) by {
      forall i | 0 <= i < |s|
        ensures !EnDashAt(s, i)
      {
      }
    }
    CollapseDashesKeepsOtherText(s);
  }

  /** A sequence of hyphens and en dashes, as one string. */
  function DashRun(run: seq<bool>): string
    decreases |run|
  {
    if run == [] then [] else (if run[0] then EnDash else "-") + DashRun(run[1..])
  }

  lemma {:induction false} SkipDashRun(run: seq<bool>, b: string)
    requires !StartsWithDash(b)
    ensures SkipDashes(DashRun(run) + b) == b
    decreases |run|
  {
    if run != [] {
      var h := if run[0] then EnDash else "-";
      var t := DashRun(run[1..]) + b;
      assert DashRun(run) == h + DashRun(run[1..]);
      AppendAssoc(h, DashRun(run[1..]), b);
      if run[0] {
        SkipEnDash(t);
      } else {
        SkipHyphen(t);
      }
      SkipDashRun(run[1..], b);
    }
  }

  lemma SkipHyphen(t: string)
    ensures SkipDashes("-" + t) == SkipDashes(t)
  {
    assert ("-" + t)[0] == '-' && ("-" + t)[1..] == t;
  }

  lemma SkipEnDash(t: string)
    ensures SkipDashes(EnDash + t) == SkipDashes(t)
  {
    assert EnDashAt(EnDash + t, 0) && (EnDash + t)[0] != '-' && (EnDash + t)[3..] == t;
  }

  /** Text without hyphens and without the en dash's lead byte is copied. */
  lemma {:induction false} CollapsePlainPrefix(a: string, t: string)
    requires '-' !in a && '\U{E2}' !in a
    ensures CollapseDashes(a + t) == a + CollapseDashes(t)
    decreases |a|
  {
    if a != [] {
      var s := a + t;
      assert s[0] == a[0] && !EnDashAt(s, 0);
      assert s[1..] == a[1..] + t;
      CollapsePlainPrefix(a[1..], t);
      assert CollapseDashes(s) == [a[0]] + (a[1..] + CollapseDashes(t));
      AppendAssoc([a[0]], a[1..], CollapseDashes(t));
      assert [a[0]] + a[1..] == a;
    } else {
      assert a + t == t;
    }
  }

  /** A non-empty run of hyphens and en dashes between two plain texts
      becomes a single en dash. */
  lemma CollapseDashRun(a: string, run: seq<bool>, b: string)
    requires run != []
    requires '-' !in a && '\U{E2}' !in a
    requires '-' !in b && !HasEnDash(b)
    ensures CollapseDashes(a + DashRun(run) + b) == a + EnDash + b
  {
    AppendAssoc(a, DashRun(run), b);
    CollapsePlainPrefix(a, DashRun(run) + b);
    CollapseLeadingRun(run, b);
    AppendAssoc(a, EnDash, b);
  }

  lemma CollapseLeadingRun(run: seq<bool>, b: string)
    requires run != []
    requires '-' !in b && !HasEnDash(b)
    ensures CollapseDashes(DashRun(run) + b) == EnDash + b
  {
    var d := DashRun(run) + b;
    assert !StartsWithDash(b) by {
      assert b != [] ==> b[0] != '-';
      assert EnDashAt(b, 0) ==> 0 < |b|;
    }
    assert StartsWithDash(d) by {
      AppendAssoc(if run[0] then EnDash else "-", DashRun(run[1..]), b);
      if run[0] {
        assert EnDashAt(d, 0);
      } else {
        assert d[0] == '-';
      }
    }
    SkipDashRun(run, b);
    CollapseDashesKeepsOtherText(b);
  }

  /** Every byte of a run of hyphens and en dashes is in the class. */
  lemma {:induction false} DashRunInClass(run: seq<bool>)
    ensures forall i :: 0 <= i < |DashRun(run)| ==> InDashClass(DashRun(run)[i])
    ensures run != [] ==> DashRun(run) != []
    decreases |run|
  {
    if run != [] {
      var h := if run[0] then EnDash else "-";
      DashRunInClass(run[1..]);
      assert DashRun(run) == h + DashRun(run[1..]);
      assert forall i :: |h| <= i < |DashRun(run)| ==> DashRun(run)[i] == DashRun(run[1..])[i - |h|];
    }
  }

  /** Skipping class bytes stops exactly where they end. */
  lemma {:induction false} SkipClassBytes(x: string, b: string)
    requires forall i :: 0 <= i < |x| ==> InDashClass(x[i])
    requires b == [] || !InDashClass(b[0])
    ensures SkipClassRun(x + b) == b
    decreases |x|
  {
    if x != [] {
      assert (x + b)[0] == x[0];
      assert (x + b)[1..] == x[1..] + b;
      SkipClassBytes(x[1..], b);
    } else {
      assert x + b == b;
    }
  }

  /** As written, a non-empty run of hyphens and en dashes between two texts
      without class bytes becomes a single en dash, as intended. */
  lemma CollapseDashBytesRun(a: string, run: seq<bool>, b: string)
    requires run != [] && NoClassBytes(a) && NoClassBytes(b)
    ensures CollapseDashBytes(a + DashRun(run) + b) == a + EnDash + b
  {
    var x := DashRun(run);
    DashRunInClass(run);
    AppendAssoc(a, x, b);
    CollapseBytesPlainPrefix(a, x + b);
    assert (x + b)[0] == x[0];
    assert (x + b)[1..] == x[1..] + b;
    SkipClassBytes(x[1..], b);
    CollapseBytesPlainPrefix(b, []);
    assert b + [] == b;
    AppendAssoc(a, EnDash, b);
  }

  /** On ranges made of plain text around one run of hyphens and en dashes
      the normalisation as written and as intended agree; they differ only
      on other multi-byte characters that share a byte with the en dash. */
  lemma CollapseAgreesOnPlainRanges(a: string, run: seq<bool>, b: string)
    requires run != [] && NoClassBytes(a) && NoClassBytes(b)
    ensures CollapseDashBytes(a + DashRun(run) + b) == CollapseDashes(a + DashRun(run) + b)
  {
    CollapseDashBytesRun(a, run, b);
    assert !HasEnDash(b) by {
      forall i | 0 <= i < |b|
        ensures !EnDashAt(b, i)
      {
        assert b[i] != '\U{E2}';
      }
    }
    CollapseDashRun(a, run, b);
  }

  // ---------------------------------------------------------------------------
  // get_citation
  // ---------------------------------------------------------------------------

  /** The fields of a segment ($part) the citation reads; a missing field is
      "" (isset and truthiness then agree). */
  datatype Part = Part(
    authorNames: seq<string>,
    date: string, title: string, containerTitle: string,
    volume: string, issue: string, pageRange: string, doi: string)

  /** "A. " or "A " when the (trimmed) author string already ends in a full stop. */
  function AuthorPart(authors: string, trimmed: bool): string {
    if !Truthy(authors) then ""
    else if EndsWithPeriod(if trimmed then Trim(authors) else authors) then authors + " "
    else authors + ". "
  }

  function DatePart(date: string): string {
    if Truthy(date) then CitedDate(date) + ". " else ""
  }

  /** Volume, then the issue in parentheses. */
  function VolumeIssue(volume: string, issue: string): string {
    (if Truthy(volume) then volume else "") + (if Truthy(issue) then "(" + issue + ")" else "")
  }

  function VolumePart(volume: string, issue: string): string {
    var v := VolumeIssue(volume, issue);
    if Truthy(v) then v + ", " else ""
  }

  function PagePart(range: string): string {
    if Truthy(range) then CollapseDashBytes(range) + ". " else ""
  }

  const DoiPrefix: string := "https://doi.org/"

  /** The citation before the NUL bytes are removed. */
  function TitlePart(title: string): string {
    if Truthy(title) then "\"" + title + ".\" " else ""
  }

  function ContainerPart(container: string): string {
    if Truthy(container) then container + " " else ""
  }

  function DoiPart(doi: string): string {
    if Truthy(doi) then DoiPrefix + doi + "." else ""
  }

  function CitationText(p: Part): string {
    AuthorPart(AuthorString(StrippedNames(p.authorNames)), true)
    + DatePart(p.date)
    + TitlePart(p.title)
    + ContainerPart(p.containerTitle)
    + VolumePart(p.volume, p.issue)
    + PagePart(p.pageRange)
    + DoiPart(p.doi)
  }

  /** get_citation: the citation text with every NUL byte removed. */
  function GetCitation(p: Part): (r: string)
    ensures '\0' !in r
    ensures |r| <= |CitationText(p)|
    ensures '\0' !in CitationText(p) ==> r == CitationText(p)
  {
    ReplaceCharByNothing(CitationText(p), '\0');
    ReplaceChar(CitationText(p), '\0', "")
  }

  /** The citation opens with the author part and closes with the DOI part,
      the date, title, container, volume and page parts lying between. */
  lemma CitationFrame(p: Part)
    ensures var t := CitationText(p);
      var a, d := AuthorPart(AuthorString(StrippedNames(p.authorNames)), true), DoiPart(p.doi);
      |t| >= |a| + |d| && t[..|a|] == a && t[|t| - |d|..] == d
  {
    var t := CitationText(p);
    var a, d := AuthorPart(AuthorString(StrippedNames(p.authorNames)), true), DoiPart(p.doi);
    PrefixKept(t, a, DatePart(p.date), TitlePart(p.title), ContainerPart(p.containerTitle),
      VolumePart(p.volume, p.issue), PagePart(p.pageRange), d);
    var front := a + DatePart(p.date) + TitlePart(p.title) + ContainerPart(p.containerTitle)
                 + VolumePart(p.volume, p.issue) + PagePart(p.pageRange);
    assert t == front + d;
    assert |front| >= |a|;
    assert t[|front|..] == d;
  }

  /** A part with only a DOI cites as its doi.org URL and a full stop. */
  lemma CitationOfDoiOnly(doi: string)
    requires Truthy(doi) && '\0' !in doi
    ensures GetCitation(Part([], "", "", "", "", "", "", doi)) == DoiPrefix + doi + "."
  {
    var p := Part([], "", "", "", "", "", "", doi);
    assert StrippedNames([]) == [];
    assert CitationText(p) == DoiPrefix + doi + ".";
    assert '\0' !in DoiPrefix + doi + ".";
  }

  /** A part with four or more authors starts its citation with the first
      author and "et al. ": the full stop of "et al." is not doubled. */
  lemma EtAlNotDoubled(p: Part)
    requires |p.authorNames| >= 4
    ensures var first := StripTrailingComma(p.authorNames[0]);
      |CitationText(p)| >= |first| + 8 && CitationText(p)[..|first| + 8] == first + " et al. "
  {
    var first := StripTrailingComma(p.authorNames[0]);
    var a := AuthorString(StrippedNames(p.authorNames));
    assert a == first + " et al.";
    EtAlAuthorPart(first);
    PrefixKept(CitationText(p), first + " et al. ", DatePart(p.date), TitlePart(p.title), ContainerPart(p.containerTitle),
      VolumePart(p.volume, p.issue), PagePart(p.pageRange), DoiPart(p.doi));
  }

  /** Appending the later parts of a citation keeps its first part as prefix. */
  lemma PrefixKept(all: string, s0: string, d: string, t: string, c: string, v: string, pg: string, doi: string)
    requires all == s0 + d + t + c + v + pg + doi
    ensures |all| >= |s0| && all[..|s0|] == s0
  {
    var k := |s0|;
    var s1 := s0 + d;
    var s2 := s1 + t;
    var s3 := s2 + c;
    var s4 := s3 + v;
    var s5 := s4 + pg;
    assert s1[..k] == s0;
    assert s2[..k] == s1[..k];
    assert s3[..k] == s2[..k];
    assert s4[..k] == s3[..k];
    assert s5[..k] == s4[..k];
    assert (s5 + doi)[..k] == s5[..k];
  }

  /** "X et al." already ends in a full stop, so the author part adds only a space. */
  lemma EtAlAuthorPart(first: string)
    ensures AuthorPart(first + " et al.", true) == first + " et al. "
  {
    var a := first + " et al.";
    assert a[|a| - 1] == '.';
    assert TrimRight(a) == a;
    TrimLeftKeepsLast(a);
    var t := Trim(a);
    assert t[|t| - 1] == '.' && AtDollar(t, |t| - 1 + 1);
    assert EndsWithPeriod(t);
    assert Truthy(a) by { assert |a| >= 7; }
  }

  /** TrimLeft never removes a last byte that trim() keeps. */
  lemma {:induction false} TrimLeftKeepsLast(s: string)
    requires s != [] && !IsTrimmed(s[|s| - 1])
    ensures TrimLeft(s) != [] && TrimLeft(s)[|TrimLeft(s)| - 1] == s[|s| - 1]
    decreases |s|
  {
    if IsTrimmed(s[0]) {
      assert s[1..][|s[1..]| - 1] == s[|s| - 1];
      TrimLeftKeepsLast(s[1..]);
    }
  }

  // ---------------------------------------------------------------------------
  // The citation on the cover page, as a sequence of Write runs
  // ---------------------------------------------------------------------------

  /** The font style of a run: regular, bold, italic or underlined. */
  datatype Style = Regular | Bold | Italic | Underlined

  /** One Write(line_height, text[, link]) call with the style set before it;
      the link is "" when none is given. */
  datatype Run = Run(text: string, style: Style, link: string)

  /** The citation block of add_cover_page. It differs from get_citation: the
      author test is on the untrimmed string, a title ending in punctuation
      gets no full stop, the container title is italic, the DOI is a link, and
      NUL bytes are kept. */
  function CoverAuthorRuns(authors: string): seq<Run> {
    if Truthy(authors) then [Run(AuthorPart(authors, false), Regular, "")] else []
  }

  function CoverDateRuns(date: string): seq<Run> {
    if Truthy(date) then [Run(DatePart(date), Regular, "")] else []
  }

  /** The cover keeps a title's own final punctuation instead of adding a full stop. */
  function CoverTitleRuns(title: string): seq<Run> {
    if Truthy(title) then
      [Run(if EndsWithPunctuation(title) then "\"" + title + "\" " else "\"" + title + ".\" ", Regular, "")]
    else []
  }

  function CoverContainerRuns(container: string): seq<Run> {
    if Truthy(container) then [Run(container + " ", Italic, "")] else []
  }

  function CoverVolumeRuns(volume: string, issue: string): seq<Run> {
    var vi := VolumeIssue(volume, issue);
    if Truthy(vi) then [Run(vi + ", ", Regular, "")] else []
  }

  function CoverPageRuns(range: string): seq<Run> {
    if Truthy(range) then [Run(PagePart(range), Regular, "")] else []
  }

  /** The DOI is written as an underlined link to itself, then a full stop. */
  function CoverDoiRuns(doi: string): seq<Run> {
    if Truthy(doi) then [Run(DoiPrefix + doi, Underlined, DoiPrefix + doi), Run(".", Regular, "")] else []
  }

  function CoverCitationRuns(p: Part): seq<Run> {
    CoverAuthorRuns(AuthorString(StrippedNames(p.authorNames)))
    + CoverDateRuns(p.date)
    + CoverTitleRuns(p.title)
    + CoverContainerRuns(p.containerTitle)
    + CoverVolumeRuns(p.volume, p.issue)
    + CoverPageRuns(p.pageRange)
    + CoverDoiRuns(p.doi)
  }

  /** The text a sequence of runs writes. */
  function RunsText(runs: seq<Run>): string
    decreases |runs|
  {
    if runs == [] then "" else runs[0].text + RunsText(runs[1..])
  }

  lemma {:induction false} RunsTextAppend(a: seq<Run>, b: seq<Run>)
    ensures RunsText(a + b) == RunsText(a) + RunsText(b)
    decreases |a|
  {
    if a != [] {
      assert (a + b)[1..] == a[1..] + b;
      RunsTextAppend(a[1..], b);
    } else {
      assert a + b == b;
    }
  }

  /** The runs of one optional piece of the citation. */
  lemma RunsTextOne(r: Run)
    ensures RunsText([r]) == r.text
  {
    assert [r][1..] == [];
  }

  lemma RunsTextSeven(r1: seq<Run>, r2: seq<Run>, r3: seq<Run>, r4: seq<Run>, r5: seq<Run>, r6: seq<Run>, r7: seq<Run>)
    ensures RunsText(r1 + r2 + r3 + r4 + r5 + r6 + r7)
         == RunsText(r1) + RunsText(r2) + RunsText(r3) + RunsText(r4) + RunsText(r5) + RunsText(r6) + RunsText(r7)
  {
    RunsTextAppend(r1 + r2 + r3 + r4 + r5 + r6, r7);
    RunsTextAppend(r1 + r2 + r3 + r4 + r5, r6);
    RunsTextAppend(r1 + r2 + r3 + r4, r5);
    RunsTextAppend(r1 + r2 + r3, r4);
    RunsTextAppend(r1 + r2, r3);
    RunsTextAppend(r1, r2);
  }

  /** The cover tests the untrimmed author string for a final full stop; the
      title citation tests the trimmed one. They agree on a trimmed string. */
  lemma CoverAuthorMatches(authors: string)
    requires Trim(authors) == authors
    ensures RunsText(CoverAuthorRuns(authors)) == AuthorPart(authors, true)
  {
    if Truthy(authors) { RunsTextOne(CoverAuthorRuns(authors)[0]); }
  }

  lemma CoverDateMatches(date: string)
    ensures RunsText(CoverDateRuns(date)) == DatePart(date)
  {
    if Truthy(date) { RunsTextOne(CoverDateRuns(date)[0]); }
  }

  /** The cover keeps a title's own final punctuation; without one, both add a full stop. */
  lemma CoverTitleMatches(title: string)
    requires !EndsWithPunctuation(title)
    ensures RunsText(CoverTitleRuns(title)) == TitlePart(title)
  {
    if Truthy(title) { RunsTextOne(CoverTitleRuns(title)[0]); }
  }

  lemma CoverContainerMatches(container: string)
    ensures RunsText(CoverContainerRuns(container)) == ContainerPart(container)
  {
    if Truthy(container) { RunsTextOne(CoverContainerRuns(container)[0]); }
  }

  lemma CoverVolumeMatches(volume: string, issue: string)
    ensures RunsText(CoverVolumeRuns(volume, issue)) == VolumePart(volume, issue)
  {
    if Truthy(VolumeIssue(volume, issue)) { RunsTextOne(CoverVolumeRuns(volume, issue)[0]); }
  }

  lemma CoverPageMatches(range: string)
    ensures RunsText(CoverPageRuns(range)) == PagePart(range)
  {
    if Truthy(range) { RunsTextOne(CoverPageRuns(range)[0]); }
  }

  /** The link run and the full stop together write the DOI part. */
  lemma CoverDoiMatches(doi: string)
    ensures RunsText(CoverDoiRuns(doi)) == DoiPart(doi)
  {
    if Truthy(doi) {
      var r7 := CoverDoiRuns(doi);
      assert r7 == [r7[0]] + [r7[1]];
      RunsTextAppend([r7[0]], [r7[1]]);
      RunsTextOne(r7[0]);
      RunsTextOne(r7[1]);
    }
  }

  /** The cover shows the same citation as the document title whenever the two
      tests agree: the author string has no surrounding whitespace, the title
      does not end in punctuation, and there are no NUL bytes. */
  lemma CoverMatchesCitation(p: Part)
    requires var a := AuthorString(StrippedNames(p.authorNames)); Trim(a) == a
    requires !EndsWithPunctuation(p.title)
    requires '\0' !in CitationText(p)
    ensures RunsText(CoverCitationRuns(p)) == GetCitation(p)
  {
    CoverAuthorMatches(AuthorString(StrippedNames(p.authorNames)));
    CoverDateMatches(p.date);
    CoverTitleMatches(p.title);
    CoverContainerMatches(p.containerTitle);
    CoverVolumeMatches(p.volume, p.issue);
    CoverPageMatches(p.pageRange);
    CoverDoiMatches(p.doi);
    RunsTextSeven(CoverAuthorRuns(AuthorString(StrippedNames(p.authorNames))), CoverDateRuns(p.date),
      CoverTitleRuns(p.title), CoverContainerRuns(p.containerTitle), CoverVolumeRuns(p.volume, p.issue),
      CoverPageRuns(p.pageRange), CoverDoiRuns(p.doi));
  }

  // ---------------------------------------------------------------------------
  // The author metadata of the document
  // ---------------------------------------------------------------------------

  /** An author of the segment: the name and the optional life dates. */
  datatype Author = Author(name: string, dates: Option<string>)

  /** "Name (Dates)", or the name alone when no dates are set. */
  function AuthorEntry(a: Author): string {
    match a.dates
    case Some(d) => a.name + " (" + d + ")"
    case None => a.name
  }

  function AuthorEntries(authors: seq<Author>): (r: seq<string>)
    ensures |r| == |authors|
    ensures forall i :: 0 <= i < |authors| ==> r[i] == AuthorEntry(authors[i])
  {
    seq(|authors|, i requires 0 <= i < |authors| => AuthorEntry(authors[i]))
  }

  /** implode('; ', entries): the author metadata. */
  function AuthorMetadata(authors: seq<Author>): string {
    Implode("; ", AuthorEntries(authors))
  }

  lemma {:induction false} CountCharImplode(parts: seq<string>, c: char)
    requires |parts| >= 1 && c != ' '
    requires forall i :: 0 <= i < |parts| ==> c !in parts[i]
    ensures CountChar(Implode([c, ' '], parts), c) == |parts| - 1
    decreases |parts|
  {
    assert c !in parts[0];
    if |parts| > 1 {
      var rest := Implode([c, ' '], parts[1..]);
      assert Implode([c, ' '], parts) == parts[0] + [c, ' '] + rest;
      assert forall i :: 0 <= i < |parts[1..]| ==> c !in parts[1..][i] by {
        forall i | 0 <= i < |parts[1..]|
          ensures c !in parts[1..][i]
        {
          assert parts[1..][i] == parts[i + 1];
        }
      }
      CountCharImplode(parts[1..], c);
      CountCharConcat(parts[0] + [c, ' '], rest, c);
      CountCharConcat(parts[0], [c, ' '], c);
      assert [c, ' '][1..] == [' '] && [' '][1..] == [];
      assert CountChar([' '], c) == 0;
    }
  }

  lemma {:induction false} CountCharConcat(a: string, b: string, c: char)
    ensures CountChar(a + b, c) == CountChar(a, c) + CountChar(b, c)
    decreases |a|
  {
    if a != [] {
      assert (a + b)[1..] == a[1..] + b;
      CountCharConcat(a[1..], b, c);
    } else {
      assert a + b == b;
    }
  }

  /** When no name or date holds a ";", splitting the metadata at ";" gives
      back one piece per author. */
  lemma AuthorMetadataSplitsPerAuthor(authors: seq<Author>)
    requires |authors| >= 1
    requires forall i :: 0 <= i < |authors| ==> ';' !in AuthorEntry(authors[i])
    ensures |Explode(AuthorMetadata(authors), ';')| == |authors|
  {
    CountCharImplode(AuthorEntries(authors), ';');
    ExplodeCount(AuthorMetadata(authors), ';');
  }

  // ---------------------------------------------------------------------------
  // The output path
  // ---------------------------------------------------------------------------

  /** substr($id, i, 1), which is "" past the end. */
  function CharAt(id: string, i: nat): string {
    if i < |id| then [id[i]] else ""
  }

  /** paths.output/L1/L2/bhl-segment-<id>[-grey].pdf, sharded by the first two
      characters of the id. */
  function OutputFilename(outputDir: string, id: string, desaturate: bool): (r: string)
    ensures |r| >= 4 && r[|r| - 4..] == ".pdf"
  {
    outputDir + "/" + CharAt(id, 0) + "/" + CharAt(id, 1) + "/bhl-segment-" + id + (if desaturate then "-grey" else "") + ".pdf"
  }

  /** The directory part of the output path. */
  function OutputDir(outputDir: string, id: string): string {
    outputDir + "/" + CharAt(id, 0) + "/" + CharAt(id, 1)
  }

  /** The file lies in its shard directory, and two segments never share an
      output file. */
  lemma OutputFilenameInShard(outputDir: string, id: string, desaturate: bool)
    ensures var f, d := OutputFilename(outputDir, id, desaturate), OutputDir(outputDir, id);
      |d| < |f| && f[..|d| + 1] == d + "/"
  {
    var f, d := OutputFilename(outputDir, id, desaturate), OutputDir(outputDir, id);
    assert f == d + ("/bhl-segment-" + id + (if desaturate then "-grey" else "") + ".pdf");
  }

  lemma OutputFilenameInjective(outputDir: string, id1: string, id2: string, desaturate: bool)
    requires OutputFilename(outputDir, id1, desaturate) == OutputFilename(outputDir, id2, desaturate)
    ensures id1 == id2
  {
    IdInOutputFilename(outputDir, id1, desaturate);
    IdInOutputFilename(outputDir, id2, desaturate);
  }

  /** The id sits at an offset fixed by the id's length: the shard letters
      take min(|id|, 2) bytes. */
  lemma IdInOutputFilename(outputDir: string, id: string, desaturate: bool)
    ensures var f, n := OutputFilename(outputDir, id, desaturate), |outputDir| + 15 + (if |id| >= 2 then 2 else |id|);
      |f| == n + |id| + (if desaturate then 9 else 4) && f[n..n + |id|] == id
  {
    var head := outputDir + "/" + CharAt(id, 0) + "/" + CharAt(id, 1) + "/bhl-segment-";
    var tail := (if desaturate then "-grey" else "") + ".pdf";
    var f := OutputFilename(outputDir, id, desaturate);
    assert |head| == |outputDir| + 15 + (if |id| >= 2 then 2 else |id|);
    AppendAssoc(head, id, if desaturate then "-grey" else "");
    AppendAssoc(head + id, if desaturate then "-grey" else "", ".pdf");
    AppendAssoc(head, id, tail);
    assert f == head + (id + tail);
    assert (head + (id + tail))[|head|..] == id + tail;
  }

  // ---------------------------------------------------------------------------
  // escapeshellarg_special and POSIX shell quoting
  // ---------------------------------------------------------------------------

  /** The argument in single quotes, each ' written as '"'"' (close the quote,
      a double-quoted ', reopen). */
  function EscapeShellArgSpecial(s: string): string {
    "'" + ReplaceChar(s, '\'', "'\"'\"'") + "'"
  }

  /** The text up to the first occurrence of q (None when there is none). */
  function UpTo(t: string, q: char): (r: Option<nat>)
    ensures r.Some? ==> r.value < |t| && t[r.value] == q && q !in t[..r.value]
    ensures r.None? ==> q !in t
    decreases |t|
  {
    if t == [] then None
    else if t[0] == q then Some(0)
    else match UpTo(t[1..], q)
      case Some(n) => assert t[..n + 1] == [t[0]] + t[1..][..n]; Some(n + 1)
      case None => None
  }

  /** The word a POSIX shell reads from a sequence of single- and
      double-quoted pieces (section 2.2 of the Shell Command Language, IEEE
      Std 1003.1): inside '…' every byte is literal; inside "…" every byte is
      literal except $, ` and \ , which this reading refuses. Anything else,
      an unterminated quote included, is refused. */
  function ShellUnquote(t: string): Option<string>
    decreases |t|
  {
    if t == [] then Some([])
    else if t[0] == '\'' then
      match UpTo(t[1..], '\'')
      case None => None
      case Some(n) =>
        match ShellUnquote(t[n + 2..])
        case Some(rest) => Some(t[1..n + 1] + rest)
        case None => None
    else if t[0] == '"' then
      match UpTo(t[1..], '"')
      case None => None
      case Some(n) =>
        var body := t[1..n + 1];
        if '$' in body || '`' in body || '\\' in body then None
        else match ShellUnquote(t[n + 2..])
          case Some(rest) => Some(body + rest)
          case None => None
    else None
  }

  /** UpTo finds the first occurrence. */
  lemma {:induction false} UpToFirst(t: string, q: char, n: nat)
    requires n < |t| && t[n] == q && q !in t[..n]
    ensures UpTo(t, q) == Some(n)
    decreases n
  {
    if n > 0 {
      assert t[0] == t[..n][0];
      assert t[1..][..n - 1] == t[1..n];
      assert forall k :: 1 <= k < n ==> t[k] == t[..n][k];
      UpToFirst(t[1..], q, n - 1);
    }
  }

  /** The quoted argument denotes exactly the original string. */
  lemma {:induction false} EscapeShellArgRoundTrip(s: string)
    ensures ShellUnquote(EscapeShellArgSpecial(s)) == Some(s)
    decreases |s|
  {
    match UpTo(s, '\'')
    case None =>
      UnquoteSingleQuoted(s);
    case Some(n) =>
      var a, b := s[..n], s[n + 1..];
      assert s == a + ("'" + b);
      EscapeAtFirstQuote(a, b);
      EscapeShellArgRoundTrip(b);
      UnquotePieces(a, EscapeShellArgSpecial(b), b);
      AppendAssoc(a, "'", b);
  }

  /** A string without quotes, in single quotes, denotes itself. */
  lemma UnquoteSingleQuoted(s: string)
    requires '\'' !in s
    ensures ShellUnquote(EscapeShellArgSpecial(s)) == Some(s)
  {
    var t := EscapeShellArgSpecial(s);
    assert t == "'" + s + "'";
    assert t[1..][..|s|] == s;
    UpToFirst(t[1..], '\'', |s|);
    assert t[0] == '\'' && t[|s| + 2..] == [];
    assert ShellUnquote(t[|s| + 2..]) == Some([]);
    assert t[1..|s| + 1] + [] == s;
  }

  /** Reading 'a' then "'" then the rest. */
  lemma UnquotePieces(a: string, e: string, b: string)
    requires '\'' !in a && ShellUnquote(e) == Some(b)
    ensures ShellUnquote(("'" + a) + "'\"'\"" + e) == Some(a + ("'" + b))
  {
    var t := ("'" + a) + "'\"'\"" + e;
    QuotedPieces(a, e);
    UpToFirst(t[1..], '\'', |a|);
    var u := t[|a| + 2..];
    UpToFirst(u[1..], '"', 1);
    assert ShellUnquote(u) == Some("'" + b);
  }

  /** Quoting a + "'" + b, where a has no quote: a in quotes, a double-quoted
      quote, then b quoted on its own. */
  lemma EscapeAtFirstQuote(a: string, b: string)
    requires '\'' !in a
    ensures EscapeShellArgSpecial(a + ("'" + b)) == ("'" + a) + "'\"'\"" + EscapeShellArgSpecial(b)
  {
    var q: string := "'\"'\"'";
    var q4: string := "'\"'\"";
    var rb := ReplaceChar(b, '\'', q);
    ReplaceCharConcat(a, "'" + b, '\'', q);
    ReplaceCharConcat("'", b, '\'', q);
    assert ReplaceChar("'", '\'', q) == q;
    assert ReplaceChar(a + ("'" + b), '\'', q) == a + (q + rb);
    AppendAssoc("'", a, q + rb);
    assert q == q4 + "'";
    AppendAssoc(q4, "'", rb);
    AppendAssoc("'" + a, q4, "'" + rb);
    AppendAssoc(("'" + a) + q4, "'" + rb, "'");
  }

  /** Where the pieces of a quoted argument sit. */
  lemma QuotedPieces(a: string, e: string)
    ensures var t := ("'" + a) + "'\"'\"" + e;
      t[0] == '\'' && t[1..][..|a|] == a && t[1..][|a|] == '\'' && t[1..|a| + 1] == a &&
      var u := t[|a| + 2..];
      u[0] == '"' && u[1..][..1] == "'" && u[1..][1] == '"' && u[1..2] == "'" && u[3..] == e
  {
    var t := ("'" + a) + "'\"'\"" + e;
    var u := t[|a| + 2..];
    assert u == "\"'\"" + e;
  }
}
