/** PHP string primitives that the article-PDF engine relies on.

    A PHP string is a sequence of bytes. Here a `string` holds one char per
    byte (every char below 256), so UTF-8 text such as the en dash appears as
    its three bytes. Regular expressions are compiled without the `u` flag in
    the engine, so they too work byte by byte. */
module PhpStrings {

  datatype Option<+T> = None | Some(value: T) {
    function GetOr(default: T): T {
      match this
      case Some(v) => v
      case None => default
    }
  }

  datatype Result<+T, +E> = Success(value: T) | Failure(error: E)

  /** PHP's truth value of a string: "" and "0" are false, everything else true. */
  predicate Truthy(s: string) {
    s != "" && s != "0"
  }

  predicate IsDigit(c: char) {
    '0' <= c <= '9'
  }

  predicate AllDigits(s: string) {
    forall i :: 0 <= i < |s| ==> IsDigit(s[i])
  }

  /** PCRE's `\s` without the `u` flag: space, tab, LF, VT, FF, CR. */
  predicate IsPcreSpace(c: char) {
    c == ' ' || c == '\t' || c == '\n' || c == '\U{0B}' || c == '\U{0C}' || c == '\r'
  }

  /** The characters PHP's trim() strips by default: space, tab, LF, CR, NUL, VT. */
  predicate IsTrimmed(c: char) {
    c == ' ' || c == '\t' || c == '\n' || c == '\r' || c == '\0' || c == '\U{0B}'
  }

  /** PCRE's `$` (no multiline flag) matches at the end of the subject and just
      before a final newline. */
  predicate AtDollar(s: string, j: int) {
    j == |s| || (j == |s| - 1 && 0 <= j && s[j] == '\n')
  }

  lemma AppendAssoc<T>(a: seq<T>, b: seq<T>, c: seq<T>)
    ensures a + b + c == a + (b + c)
  {
  }

  /** explode(sep, s) for a one-byte separator. */
  function Explode(s: string, sep: char): (parts: seq<string>)
    ensures |parts| >= 1
    ensures forall i :: 0 <= i < |parts| ==> sep !in parts[i]
    decreases |s|
  {
    if s == [] then [""]
    else
      var rest := Explode(s[1..], sep);
      if s[0] == sep then [""] + rest
      else [[s[0]] + rest[0]] + rest[1..]
  }

  /** implode(glue, parts). */
  function Implode(glue: string, parts: seq<string>): string
    decreases |parts|
  {
    if |parts| == 0 then ""
    else if |parts| == 1 then parts[0]
    else parts[0] + glue + Implode(glue, parts[1..])
  }

  /** Exploding and imploding again on the same byte gives back the string. */
  lemma {:induction false} ImplodeExplode(s: string, sep: char)
    ensures Implode([sep], Explode(s, sep)) == s
    decreases |s|
  {
    if s != [] {
      ImplodeExplode(s[1..], sep);
      var rest := Explode(s[1..], sep);
      if s[0] == sep {
        assert Explode(s, sep) == [""] + rest;
        assert s == [sep] + s[1..];
      } else {
        if |rest| == 1 {
          assert Explode(s, sep) == [[s[0]] + rest[0]];
        } else {
          assert Explode(s, sep) == [[s[0]] + rest[0]] + rest[1..];
          assert ([[s[0]] + rest[0]] + rest[1..])[1..] == rest[1..];
          assert Implode([sep], rest) == rest[0] + [sep] + Implode([sep], rest[1..]);
        }
      }
    }
  }

  lemma {:induction false} ExplodeWithout(a: string, sep: char)
    requires sep !in a
    ensures Explode(a, sep) == [a]
    decreases |a|
  {
    if a != [] {
      ExplodeWithout(a[1..], sep);
      assert [a[0]] + a[1..] == a;
    }
  }

  lemma {:induction false} ExplodeSplitsAtFirst(a: string, t: string, sep: char)
    requires sep !in a
    ensures Explode(a + [sep] + t, sep) == [a] + Explode(t, sep)
    decreases |a|
  {
    if a == [] {
      assert a + [sep] + t == [sep] + t;
      assert ([sep] + t)[1..] == t;
    } else {
      ExplodeSplitsAtFirst(a[1..], t, sep);
      assert (a + [sep] + t)[1..] == a[1..] + [sep] + t;
      assert [a[0]] + a[1..] == a;
    }
  }

  /** Imploding parts that do not contain the glue byte and exploding again
      gives back the parts: explode is the inverse of implode. */
  lemma {:induction false} ExplodeImplode(parts: seq<string>, sep: char)
    requires |parts| >= 1
    requires forall i :: 0 <= i < |parts| ==> sep !in parts[i]
    ensures Explode(Implode([sep], parts), sep) == parts
    decreases |parts|
  {
    if |parts| == 1 {
      ExplodeWithout(parts[0], sep);
    } else {
      ExplodeImplode(parts[1..], sep);
      ExplodeSplitsAtFirst(parts[0], Implode([sep], parts[1..]), sep);
      assert [parts[0]] + parts[1..] == parts;
    }
  }

  function DigitValue(c: char): nat
    requires IsDigit(c)
  {
    (c as int) - ('0' as int)
  }

  function DigitChar(d: nat): (c: char)
    requires d < 10
    ensures IsDigit(c) && DigitValue(c) == d
  {
    ('0' as int + d) as char
  }

  /** The leading run of decimal digits of s. For a string of digits this is
      the number PHP reads; PHP also accepts whitespace, a sign, a fraction and
      an exponent, which this reading does not. */
  function LeadingDigits(s: string): (d: string)
    ensures |d| <= |s| && d == s[..|d|]
    ensures AllDigits(d)
    ensures |d| < |s| ==> !IsDigit(s[|d|])
    decreases |s|
  {
    if s == [] || !IsDigit(s[0]) then ""
    else [s[0]] + LeadingDigits(s[1..])
  }

  /** Value of a string of decimal digits, most significant first. */
  function DecimalValue(d: string): nat
    requires AllDigits(d)
    decreases |d|
  {
    if d == [] then 0 else DecimalValue(d[..|d| - 1]) * 10 + DigitValue(d[|d| - 1])
  }

  /** The number PHP reads from a coordinate field. */
  function NumeralValue(s: string): nat {
    DecimalValue(LeadingDigits(s))
  }

  /** Decimal representation of a natural number, as PHP prints an int. */
  function ShowNat(n: nat): (s: string)
    ensures |s| >= 1 && AllDigits(s)
    decreases n
  {
    if n < 10 then [DigitChar(n)] else ShowNat(n / 10) + [DigitChar(n % 10)]
  }

  lemma {:induction false} ShowNatValue(n: nat)
    ensures DecimalValue(ShowNat(n)) == n
    decreases n
  {
    if n >= 10 {
      ShowNatValue(n / 10);
      var s := ShowNat(n);
      assert s[..|s| - 1] == ShowNat(n / 10);
    }
  }

  lemma {:induction false} LeadingDigitsOfDigits(s: string)
    requires AllDigits(s)
    ensures LeadingDigits(s) == s
    decreases |s|
  {
    if s != [] {
      LeadingDigitsOfDigits(s[1..]);
      assert [s[0]] + s[1..] == s;
    }
  }

  /** Reading back a printed natural number gives the number. */
  lemma NumeralValueOfShowNat(n: nat)
    ensures NumeralValue(ShowNat(n)) == n
  {
    LeadingDigitsOfDigits(ShowNat(n));
    ShowNatValue(n);
  }

  /** str_replace(c, rep, s) for a one-byte search string. */
  function ReplaceChar(s: string, c: char, rep: string): (r: string)
    ensures c !in s ==> r == s
    decreases |s|
  {
    if s == [] then ""
    else (if s[0] == c then rep else [s[0]]) + ReplaceChar(s[1..], c, rep)
  }

  lemma {:induction false} ReplaceCharConcat(a: string, b: string, c: char, rep: string)
    ensures ReplaceChar(a + b, c, rep) == ReplaceChar(a, c, rep) + ReplaceChar(b, c, rep)
    decreases |a|
  {
    if a == [] {
      assert a + b == b;
    } else {
      var h := if a[0] == c then rep else [a[0]];
      assert (a + b)[0] == a[0] && (a + b)[1..] == a[1..] + b;
      assert ReplaceChar(a + b, c, rep) == h + ReplaceChar(a[1..] + b, c, rep);
      ReplaceCharConcat(a[1..], b, c, rep);
      AppendAssoc(h, ReplaceChar(a[1..], c, rep), ReplaceChar(b, c, rep));
    }
  }

  /** str_replace(c, "", s) removes every occurrence of c. */
  lemma {:induction false} ReplaceCharByNothing(s: string, c: char)
    ensures c !in ReplaceChar(s, c, "")
    ensures |ReplaceChar(s, c, "")| <= |s|
    decreases |s|
  {
    if s != [] {
      ReplaceCharByNothing(s[1..], c);
    }
  }

  /** substr_count(s, c) for a one-byte needle. */
  function CountChar(s: string, c: char): (n: nat)
    ensures n <= |s|
    ensures n == 0 <==> c !in s
    decreases |s|
  {
    if s == [] then 0 else (if s[0] == c then 1 else 0) + CountChar(s[1..], c)
  }

  /** The number of pieces explode(c, s) yields is one more than the number of c in s. */
  lemma {:induction false} ExplodeCount(s: string, sep: char)
    ensures |Explode(s, sep)| == CountChar(s, sep) + 1
    decreases |s|
  {
    if s != [] {
      ExplodeCount(s[1..], sep);
    }
  }

  function TrimLeft(s: string): (r: string)
    ensures |r| <= |s| && r == s[|s| - |r|..]
    ensures forall i :: 0 <= i < |s| - |r| ==> IsTrimmed(s[i])
    ensures r != [] ==> !IsTrimmed(r[0])
    decreases |s|
  {
    if s != [] && IsTrimmed(s[0]) then TrimLeft(s[1..]) else s
  }

  function TrimRight(s: string): (r: string)
    ensures |r| <= |s| && r == s[..|r|]
    ensures forall i :: |r| <= i < |s| ==> IsTrimmed(s[i])
    ensures r != [] ==> !IsTrimmed(r[|r| - 1])
    decreases |s|
  {
    if s != [] && IsTrimmed(s[|s| - 1]) then TrimRight(s[..|s| - 1]) else s
  }

  /** PHP's trim() with its default character list. */
  function Trim(s: string): (r: string)
    ensures var k := |TrimRight(s)| - |r|;
      0 <= k <= |s| - |r| && r == s[k..k + |r|]
      && (forall i :: 0 <= i < k ==> IsTrimmed(s[i]))
      && (forall i :: k + |r| <= i < |s| ==> IsTrimmed(s[i]))
    ensures r != [] ==> !IsTrimmed(r[0]) && !IsTrimmed(r[|r| - 1])
  {
    TrimLeft(TrimRight(s))
  }
}
