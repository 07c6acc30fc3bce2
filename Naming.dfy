/**
 * The export naming rules: decimal rendering of numbers, `padStart(2, '0')`,
 * `String.prototype.trim`, the MIME-to-extension table, per-image file
 * names and the timestamped archive slug.
 */
module Naming {

  predicate IsDigit(c: char)
  {
    '0' <= c <= '9'
  }

  predicate AllDigits(s: string)
  {
    forall k :: 0 <= k < |s| ==> IsDigit(s[k])
  }

  /** The two halves of a concatenation. */
  lemma Split(p: string, q: string)
    ensures (p + q)[..|p|] == p && (p + q)[|p|..] == q
  {
  }

  function DigitChar(d: nat): (c: char)
    requires d < 10
    ensures IsDigit(c)
  {
    ('0' as int + d) as char
  }

  function DigitValue(c: char): (d: nat)
    requires IsDigit(c)
    ensures d < 10 && DigitChar(d) == c
  {
    c as int - '0' as int
  }

  /** `n.toString()` for a non-negative integer: its decimal digits with no
      leading zero. */
  function Decimal(n: nat): (s: string)
    ensures |s| >= 1 && AllDigits(s)
    ensures s[0] == '0' ==> n == 0
    decreases n
  {
    if n < 10 then [DigitChar(n)] else Decimal(n / 10) + [DigitChar(n % 10)]
  }

  /** The value a string of decimal digits denotes. */
  function DigitsValue(s: string): nat
    requires AllDigits(s)
  {
    if s == [] then 0 else DigitsValue(s[..|s| - 1]) * 10 + DigitValue(s[|s| - 1])
  }

  /** Reading back a rendered number gives the number. */
  lemma {:induction false} DecimalRoundTrip(n: nat)
    ensures DigitsValue(Decimal(n)) == n
    decreases n
  {
    var s := Decimal(n);
    if n >= 10 {
      DecimalRoundTrip(n / 10);
      assert s[..|s| - 1] == Decimal(n / 10);
    }
  }

  lemma DecimalInjective(a: nat, b: nat)
    requires Decimal(a) == Decimal(b)
    ensures a == b
  {
    DecimalRoundTrip(a);
    DecimalRoundTrip(b);
  }

  /** `s.padStart(len, c)`. */
  function PadStart(s: string, len: nat, c: char): (r: string)
    ensures |r| == if |s| >= len then |s| else len
    ensures r[|r| - |s|..] == s
    ensures forall k :: 0 <= k < |r| - |s| ==> r[k] == c
    decreases len - |s|
  {
    if |s| >= len then s else PadStart([c] + s, len, c)
  }

  /** `n.toString().padStart(2, '0')`. */
  function Pad2(n: nat): string
  {
    PadStart(Decimal(n), 2, '0')
  }

  /** Hours and minutes render as exactly two digits that read back as the
      number. */
  lemma Pad2RoundTrip(n: nat)
    requires n < 100
    ensures |Pad2(n)| == 2 && AllDigits(Pad2(n))
    ensures DigitsValue(Pad2(n)) == n
  {
    DecimalRoundTrip(n);
    var d := Decimal(n);
    if n >= 10 {
      assert |Decimal(n / 10)| == 1;
      assert Pad2(n) == d;
    } else {
      assert Pad2(n) == ['0'] + d;
      assert Pad2(n)[..1] == "0";
      assert DigitsValue("0") == 0;
    }
  }

  /** The characters `String.prototype.trim` removes: the white space and
      line terminators of ECMAScript. */
  const Spaces: set<char> := {'\U{9}', '\U{A}', '\U{B}', '\U{C}', '\U{D}', '\U{20}', '\U{A0}', '\U{1680}', '\U{2000}', '\U{2001}', '\U{2002}', '\U{2003}', '\U{2004}', '\U{2005}', '\U{2006}', '\U{2007}', '\U{2008}', '\U{2009}', '\U{200A}', '\U{2028}', '\U{2029}', '\U{202F}', '\U{205F}', '\U{3000}', '\U{FEFF}'}

  predicate IsSpace(c: char)
  {
    c in Spaces
  }

  function TrimStart(s: string): (r: string)
    ensures |r| <= |s| && r == s[|s| - |r|..]
    ensures forall k :: 0 <= k < |s| - |r| ==> IsSpace(s[k])
    ensures r == [] || !IsSpace(r[0])
  {
    if s != [] && IsSpace(s[0]) then TrimStart(s[1..]) else s
  }

  function TrimEnd(s: string): (r: string)
    ensures |r| <= |s| && r == s[..|r|]
    ensures forall k :: |r| <= k < |s| ==> IsSpace(s[k])
    ensures r == [] || !IsSpace(r[|r| - 1])
  {
    if s != [] && IsSpace(s[|s| - 1]) then TrimEnd(s[..|s| - 1]) else s
  }

  /** `s.trim()`. */
  function Trim(s: string): string
  {
    TrimEnd(TrimStart(s))
  }

  /** Dropping leading white space and then trailing white space leaves the
      inner slice between them. */
  lemma InnerSlice(s: string, t: string, r: string)
    requires |t| <= |s| && t == s[|s| - |t|..]
    requires forall k :: 0 <= k < |s| - |t| ==> IsSpace(s[k])
    requires t == [] || !IsSpace(t[0])
    requires |r| <= |t| && r == t[..|r|]
    requires forall k :: |r| <= k < |t| ==> IsSpace(t[k])
    requires r == [] || !IsSpace(r[|r| - 1])
    ensures var i := |s| - |t|;
      && (r == [] || (!IsSpace(r[0]) && !IsSpace(r[|r| - 1])))
      && i + |r| <= |s| && r == s[i..i + |r|]
      && (forall k :: 0 <= k < i ==> IsSpace(s[k]))
      && (forall k :: i + |r| <= k < |s| ==> IsSpace(s[k]))
  {
    var i := |s| - |t|;
    forall k | i + |r| <= k < |s| ensures IsSpace(s[k]) {
      assert s[k] == t[k - i];
    }
    if r != [] {
      assert r[0] == t[0];
    }
  }

  /** Trim removes only white space, from both ends, and nothing inside: the
      result is the slice of `s` that starts after the leading white space
      and stops before the trailing white space. */
  lemma TrimIsInnerSlice(s: string)
    ensures var r, i := Trim(s), |s| - |TrimStart(s)|;
      && (r == [] || (!IsSpace(r[0]) && !IsSpace(r[|r| - 1])))
      && i + |r| <= |s| && r == s[i..i + |r|]
      && (forall k :: 0 <= k < i ==> IsSpace(s[k]))
      && (forall k :: i + |r| <= k < |s| ==> IsSpace(s[k]))
  {
    InnerSlice(s, TrimStart(s), Trim(s));
  }

  lemma TrimIdempotent(s: string)
    ensures Trim(Trim(s)) == Trim(s)
  {
    var r := Trim(s);
    TrimIsInnerSlice(s);
    if r != [] {
      assert TrimStart(r) == r;
      assert TrimEnd(r) == r;
    }
  }

  /** getImageExtension's table of known MIME types. */
  function Extension(mime: string): (ext: string)
    ensures ext in {".jpg", ".png", ".gif", ".webp"}
    ensures mime !in {"image/jpeg", "image/png", "image/gif", "image/webp"} ==> ext == ".jpg"
    ensures |ext| >= 1 && ext[0] == '.'
  {
    if mime == "image/jpeg" then ".jpg"
    else if mime == "image/png" then ".png"
    else if mime == "image/gif" then ".gif"
    else if mime == "image/webp" then ".webp"
    else ".jpg"
  }

  /** The table read backwards. */
  function MimeOf(ext: string): string
  {
    if ext == ".png" then "image/png"
    else if ext == ".gif" then "image/gif"
    else if ext == ".webp" then "image/webp"
    else "image/jpeg"
  }

  /** The table is one-to-one on the four known types, and every extension
      it yields maps back to a known type. */
  lemma ExtensionTableInverse(mime: string)
    ensures mime in {"image/jpeg", "image/png", "image/gif", "image/webp"} ==>
              MimeOf(Extension(mime)) == mime
    ensures Extension(MimeOf(Extension(mime))) == Extension(mime)
  {
  }

  /** The archive name of exported image `index` (0-based). */
  function ImageFileName(index: nat, mime: string): (name: string)
    ensures |name| > 5 && name[..5] == "image"
    ensures name[5..] == Decimal(index + 1) + Extension(mime)
  {
    Split("image", Decimal(index + 1) + Extension(mime));
    "image" + (Decimal(index + 1) + Extension(mime))
  }

  /** In `a + x` with `a` all digits and `x` starting with a non-digit,
      position |a| is the first non-digit. */
  lemma FirstNonDigitAt(a: string, x: string)
    requires AllDigits(a) && |x| >= 1 && !IsDigit(x[0])
    ensures forall k :: 0 <= k < |a| ==> IsDigit((a + x)[k])
    ensures !IsDigit((a + x)[|a|])
  {
  }

  lemma DigitsThenDot(a: string, x: string, b: string, y: string)
    requires AllDigits(a) && AllDigits(b)
    requires |x| >= 1 && |y| >= 1 && !IsDigit(x[0]) && !IsDigit(y[0])
    requires a + x == b + y
    ensures a == b
  {
    FirstNonDigitAt(a, x);
    FirstNonDigitAt(b, y);
    assert |a| == |b|;
    assert a == (a + x)[..|a|];
    assert b == (b + y)[..|b|];
  }

  /** Two different images never get the same file name, whatever their
      types, so no archive entry overwrites another. */
  lemma ImageFileNamesDistinct(i: nat, j: nat, m1: string, m2: string)
    requires i != j
    ensures ImageFileName(i, m1) != ImageFileName(j, m2)
  {
    if ImageFileName(i, m1) == ImageFileName(j, m2) {
      DigitsThenDot(Decimal(i + 1), Extension(m1), Decimal(j + 1), Extension(m2));
      DecimalInjective(i + 1, j + 1);
    }
  }

  /** The date and time fields the export reads from the clock; the month
      abbreviation comes from the host's locale. */
  datatype Stamp = Stamp(day: nat, month: string, year: nat, hours: nat, minutes: nat)

  /** `${day} ${month} ${year}`. */
  function DateText(t: Stamp): string
  {
    Decimal(t.day) + " " + t.month + " " + Decimal(t.year)
  }

  /** `${HH}${MM}`, hours and minutes padded to two digits. */
  function TimeText(t: Stamp): string
  {
    Pad2(t.hours) + Pad2(t.minutes)
  }

  /** `${title}-${date}-${time}`: the archive's top-level folder. */
  function Slug(title: string, t: Stamp): string
  {
    title + "-" + (DateText(t) + "-" + TimeText(t))
  }

  /** The download name of the archive. */
  function DownloadName(title: string, t: Stamp): (name: string)
    ensures |name| >= 4 && name[|name| - 4..] == ".zip"
    ensures name[..|name| - 4] == Slug(title, t)
  {
    Slug(title, t) + ".zip"
  }

  /** Reads `HHMM` back as hours and minutes. */
  function ReadTime(s: string): (int, int)
    requires |s| == 4 && AllDigits(s)
  {
    (DigitsValue(s[..2]), DigitsValue(s[2..]))
  }

  lemma ReadTimeOfPair(hh: string, mm: string)
    requires |hh| == 2 && |mm| == 2 && AllDigits(hh) && AllDigits(mm)
    ensures |hh + mm| == 4 && AllDigits(hh + mm)
    ensures ReadTime(hh + mm) == (DigitsValue(hh), DigitsValue(mm))
  {
    var s := hh + mm;
    Split(hh, mm);
    forall k | 0 <= k < |s| ensures IsDigit(s[k]) {
      if k < 2 { assert s[k] == hh[k]; } else { assert s[k] == mm[k - 2]; }
    }
  }

  /** The time part is four digits `HHMM` that read back as the hours and the
      minutes. */
  lemma TimeTextRoundTrip(t: Stamp)
    requires t.hours < 24 && t.minutes < 60
    ensures |TimeText(t)| == 4 && AllDigits(TimeText(t))
    ensures ReadTime(TimeText(t)) == (t.hours, t.minutes)
  {
    Pad2RoundTrip(t.hours);
    Pad2RoundTrip(t.minutes);
    ReadTimeOfPair(Pad2(t.hours), Pad2(t.minutes));
  }

  lemma HeadAndTail(a: string, b: string, c: string)
    ensures var s := a + (b + c);
      && |s| >= |a| + |c| && s[..|a|] == a && s[|s| - |c|..] == c
  {
    Split(a, b + c);
    Split(b, c);
  }

  /** The slug starts with the title and a dash and ends with the time part. */
  lemma SlugLayout(title: string, t: Stamp)
    ensures var s := Slug(title, t);
      && |s| >= |title| + 1 + |TimeText(t)|
      && s[..|title| + 1] == title + "-"
      && s[|s| - |TimeText(t)|..] == TimeText(t)
  {
    HeadAndTail(title + "-", DateText(t) + "-", TimeText(t));
  }
}
