/** The pieces of Rust's `str` API that the text codec relies on: `trim`,
    `find`, `split`, `starts_with`, `lines`, and decimal formatting of an
    unsigned integer. Strings are sequences of Unicode scalar values. */
module Strings {
  import opened Base

  /** `char::is_whitespace`: the Unicode White_Space property. */
  predicate IsWhitespace(c: char) {
    c == ' ' || ('\t' <= c <= '\r') || c == '\U{0085}' || c == '\U{00A0}' || c == '\U{1680}'
    || ('\U{2000}' <= c <= '\U{200A}') || c == '\U{2028}' || c == '\U{2029}' || c == '\U{202F}'
    || c == '\U{205F}' || c == '\U{3000}'
  }

  predicate AllWhitespace(s: string) {
    forall i :: 0 <= i < |s| ==> IsWhitespace(s[i])
  }

  /** `str::trim_start` */
  function TrimStart(s: string): (r: string)
    ensures |r| <= |s| && r == s[|s| - |r|..]
    ensures r == [] || !IsWhitespace(r[0])
    ensures forall i :: 0 <= i < |s| - |r| ==> IsWhitespace(s[i])
  {
    if |s| > 0 && IsWhitespace(s[0]) then TrimStart(s[1..]) else s
  }

  /** `str::trim_end` */
  function TrimEnd(s: string): (r: string)
    ensures |r| <= |s| && r == s[..|r|]
    ensures r == [] || !IsWhitespace(r[|r| - 1])
    ensures forall i :: |r| <= i < |s| ==> IsWhitespace(s[i])
  {
    if |s| > 0 && IsWhitespace(s[|s| - 1]) then TrimEnd(s[..|s| - 1]) else s
  }

  /** `str::trim`: both ends stripped of whitespace. */
  function Trim(s: string): string {
    TrimStart(TrimEnd(s))
  }

  /** A prefix that ends on a non-whitespace character and is followed only
      by whitespace is what `trim_end` keeps. */
  lemma TrimEndUnique(s: string, k: nat)
    requires k <= |s|
    requires k == 0 || !IsWhitespace(s[k - 1])
    requires AllWhitespace(s[k..])
    ensures TrimEnd(s) == s[..k]
  {
    var r := TrimEnd(s);
    assert forall i :: k <= i < |s| ==> s[k..][i - k] == s[i];
    assert forall i :: |r| <= i < |s| ==> s[|r|..][i - |r|] == s[i];
  }

  /** A suffix that starts on a non-whitespace character and is preceded only
      by whitespace is what `trim_start` keeps. */
  lemma TrimStartUnique(s: string, k: nat)
    requires k <= |s|
    requires k == |s| || !IsWhitespace(s[k])
    requires AllWhitespace(s[..k])
    ensures TrimStart(s) == s[k..]
  {
    var r := TrimStart(s);
    var j := |s| - |r|;
    assert forall i :: 0 <= i < k ==> s[..k][i] == s[i];
    assert forall i :: 0 <= i < j ==> s[..j][i] == s[i];
    assert j == |s| || !IsWhitespace(s[j]);
    assert k == |s| || !IsWhitespace(s[k]);
    assert j <= k;
    assert k <= j;
    assert r == s[j..];
  }

  /** Trailing whitespace never reaches `trim_end`'s result. */
  lemma TrimEndAppendWhitespace(a: string, w: string)
    requires AllWhitespace(w)
    ensures TrimEnd(a + w) == TrimEnd(a)
  {
    var r := TrimEnd(a);
    var s := a + w;
    assert s[..|r|] == r;
    forall i | |r| <= i < |s| ensures IsWhitespace(s[i]) {
      if i < |a| { assert s[i] == a[|r|..][i - |r|]; } else { assert s[i] == w[i - |a|]; }
    }
    TrimEndUnique(s, |r|);
  }

  /** When `b` holds something other than whitespace, `trim_end` of `a + b`
      only touches `b`. */
  lemma TrimEndAppend(a: string, b: string)
    requires !AllWhitespace(b)
    ensures TrimEnd(a + b) == a + TrimEnd(b)
  {
    var r := TrimEnd(b);
    var s := a + b;
    var i :| 0 <= i < |b| && !IsWhitespace(b[i]);
    assert forall x :: |r| <= x < |b| ==> b[|r|..][x - |r|] == b[x];
    assert i < |r|;
    assert s[..|a| + |r|] == a + r;
    forall i | |a| + |r| <= i < |s| ensures IsWhitespace(s[i]) {
      assert s[i] == b[|r|..][i - |a| - |r|];
    }
    TrimEndUnique(s, |a| + |r|);
  }

  /** Behind a character that is not whitespace, `trim_end` only touches
      what follows it. */
  lemma TrimEndBehind(c: char, x: string)
    requires !IsWhitespace(c)
    ensures TrimEnd([c] + x) == [c] + TrimEnd(x)
  {
    if AllWhitespace(x) {
      TrimEndAppendWhitespace([c], x);
      TrimEndUnique([c], 1);
      TrimEndUnique(x, 0);
    } else {
      TrimEndAppend([c], x);
    }
  }

  /** A string that starts with a non-whitespace character is left alone by
      `trim_start`. */
  lemma TrimStartNoop(s: string)
    requires s == [] || !IsWhitespace(s[0])
    ensures TrimStart(s) == s
  {
    TrimStartUnique(s, 0);
  }

  lemma TrimEndIdempotent(s: string)
    ensures TrimEnd(TrimEnd(s)) == TrimEnd(s)
  {
    var r := TrimEnd(s);
    TrimEndUnique(r, |r|);
  }

  /** Trimming the end first changes nothing that `trim` would keep. */
  lemma TrimAfterTrimEnd(s: string)
    ensures Trim(TrimEnd(s)) == Trim(s)
  {
    TrimEndIdempotent(s);
  }

  /** No whitespace at either end: what `trim` returns. */
  predicate Trimmed(s: string) {
    s == [] || (!IsWhitespace(s[0]) && !IsWhitespace(s[|s| - 1]))
  }

  /** `trim` leaves no whitespace at either end and never lengthens. */
  lemma TrimIsTrimmed(s: string)
    ensures Trimmed(Trim(s)) && |Trim(s)| <= |s|
  {
  }

  /** What `trim` keeps is a slice of its input. */
  lemma TrimSlice(s: string) returns (a: nat, b: nat)
    ensures a <= b <= |s| && Trim(s) == s[a..b]
  {
    var e := TrimEnd(s);
    b := |e|;
    a := |e| - |TrimStart(e)|;
    assert s[..b][a..] == s[a..b];
  }

  /** `s` with `n` spaces before it and `m` after it trims back to `s`. */
  lemma TrimPadded(s: string, pre: string, post: string)
    requires s == [] || (!IsWhitespace(s[0]) && !IsWhitespace(s[|s| - 1]))
    requires AllWhitespace(pre) && AllWhitespace(post)
    ensures Trim(pre + s + post) == s
  {
    var x := pre + s + post;
    if s == [] {
      assert AllWhitespace(x) by {
        forall i | 0 <= i < |x| ensures IsWhitespace(x[i]) {
          if i < |pre| { assert x[i] == pre[i]; } else { assert x[i] == post[i - |pre|]; }
        }
      }
      assert x[0..] == x;
      TrimEndUnique(x, 0);
      TrimStartUnique([], 0);
    } else {
      var k := |pre| + |s|;
      assert x[k..] == post;
      assert x[k - 1] == s[|s| - 1];
      TrimEndUnique(x, k);
      var e := x[..k];
      assert e == pre + s;
      assert e[..|pre|] == pre && e[|pre|..] == s;
      TrimStartUnique(e, |pre|);
    }
  }

  /** `s.starts_with(prefix)` */
  predicate StartsWith(s: string, prefix: string) {
    |prefix| <= |s| && s[..|prefix|] == prefix
  }

  /** `s.ends_with(suffix)`. */
  predicate EndsWith(s: string, suffix: string) {
    |suffix| <= |s| && s[|s| - |suffix|..] == suffix
  }

  /** A text made of three parts starts with the first and ends with the
      last. */
  lemma Framed(a: string, b: string, c: string)
    ensures StartsWith(a + b + c, a) && EndsWith(a + b + c, c)
  {
    assert (a + b + c)[..|a|] == a;
    assert (a + b + c)[|a + b + c| - |c|..] == c;
  }

  /** Index of the first occurrence of `c` in `s`: `str::find` with a char,
      and `Iterator::position` with an equality test. */
  function IndexOf<T(==)>(s: seq<T>, c: T): (r: Option<nat>)
    ensures r.Some? ==> r.value < |s| && s[r.value] == c && c !in s[..r.value]
    ensures r.None? ==> c !in s
  {
    if |s| == 0 then None
    else if s[0] == c then Some(0)
    else match IndexOf(s[1..], c)
      case None => None
      case Some(i) => assert s[..i + 1] == [s[0]] + s[1..][..i]; Some(i + 1)
  }

  /** The first occurrence of `c` is determined by where it is and that it
      does not occur before. */
  lemma IndexOfAt<T>(s: seq<T>, c: T, k: nat)
    requires k < |s| && s[k] == c && c !in s[..k]
    ensures IndexOf(s, c) == Some(k)
  {
    var r := IndexOf(s, c);
    assert s[k] in s;
    assert forall i :: 0 <= i < k ==> s[..k][i] == s[i];
    assert forall i :: 0 <= i < r.value ==> s[..r.value][i] == s[i];
  }

  /** A `//` starts at position `i` of `s`. */
  predicate SlashPairAt(s: string, i: int) {
    0 <= i && i + 1 < |s| && s[i] == '/' && s[i + 1] == '/'
  }

  /** `s.find("//")`: the position of the first `//`. */
  function FindDoubleSlash(s: string): (r: Option<nat>)
    ensures r.Some? ==> SlashPairAt(s, r.value)
    ensures forall i :: 0 <= i < (if r.Some? then r.value else |s|) ==> !SlashPairAt(s, i)
  {
    if |s| < 2 then None
    else if s[0] == '/' && s[1] == '/' then Some(0)
    else match FindDoubleSlash(s[1..])
      case None =>
        assert forall i :: 1 <= i < |s| ==> (SlashPairAt(s, i) <==> SlashPairAt(s[1..], i - 1));
        None
      case Some(j) =>
        assert forall i :: 1 <= i < |s| ==> (SlashPairAt(s, i) <==> SlashPairAt(s[1..], i - 1));
        Some(j + 1)
  }

  /** The first `//` is where one starts and none starts before. */
  lemma FindDoubleSlashAt(s: string, k: nat)
    requires SlashPairAt(s, k)
    requires forall i :: 0 <= i < k ==> !SlashPairAt(s, i)
    ensures FindDoubleSlash(s) == Some(k)
  {
  }

  /** `trim` introduces no character and no `//`. */
  lemma TrimKeepsOut(s: string, c: char)
    ensures c !in s ==> c !in Trim(s)
    ensures (forall i :: !SlashPairAt(s, i)) ==> forall i :: !SlashPairAt(Trim(s), i)
  {
    var a, b := TrimSlice(s);
    var t := Trim(s);
    forall i | 0 <= i < |t| ensures t[i] == s[a + i] {
    }
    forall i | SlashPairAt(t, i) ensures SlashPairAt(s, a + i) {
      assert t[i] == s[a + i] && t[i + 1] == s[a + i + 1];
    }
  }

  /** Before the first `//` there is none. */
  lemma NoPairBeforeFirst(s: string, x: nat)
    requires FindDoubleSlash(s) == Some(x)
    ensures forall i :: !SlashPairAt(s[..x], i)
  {
    forall i | SlashPairAt(s[..x], i) ensures SlashPairAt(s, i) {
    }
  }

  /** `s.split(sep)`: the pieces between separators, in order; an empty
      string gives one empty piece. */
  function Split(s: string, sep: char): (r: seq<string>)
    ensures |r| >= 1
    ensures forall i :: 0 <= i < |r| ==> sep !in r[i]
    decreases |s|
  {
    match IndexOf(s, sep)
    case None => [s]
    case Some(i) => [s[..i]] + Split(s[i + 1..], sep)
  }

  /** The pieces with `sep` between each two: what `Split` takes apart. */
  function JoinWith(pieces: seq<string>, sep: char): string {
    if |pieces| == 0 then ""
    else if |pieces| == 1 then pieces[0]
    else pieces[0] + [sep] + JoinWith(pieces[1..], sep)
  }

  /** Joining the pieces of a split with the separator gives the string
      back: nothing is lost or reordered. */
  lemma {:induction false} SplitJoin(s: string, sep: char)
    ensures JoinWith(Split(s, sep), sep) == s
    decreases |s|
  {
    match IndexOf(s, sep)
    case None =>
    case Some(i) =>
      var rest := Split(s[i + 1..], sep);
      SplitJoin(s[i + 1..], sep);
      assert ([s[..i]] + rest)[1..] == rest;
      assert s == s[..i] + [sep] + s[i + 1..];
  }

  /** Splitting after one more separator adds the last piece. */
  lemma {:induction false} SplitAppend(a: string, sep: char, b: string)
    requires sep !in b
    ensures Split(a + [sep] + b, sep) == Split(a, sep) + [b]
    decreases |a|
  {
    var s := a + [sep] + b;
    match IndexOf(a, sep)
    case None =>
      assert s[..|a|] == a;
      IndexOfAt(s, sep, |a|);
      assert s[|a| + 1..] == b;
      assert Split(b, sep) == [b];
      assert Split(s, sep) == [a] + Split(b, sep);
    case Some(i) =>
      assert s[..i] == a[..i];
      IndexOfAt(s, sep, i);
      assert s[i + 1..] == a[i + 1..] + [sep] + b;
      SplitAppend(a[i + 1..], sep, b);
      assert Split(s, sep) == [a[..i]] + Split(a[i + 1..] + [sep] + b, sep);
      assert Split(a, sep) == [a[..i]] + Split(a[i + 1..], sep);
  }

  /** Drops one trailing carriage return. */
  function StripCR(line: string): (r: string)
    ensures r == line || (r + "\r" == line)
  {
    if |line| > 0 && line[|line| - 1] == '\r' then line[..|line| - 1] else line
  }

  /** `str::lines`: split at `\n` (a `\r` before it is dropped too); the
      final line ending is optional. */
  function SplitLines(text: string): (r: seq<string>)
    ensures text == [] <==> r == []
    decreases |text|
  {
    if text == [] then []
    else match IndexOf(text, '\n')
      case None => [text]
      case Some(i) => [StripCR(text[..i])] + SplitLines(text[i + 1..])
  }

  /** Each line followed by `\n`. */
  function JoinLines(lines: seq<string>): string {
    if lines == [] then "" else lines[0] + "\n" + JoinLines(lines[1..])
  }

  /** Pushing one more line and its `\n` onto a joined text. */
  lemma {:induction false} JoinLinesPush(lines: seq<string>, k: nat)
    requires k < |lines|
    ensures JoinLines(lines[..k + 1]) == JoinLines(lines[..k]) + (lines[k] + "\n")
    decreases k
  {
    if k > 0 {
      JoinLinesPush(lines[1..], k - 1);
      assert lines[1..][..k] == lines[..k + 1][1..];
      assert lines[1..][..k - 1] == lines[..k][1..];
    }
  }

  /** `text.push_str(next)` where `text` holds the first `k` lines joined
      and `next` is line `k` with its `\n`. */
  lemma JoinLinesPushed(lines: seq<string>, k: nat, text: string, next: string)
    requires k < |lines| && text == JoinLines(lines[..k]) && next == lines[k] + "\n"
    ensures text + next == JoinLines(lines[..k + 1])
  {
    JoinLinesPush(lines, k);
  }

  /** A line that `str::lines` gives back unchanged. */
  predicate PlainLine(line: string) {
    '\n' !in line && (line == [] || line[|line| - 1] != '\r')
  }

  /** `str::lines` recovers the lines of a text that ends every line with `\n`. */
  lemma {:induction false} SplitJoinLines(lines: seq<string>)
    requires forall i :: 0 <= i < |lines| ==> PlainLine(lines[i])
    ensures SplitLines(JoinLines(lines)) == lines
    decreases |lines|
  {
    if lines != [] {
      var text := JoinLines(lines);
      var first := lines[0];
      assert text == first + "\n" + JoinLines(lines[1..]);
      assert text[..|first|] == first;
      IndexOfAt(text, '\n', |first|);
      assert text[|first| + 1..] == JoinLines(lines[1..]);
      SplitJoinLines(lines[1..]);
      assert [lines[0]] + lines[1..] == lines;
    }
  }

  predicate IsDigit(c: char) {
    '0' <= c <= '9'
  }

  predicate AllDigits(s: string) {
    forall i :: 0 <= i < |s| ==> IsDigit(s[i])
  }

  function DigitChar(d: nat): (c: char)
    requires d < 10
    ensures IsDigit(c) && c as int - '0' as int == d
  {
    ('0' as int + d) as char
  }

  /** `format!("{}", n)` for an unsigned integer: its decimal digits, no padding. */
  function Decimal(n: nat): (s: string)
    ensures |s| >= 1 && AllDigits(s)
  {
    if n < 10 then [DigitChar(n)] else Decimal(n / 10) + [DigitChar(n % 10)]
  }

  /** The number a run of decimal digits denotes. */
  function DigitsValue(s: string): nat
    requires AllDigits(s)
  {
    if s == [] then 0 else DigitsValue(s[..|s| - 1]) * 10 + (s[|s| - 1] as int - '0' as int)
  }

  /** Reading the digits back gives the number. */
  lemma {:induction false} DecimalRoundTrip(n: nat)
    ensures DigitsValue(Decimal(n)) == n
  {
    if n >= 10 {
      DecimalRoundTrip(n / 10);
      var s := Decimal(n);
      assert s[..|s| - 1] == Decimal(n / 10);
    }
  }

  /** How many decimal digits `s` starts with. */
  function LeadingDigits(s: string): (k: nat)
    ensures k <= |s| && AllDigits(s[..k]) && (k == |s| || !IsDigit(s[k]))
  {
    if |s| > 0 && IsDigit(s[0]) then
      var k := 1 + LeadingDigits(s[1..]);
      assert s[..k] == [s[0]] + s[1..][..k - 1];
      k
    else 0
  }

  /** The leading digit run of `digits + rest` is `digits` when `rest` does
      not start with a digit. */
  lemma LeadingDigitsOf(digits: string, rest: string)
    requires AllDigits(digits)
    requires rest == [] || !IsDigit(rest[0])
    ensures LeadingDigits(digits + rest) == |digits|
  {
    var s := digits + rest;
    var k := LeadingDigits(s);
    assert forall i :: 0 <= i < |digits| ==> s[i] == digits[i];
    assert forall i :: 0 <= i < k ==> s[..k][i] == s[i];
    assert |digits| < |s| ==> s[|digits|] == rest[0];
  }
}
