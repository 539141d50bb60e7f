/**
 The string operations behind the IP allowlist: trimming, splitting, decimal and hexadecimal numerals.
 Strings are sequences of characters; the allowlist only gives meaning to ASCII ones.
 */
module Text {
  import opened Wrappers

  // ---------- trimming ----------

  /** The characters removed by `String.prototype.trim`. */
  predicate IsSpace(c: char) {
    || '\U{0009}' <= c <= '\U{000D}' || c == ' ' || c == '\U{00A0}' || c == '\U{1680}'
    || '\U{2000}' <= c <= '\U{200A}' || c == '\U{2028}' || c == '\U{2029}' || c == '\U{202F}'
    || c == '\U{205F}' || c == '\U{3000}' || c == '\U{FEFF}'
  }

  function TrimStart(s: string): string {
    if s == "" || !IsSpace(s[0]) then s else TrimStart(s[1..])
  }

  function TrimEnd(s: string): string {
    if s == "" || !IsSpace(s[|s| - 1]) then s else TrimEnd(s[..|s| - 1])
  }

  function Trim(s: string): string {
    TrimEnd(TrimStart(s))
  }

  predicate Trimmed(s: string) {
    s == "" || (!IsSpace(s[0]) && !IsSpace(s[|s| - 1]))
  }

  lemma TrimmedStays(s: string)
    requires Trimmed(s)
    ensures Trim(s) == s
  {
  }

  lemma {:induction false} TrimStartFirst(s: string)
    ensures TrimStart(s) == "" || !IsSpace(TrimStart(s)[0])
  {
    if s != "" && IsSpace(s[0]) {
      TrimStartFirst(s[1..]);
    }
  }

  lemma {:induction false} TrimEndEnds(s: string)
    ensures var t := TrimEnd(s); t <= s && (t == "" || !IsSpace(t[|t| - 1]))
  {
    if s != "" && IsSpace(s[|s| - 1]) {
      TrimEndEnds(s[..|s| - 1]);
    }
  }

  lemma TrimTrims(s: string)
    ensures Trimmed(Trim(s)) && Trim(Trim(s)) == Trim(s)
  {
    TrimStartFirst(s);
    TrimEndEnds(TrimStart(s));
    TrimmedStays(Trim(s));
  }

  // ---------- searching ----------

  function IndexOfChar(s: string, c: char): (r: Option<nat>)
    ensures r.Some? ==> r.value < |s| && s[r.value] == c && c !in s[..r.value]
    ensures r.None? <==> c !in s
  {
    if s == "" then None
    else if s[0] == c then Some(0)
    else
      var rest := IndexOfChar(s[1..], c);
      if rest.None? then None else
        assert s[..rest.value + 1] == [s[0]] + s[1..][..rest.value];
        Some(rest.value + 1)
  }

  function LastIndexOfChar(s: string, c: char): (r: Option<nat>)
    ensures r.Some? ==> r.value < |s| && s[r.value] == c && c !in s[r.value + 1..]
    ensures r.None? <==> c !in s
  {
    if s == "" then None
    else if s[|s| - 1] == c then Some(|s| - 1)
    else
      var front := s[..|s| - 1];
      var rest := LastIndexOfChar(front, c);
      assert s == front + [s[|s| - 1]];
      if rest.None? then None else
        assert s[rest.value + 1..] == front[rest.value + 1..] + [s[|s| - 1]];
        rest
  }

  // ---------- splitting ----------

  function Split(s: string, sep: char): (parts: seq<string>)
    ensures |parts| >= 1
  {
    if s == "" then [""]
    else
      var rest := Split(s[1..], sep);
      if s[0] == sep then [""] + rest else [[s[0]] + rest[0]] + rest[1..]
  }

  function Join(parts: seq<string>, sep: char): string {
    if parts == [] then "" else if |parts| == 1 then parts[0] else parts[0] + [sep] + Join(parts[1..], sep)
  }

  lemma JoinMore(first: string, rest: seq<string>, sep: char)
    requires rest != []
    ensures Join([first] + rest, sep) == first + [sep] + Join(rest, sep)
  {
    assert ([first] + rest)[1..] == rest;
  }

  /** Splitting a text loses nothing. */
  lemma {:induction false} JoinOfSplit(s: string, sep: char)
    ensures Join(Split(s, sep), sep) == s
  {
    if s != "" {
      var rest := Split(s[1..], sep);
      JoinOfSplit(s[1..], sep);
      if s[0] == sep {
        JoinMore("", rest, sep);
        assert s == "" + [sep] + s[1..];
      } else {
        assert s == [s[0]] + s[1..];
        var first, more := [s[0]] + rest[0], rest[1..];
        if more != [] {
          assert rest == [rest[0]] + more;
          JoinMore(rest[0], more, sep);
          JoinMore(first, more, sep);
          assert first + [sep] + Join(more, sep) == [s[0]] + (rest[0] + [sep] + Join(more, sep));
        }
      }
    }
  }

  lemma {:induction false} SplitOne(s: string, sep: char)
    requires sep !in s
    ensures Split(s, sep) == [s]
  {
    if s != "" {
      SplitOne(s[1..], sep);
      assert s == [s[0]] + s[1..];
    }
  }

  lemma {:induction false} SplitFirst(part: string, rest: string, sep: char)
    requires sep !in part
    ensures Split(part + [sep] + rest, sep) == [part] + Split(rest, sep)
  {
    var s := part + [sep] + rest;
    if part == "" {
      assert s[1..] == rest;
    } else {
      SplitFirst(part[1..], rest, sep);
      assert s[1..] == part[1..] + [sep] + rest;
      assert part == [part[0]] + part[1..];
    }
  }

  ghost predicate SepFree(parts: seq<string>, sep: char) {
    forall i :: 0 <= i < |parts| ==> sep !in parts[i]
  }

  /** Joining parts without the separator can be undone. */
  lemma {:induction false} SplitOfJoin(parts: seq<string>, sep: char)
    requires parts != [] && SepFree(parts, sep)
    ensures Split(Join(parts, sep), sep) == parts
  {
    if |parts| == 1 {
      SplitOne(parts[0], sep);
    } else {
      SplitOfJoin(parts[1..], sep);
      SplitFirst(parts[0], Join(parts[1..], sep), sep);
    }
  }

  lemma {:induction false} JoinChars(parts: seq<string>, sep: char, c: char)
    requires c != sep && forall i :: 0 <= i < |parts| ==> c !in parts[i]
    ensures c !in Join(parts, sep)
  {
    if |parts| > 1 {
      JoinChars(parts[1..], sep, c);
    }
  }

  // ---------- lines ----------

  predicate IsBreak(c: char) {
    c == '\n' || c == ','
  }

  function SkipBreaks(s: string): (rest: string)
    ensures |rest| <= |s|
  {
    if s != "" && IsBreak(s[0]) then SkipBreaks(s[1..]) else s
  }

  /** Splitting at every maximal run of line breaks and commas. */
  function SplitLines(s: string): (lines: seq<string>)
    ensures |lines| >= 1
    ensures forall i, c :: 0 <= i < |lines| && c in lines[i] ==> !IsBreak(c)
    decreases |s|
  {
    if s == "" then [""]
    else if IsBreak(s[0]) then [""] + SplitLines(SkipBreaks(s[1..]))
    else
      var rest := SplitLines(s[1..]);
      [[s[0]] + rest[0]] + rest[1..]
  }

  lemma SkipNone(s: string)
    requires s == "" || !IsBreak(s[0])
    ensures SkipBreaks(s) == s
  {
  }

  lemma {:induction false} LinesFirst(part: string, rest: string)
    requires (forall c :: c in part ==> !IsBreak(c)) && (rest == "" || !IsBreak(rest[0]))
    ensures SplitLines(part + "\n" + rest) == [part] + SplitLines(rest)
    decreases |part|
  {
    var s := part + "\n" + rest;
    if part == "" {
      assert s[1..] == rest;
      SkipNone(rest);
    } else {
      LinesFirst(part[1..], rest);
      assert s[1..] == part[1..] + "\n" + rest;
      assert part == [part[0]] + part[1..];
      assert !IsBreak(s[0]);
    }
  }

  lemma {:induction false} LinesOne(part: string)
    requires forall c :: c in part ==> !IsBreak(c)
    ensures SplitLines(part) == [part]
    decreases |part|
  {
    if part != "" {
      LinesOne(part[1..]);
      assert part == [part[0]] + part[1..];
      assert !IsBreak(part[0]);
    }
  }

  /** A list written one non-empty entry a line splits into its entries. */
  lemma {:induction false} LinesOfJoin(parts: seq<string>)
    requires parts != [] && forall i :: 0 <= i < |parts| ==> parts[i] != "" && forall c :: c in parts[i] ==> !IsBreak(c)
    ensures SplitLines(Join(parts, '\n')) == parts
    ensures Join(parts, '\n') != "" && !IsBreak(Join(parts, '\n')[0])
  {
    assert !IsBreak(parts[0][0]);
    if |parts| == 1 {
      LinesOne(parts[0]);
    } else {
      var rest := Join(parts[1..], '\n');
      LinesOfJoin(parts[1..]);
      LinesFirst(parts[0], rest);
      assert Join(parts, '\n') == parts[0] + "\n" + rest;
      hide SplitLines, IsBreak, Join;
    }
  }

  // ---------- plain text ----------

  /** The characters of canonical addresses and prefixes. */
  predicate IsPlain(c: char) {
    '0' <= c <= '9' || 'a' <= c <= 'f' || c == '.' || c == ':' || c == '/'
  }

  predicate Plain(s: string) {
    forall i :: 0 <= i < |s| ==> IsPlain(s[i])
  }

  lemma {:induction false} JoinPlain(parts: seq<string>, sep: char)
    requires IsPlain(sep) && forall i :: 0 <= i < |parts| ==> Plain(parts[i])
    ensures Plain(Join(parts, sep))
  {
    if |parts| > 0 {
      assert Plain(parts[0]);
      if |parts| > 1 {
        JoinPlain(parts[1..], sep);
      }
    }
  }

  /** `toLowerCase`, on ASCII. */
  function LowerChar(c: char): char {
    if 'A' <= c <= 'Z' then (c as int + 32) as char else c
  }

  function Lower(s: string): (t: string)
    ensures |t| == |s| && forall i :: 0 <= i < |s| ==> t[i] == LowerChar(s[i])
  {
    seq(|s|, i requires 0 <= i < |s| => LowerChar(s[i]))
  }

  lemma PlainStays(s: string)
    requires Plain(s)
    ensures Lower(s) == s && Trim(s) == s
    ensures forall c :: c in s ==> !IsBreak(c) && c != '#'
  {
    assert Trimmed(s) by {
      assert s != "" ==> IsPlain(s[0]) && IsPlain(s[|s| - 1]);
    }
    TrimmedStays(s);
  }

  // ---------- decimal numerals ----------

  predicate IsDigit(c: char) {
    '0' <= c <= '9'
  }

  predicate AllDigits(s: string) {
    forall i :: 0 <= i < |s| ==> IsDigit(s[i])
  }

  /** Matches one or more digits and nothing else. */
  predicate IsNumber(s: string) {
    s != "" && AllDigits(s)
  }

  function DigitChar(n: nat): (c: char)
    requires n < 10
    ensures IsDigit(c) && c as int == '0' as int + n
  {
    ('0' as int + n) as char
  }

  function ToDecimal(n: nat): (s: string)
    ensures IsNumber(s)
  {
    if n < 10 then [DigitChar(n)] else ToDecimal(n / 10) + [DigitChar(n % 10)]
  }

  function DecimalValue(s: string): nat
    requires AllDigits(s)
  {
    if s == "" then 0 else DecimalValue(s[..|s| - 1]) * 10 + (s[|s| - 1] as int - '0' as int)
  }

  lemma {:induction false} DecimalRoundTrip(n: nat)
    ensures DecimalValue(ToDecimal(n)) == n
  {
    if n >= 10 {
      DecimalRoundTrip(n / 10);
      var s := ToDecimal(n);
      assert s[..|s| - 1] == ToDecimal(n / 10);
    }
  }

  lemma {:induction false} PositiveValue(s: string)
    requires IsNumber(s) && s[0] != '0'
    ensures DecimalValue(s) >= 1
  {
    if |s| > 1 {
      PositiveValue(s[..|s| - 1]);
    }
  }

  lemma {:induction false} NoLeadingZero(n: nat)
    ensures |ToDecimal(n)| > 1 ==> ToDecimal(n)[0] != '0'
  {
    if n >= 10 {
      NoLeadingZero(n / 10);
    }
  }

  /** A numeral is the canonical one of its value exactly when it has no leading zero. */
  lemma {:induction false} CanonicalNumerals(s: string)
    requires IsNumber(s)
    ensures ToDecimal(DecimalValue(s)) == s <==> |s| == 1 || s[0] != '0'
  {
    if |s| == 1 {
      assert DecimalValue(s) == s[0] as int - '0' as int;
    } else if s[0] == '0' {
      NoLeadingZero(DecimalValue(s));
    } else {
      var front := s[..|s| - 1];
      CanonicalNumerals(front);
      PositiveValue(front);
      var last := s[|s| - 1] as int - '0' as int;
      assert DecimalValue(s) / 10 == DecimalValue(front) && DecimalValue(s) % 10 == last;
      assert s == front + [s[|s| - 1]];
    }
  }

  // ---------- hexadecimal numerals ----------

  const HEX_CHARS: string := "0123456789abcdef"

  predicate IsHex(c: char) {
    '0' <= c <= '9' || 'a' <= c <= 'f' || 'A' <= c <= 'F'
  }

  predicate AllHex(s: string) {
    forall i :: 0 <= i < |s| ==> IsHex(s[i])
  }

  /** One to four hexadecimal digits in either case. */
  predicate IsHexGroup(s: string) {
    1 <= |s| <= 4 && AllHex(s)
  }

  function HexChar(n: nat): (c: char)
    requires n < 16
    ensures IsHex(c) && c in HEX_CHARS
  {
    HEX_CHARS[n]
  }

  function HexDigit(c: char): (n: nat)
    requires IsHex(c)
    ensures n < 16
  {
    if '0' <= c <= '9' then c as int - '0' as int
    else if 'a' <= c <= 'f' then c as int - 'a' as int + 10
    else c as int - 'A' as int + 10
  }

  lemma HexDigitOfChar(n: nat)
    requires n < 16
    ensures HexDigit(HexChar(n)) == n
  {
    if n < 10 {
      assert HEX_CHARS[n] as int == '0' as int + n;
    } else {
      assert HEX_CHARS[n] as int == 'a' as int + (n - 10);
    }
  }

  function HexValue(s: string): nat
    requires AllHex(s)
  {
    if s == "" then 0 else HexValue(s[..|s| - 1]) * 16 + HexDigit(s[|s| - 1])
  }

  /** The shortest lower-case numeral. */
  function ToHex(n: nat): (s: string)
    ensures s != "" && AllHex(s) && forall c :: c in s ==> c in HEX_CHARS
  {
    if n < 16 then [HexChar(n)] else ToHex(n / 16) + [HexChar(n % 16)]
  }

  lemma HexStep(front: string, n: nat)
    requires AllHex(front) && n < 16
    ensures HexValue(front + [HexChar(n)]) == HexValue(front) * 16 + n
  {
    HexDigitOfChar(n);
    var s := front + [HexChar(n)];
    assert s[..|s| - 1] == front;
  }

  /** Printing a number and reading it back. */
  lemma {:induction false} HexRoundTrip(n: nat)
    ensures HexValue(ToHex(n)) == n
  {
    if n < 16 {
      HexStep("", n);
      assert "" + [HexChar(n)] == [HexChar(n)];
    } else {
      HexRoundTrip(n / 16);
      HexStep(ToHex(n / 16), n % 16);
    }
  }

  /** The numeral has no leading zero. */
  lemma {:induction false} NoLeadingHexZero(n: nat)
    ensures |ToHex(n)| > 1 ==> ToHex(n)[0] != '0'
  {
    if n >= 16 {
      NoLeadingHexZero(n / 16);
      if n < 256 {
        assert ToHex(n / 16) == [HexChar(n / 16)];
        HexDigitOfChar(n / 16);
      }
    }
  }

  /** A 16-bit word needs at most four digits, and no group holds more than 16 bits. */
  lemma WordNumerals(n: nat)
    requires n < 0x1_0000
    ensures IsHexGroup(ToHex(n))
  {
    assert n >= 16 ==> |ToHex(n)| == |ToHex(n / 16)| + 1;
    assert n / 16 >= 16 ==> |ToHex(n / 16)| == |ToHex(n / 16 / 16)| + 1;
    assert n / 16 / 16 >= 16 ==> |ToHex(n / 16 / 16)| == |ToHex(n / 16 / 16 / 16)| + 1;
    assert n / 16 / 16 / 16 < 16;
  }

  lemma GroupsAreWords(s: string)
    requires IsHexGroup(s)
    ensures HexValue(s) < 0x1_0000
  {
    assert HexValue(s[..0]) == 0;
    for i := 0 to |s|
      invariant HexValue(s[..i]) < if i == 0 then 1 else if i == 1 then 16 else if i == 2 then 256 else if i == 3 then 4096 else 65536
    {
      assert s[..i + 1][..i] == s[..i];
    }
    assert s[..|s|] == s;
  }
}
