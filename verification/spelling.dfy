/**
 What the spelling of the operator's text does not matter for: upper and lower case, commas for line breaks, white space
 around an entry, and comments (src/auth/ip-allowlist.ts).
 */
module Spelling {
  import opened Wrappers
  import opened Text
  import opened IpAddress
  import opened Cidrs
  import opened Allowlist

  // ---------- the letters ----------

  /** Each letter's lower case. */
  lemma Letters(i: nat)
    requires i < 26
    ensures LowerChar("ABCDEFGHIJKLMNOPQRSTUVWXYZ"[i]) == "abcdefghijklmnopqrstuvwxyz"[i]
  {
    assert "ABCDEFGHIJKLMNOPQRSTUVWXYZ"[i] as int == 65 + i;
    assert "abcdefghijklmnopqrstuvwxyz"[i] as int == 97 + i;
  }

  /** The values of the digits. */
  lemma HexDigits(i: nat)
    requires i < 10
    ensures IsHex("0123456789"[i]) && HexDigit("0123456789"[i]) == i
    ensures i < 6 ==> IsHex("abcdef"[i]) && HexDigit("abcdef"[i]) == 10 + i
    ensures i < 6 ==> IsHex("ABCDEF"[i]) && HexDigit("ABCDEF"[i]) == 10 + i
  {
  }

  // ---------- lower case, piece by piece ----------

  predicate IsLetter(c: char) {
    'A' <= c <= 'Z' || 'a' <= c <= 'z'
  }

  function LowerAll(parts: seq<string>): (lowered: seq<string>)
    ensures |lowered| == |parts| && forall i :: 0 <= i < |parts| ==> lowered[i] == Lower(parts[i])
  {
    seq(|parts|, i requires 0 <= i < |parts| => Lower(parts[i]))
  }

  lemma LowerConcat(a: string, b: string)
    ensures Lower(a + b) == Lower(a) + Lower(b)
  {
  }

  lemma LowerSlice(s: string, i: nat, j: nat)
    requires i <= j <= |s|
    ensures Lower(s)[i..j] == Lower(s[i..j])
  {
  }

  lemma LowerTail(s: string, i: nat)
    requires i <= |s|
    ensures Lower(s)[i..] == Lower(s[i..])
  {
  }

  lemma LowerHas(s: string, c: char)
    requires !IsLetter(c)
    ensures c in Lower(s) <==> c in s
    ensures forall i :: 0 <= i < |s| ==> (Lower(s)[i] == c <==> s[i] == c)
  {
    if c in s {
      var i :| 0 <= i < |s| && s[i] == c;
      assert Lower(s)[i] == c;
    }
  }

  lemma {:induction false} LowerSplit(s: string, sep: char)
    requires !IsLetter(sep)
    ensures Split(Lower(s), sep) == LowerAll(Split(s, sep))
  {
    if s != "" {
      LowerTail(s, 1);
      LowerSplit(s[1..], sep);
      var rest := Split(s[1..], sep);
      if s[0] != sep {
        LowerConcat([s[0]], rest[0]);
        assert Lower([s[0]]) == [Lower(s)[0]];
      }
    }
  }

  lemma LowerIndex(s: string, c: char)
    requires !IsLetter(c)
    ensures IndexOfChar(Lower(s), c) == IndexOfChar(s, c)
  {
    LowerHas(s, c);
  }

  lemma LowerLastIndex(s: string, c: char)
    requires !IsLetter(c)
    ensures LastIndexOfChar(Lower(s), c) == LastIndexOfChar(s, c)
  {
    LowerHas(s, c);
  }

  // ---------- numerals ----------

  /** A numeral has no letters, and nothing becomes one by lowering. */
  lemma LowerNumber(s: string)
    ensures IsNumber(Lower(s)) <==> IsNumber(s)
    ensures IsNumber(s) ==> Lower(s) == s
  {
    forall i | 0 <= i < |s|
      ensures IsDigit(Lower(s)[i]) <==> IsDigit(s[i])
    {
    }
    if AllDigits(Lower(s)) {
      forall i | 0 <= i < |s|
        ensures IsDigit(s[i])
      {
        assert IsDigit(Lower(s)[i]);
      }
    }
  }

  lemma LowerHexDigit(c: char)
    ensures IsHex(LowerChar(c)) <==> IsHex(c)
    ensures IsHex(c) ==> HexDigit(LowerChar(c)) == HexDigit(c)
  {
  }

  lemma LowerAllHex(s: string)
    ensures AllHex(Lower(s)) <==> AllHex(s)
  {
    forall i | 0 <= i < |s|
      ensures IsHex(Lower(s)[i]) <==> IsHex(s[i])
    {
      LowerHexDigit(s[i]);
    }
    hide IsHex, LowerChar;
    if AllHex(Lower(s)) {
      forall i | 0 <= i < |s|
        ensures IsHex(s[i])
      {
        assert IsHex(Lower(s)[i]);
      }
    }
  }

  /** Upper-case digits have the value of the lower-case ones. */
  lemma {:induction false} HexValueOfLower(s: string)
    requires AllHex(s)
    ensures AllHex(Lower(s)) && HexValue(Lower(s)) == HexValue(s)
  {
    LowerAllHex(s);
    if s != "" {
      var n := |s| - 1;
      assert AllHex(s[..n]);
      HexValueOfLower(s[..n]);
      LowerSlice(s, 0, n);
      assert Lower(s)[..n] == Lower(s[..n]);
      LowerHexDigit(s[n]);
      hide HexDigit, LowerChar;
    }
  }

  lemma LowerGroup(s: string)
    ensures IsHexGroup(Lower(s)) <==> IsHexGroup(s)
    ensures IsHexGroup(s) ==> GroupValue(Lower(s)) == GroupValue(s)
  {
    LowerAllHex(s);
    if IsHexGroup(s) {
      HexValueOfLower(s);
    }
  }

  // ---------- addresses ----------

  lemma LowerOctet(part: string)
    ensures ParseOctet(Lower(part)) == ParseOctet(part)
  {
    LowerNumber(part);
  }

  lemma LowerIpv4(value: string)
    ensures ParseIpv4(Lower(value)) == ParseIpv4(value)
  {
    LowerSplit(value, '.');
    var parts, lowered := Split(value, '.'), Split(Lower(value), '.');
    if |parts| == 4 {
      forall i | 0 <= i < 4
        ensures ParseOctet(lowered[i]) == ParseOctet(parts[i])
      {
        LowerOctet(parts[i]);
      }
      hide ParseOctet, Split, Lower;
      var a, b := ParseIpv4(value), ParseIpv4(Lower(value));
      if a.Some? {
        assert a.value == b.value;
      }
    }
  }

  lemma TailIsLower(v4: Bytes)
    requires |v4| == 4
    ensures Lower(TailGroups(v4)) == TailGroups(v4)
  {
    var t := TailGroups(v4);
    assert t == HexByte(v4[0]) + HexByte(v4[1]) + ":" + HexByte(v4[2]) + HexByte(v4[3]);
    forall j | 0 <= j < 4
      ensures Lower(HexByte(v4[j])) == HexByte(v4[j])
    {
      HexByteIsLower(v4[j]);
    }
    hide HexByte, TailGroups, Lower;
    LowerConcat(HexByte(v4[0]) + HexByte(v4[1]) + ":" + HexByte(v4[2]), HexByte(v4[3]));
    LowerConcat(HexByte(v4[0]) + HexByte(v4[1]) + ":", HexByte(v4[2]));
    LowerConcat(HexByte(v4[0]) + HexByte(v4[1]), ":");
    LowerConcat(HexByte(v4[0]), HexByte(v4[1]));
    ColonIsLower();
  }

  lemma ColonIsLower()
    ensures Lower(":") == ":"
  {
  }

  lemma HexByteIsLower(b: Byte)
    ensures Lower(HexByte(b)) == HexByte(b)
  {
    HexCharIsLower(b / 16);
    HexCharIsLower(b % 16);
    hide HexChar;
  }

  lemma HexCharIsLower(n: nat)
    requires n < 16
    ensures LowerChar(HexChar(n)) == HexChar(n)
  {
    assert HEX_CHARS[n] == HexChar(n) && HEX_CHARS == "0123456789abcdef";
  }

  lemma LowerExpand(value: string)
    ensures var e := ExpandTail(value);
            ExpandTail(Lower(value)) == if e.None? then None else Some(Lower(e.value))
  {
    LowerLastIndex(value, ':');
    LowerHas(value, '.');
    hide Lower, ParseIpv4, TailGroups, LastIndexOfChar, ExpandTail;
    var colon := LastIndexOfChar(value, ':');
    if colon.Some? && '.' in value {
      var front, tail := value[..colon.value + 1], value[colon.value + 1..];
      LowerHalves(value, colon.value + 1);
      LowerIpv4(tail);
      ExpandHalves(value, colon.value, front, tail);
      ExpandHalves(Lower(value), colon.value, Lower(front), Lower(tail));
      if ParseIpv4(tail).Some? {
        LowerConcat(front, TailGroups(ParseIpv4(tail).value));
        TailIsLower(ParseIpv4(tail).value);
      }
    } else {
      ExpandNothing(value);
      ExpandNothing(Lower(value));
    }
  }

  lemma ExpandHalves(value: string, k: nat, front: string, tail: string)
    requires LastIndexOfChar(value, ':') == Some(k) && '.' in value && front == value[..k + 1] && tail == value[k + 1..]
    ensures var v4 := ParseIpv4(tail);
            ExpandTail(value) == if v4.None? then None else Some(front + TailGroups(v4.value))
  {
    hide ParseIpv4, TailGroups, LastIndexOfChar;
  }

  lemma ExpandNothing(value: string)
    requires LastIndexOfChar(value, ':').None? || '.' !in value
    ensures ExpandTail(value) == Some(value)
  {
    hide ParseIpv4, LastIndexOfChar;
  }

  lemma LowerHalves(s: string, i: nat)
    requires i <= |s|
    ensures Lower(s)[..i] == Lower(s[..i]) && Lower(s)[i..] == Lower(s[i..])
  {
  }

  lemma {:induction false} LowerGaps(s: string)
    ensures CountGaps(Lower(s)) == CountGaps(s)
    ensures CountGaps(s) > 0 ==> FirstGap(Lower(s)) == FirstGap(s)
    decreases |s|
  {
    if |s| >= 2 {
      LowerHas(s, ':');
      LowerTail(s, 1);
      LowerTail(s, 2);
      assert s[..2] == "::" <==> s[0] == ':' && s[1] == ':';
      assert Lower(s)[..2] == "::" <==> Lower(s)[0] == ':' && Lower(s)[1] == ':';
      LowerGaps(s[1..]);
      LowerGaps(s[2..]);
      hide Lower;
    }
  }

  lemma LowerGroupsIn(half: string)
    ensures GroupsIn(Lower(half)) == LowerAll(GroupsIn(half))
  {
    LowerSplit(half, ':');
  }

  lemma LowerGroups(s: string)
    ensures var g := GroupsOf(s); GroupsOf(Lower(s)) == Groups(LowerAll(g.head), LowerAll(g.tail), g.gap)
  {
    LowerGaps(s);
    if CountGaps(s) > 0 {
      var i := FirstGap(s);
      LowerSlice(s, 0, i);
      LowerTail(s, i + 2);
      assert Lower(s)[..i] == Lower(s[..i]);
      LowerGroupsIn(s[..i]);
      LowerGroupsIn(s[i + 2..]);
    } else {
      LowerSplit(s, ':');
      assert LowerAll([]) == [];
    }
    hide Lower, CountGaps, FirstGap, GroupsIn, Split, LowerAll;
  }

  lemma LowerValid(groups: seq<string>)
    ensures (forall i :: 0 <= i < |groups| ==> IsHexGroup(groups[i]))
            <==> forall i :: 0 <= i < |groups| ==> IsHexGroup(LowerAll(groups)[i])
    ensures (forall i :: 0 <= i < |groups| ==> IsHexGroup(groups[i])) ==> HexValues(LowerAll(groups)) == HexValues(groups)
  {
    forall i | 0 <= i < |groups|
      ensures IsHexGroup(LowerAll(groups)[i]) <==> IsHexGroup(groups[i])
      ensures IsHexGroup(groups[i]) ==> GroupValue(LowerAll(groups)[i]) == GroupValue(groups[i])
    {
      LowerGroup(groups[i]);
    }
    hide IsHexGroup, GroupValue, Lower, LowerAll;
    if forall i :: 0 <= i < |groups| ==> IsHexGroup(LowerAll(groups)[i]) {
      forall i | 0 <= i < |groups|
        ensures IsHexGroup(groups[i])
      {
        assert IsHexGroup(LowerAll(groups)[i]);
      }
    }
  }

  lemma LowerIpv6(value: string)
    ensures ParseIpv6(Lower(value)) == ParseIpv6(value)
  {
    LowerExpand(value);
    var e := ExpandTail(value);
    if e.Some? {
      LowerGaps(e.value);
      LowerGroups(e.value);
      var g := GroupsOf(e.value);
      LowerValid(g.head);
      LowerValid(g.tail);
      hide Lower, LowerAll, CountGaps, IsHexGroup, HexValues, ExpandTail, GroupsOf;
      var h := GroupsOf(Lower(e.value));
      assert ValidGroups(h) <==> ValidGroups(g);
      if ValidGroups(g) {
        assert WordsIn(h) == WordsIn(g);
      }
    }
  }

  /** Case does not matter in an address, in any of its text forms. */
  lemma CaseOfAddress(value: string)
    ensures ParseIp(Lower(value)) == ParseIp(value)
  {
    LowerHas(value, ':');
    LowerIpv4(value);
    LowerIpv6(value);
    hide ParseIpv4, ParseIpv6, Lower;
  }

  // ---------- entries ----------

  lemma LowerTyped(trimmed: string)
    ensures ParseTyped(Lower(trimmed)) == ParseTyped(trimmed)
  {
    LowerIndex(trimmed, '/');
    var slash := IndexOfChar(trimmed, '/');
    if slash.None? {
      CaseOfAddress(trimmed);
    } else {
      var front, part := trimmed[..slash.value], trimmed[slash.value + 1..];
      LowerSlice(trimmed, 0, slash.value);
      assert Lower(trimmed)[..slash.value] == Lower(front);
      LowerTail(trimmed, slash.value + 1);
      CaseOfAddress(front);
      LowerNumber(part);
    }
    hide ParseIp, Lower;
  }

  lemma LowerSpace(c: char)
    ensures IsSpace(LowerChar(c)) <==> IsSpace(c)
  {
  }

  lemma {:induction false} LowerTrimStart(s: string)
    ensures TrimStart(Lower(s)) == Lower(TrimStart(s))
  {
    if s != "" {
      LowerSpace(s[0]);
      LowerTail(s, 1);
      LowerTrimStart(s[1..]);
      hide IsSpace, LowerChar;
    }
  }

  lemma {:induction false} LowerTrimEnd(s: string)
    ensures TrimEnd(Lower(s)) == Lower(TrimEnd(s))
  {
    if s != "" {
      var n := |s| - 1;
      LowerSpace(s[n]);
      LowerSlice(s, 0, n);
      assert Lower(s)[..n] == Lower(s[..n]);
      LowerTrimEnd(s[..n]);
      hide IsSpace, LowerChar;
    }
  }

  lemma LowerTrim(s: string)
    ensures Trim(Lower(s)) == Lower(Trim(s))
  {
    LowerTrimStart(s);
    LowerTrimEnd(TrimStart(s));
  }

  lemma LowerRaw(line: string)
    ensures RawOf(Lower(line)) == RawOf(line)
  {
    LowerTrim(line);
    LowerTyped(Trim(line));
    LowerHas(Trim(line), '#');
    hide ParseTyped, Trim, CidrOf, Lower;
  }

  /** Two lines that differ in case only store the same entry, or both store none. */
  lemma CaseOfLine(a: string, b: string)
    requires Lower(a) == Lower(b)
    ensures RawOf(a) == RawOf(b)
  {
    LowerRaw(a);
    LowerRaw(b);
  }

  // ---------- white space and comments ----------

  /** White space of ASCII, the no-break space and the byte order mark. */
  predicate IsPadding(s: string) {
    forall i :: 0 <= i < |s| ==> s[i] == ' ' || '\t' <= s[i] <= '\r' || s[i] == '\U{00A0}' || s[i] == '\U{FEFF}'
  }

  lemma {:induction false} PaddingStart(pad: string, s: string)
    requires IsPadding(pad)
    ensures TrimStart(pad + s) == TrimStart(s)
  {
    if pad == "" {
      assert pad + s == s;
    } else {
      PaddingStart(pad[1..], s);
      assert (pad + s)[1..] == pad[1..] + s;
      assert IsSpace((pad + s)[0]);
    }
  }

  lemma {:induction false} PaddingEnd(s: string, pad: string)
    requires IsPadding(pad)
    ensures TrimEnd(s + pad) == TrimEnd(s)
  {
    if pad == "" {
      assert s + pad == s;
    } else {
      var n := |pad| - 1;
      PaddingEnd(s, pad[..n]);
      assert (s + pad)[..|s + pad| - 1] == s + pad[..n];
      assert IsSpace((s + pad)[|s + pad| - 1]);
    }
  }

  lemma {:induction false} StartBeforePadding(s: string, pad: string)
    requires IsPadding(pad)
    ensures TrimEnd(TrimStart(s + pad)) == TrimEnd(TrimStart(s))
  {
    if s == "" {
      assert s + pad == pad + "";
      PaddingStart(pad, "");
    } else if IsSpace(s[0]) {
      StartBeforePadding(s[1..], pad);
      assert (s + pad)[1..] == s[1..] + pad;
    } else {
      PaddingEnd(s, pad);
    }
  }

  /** White space around an entry does not matter. */
  lemma PaddingOfLine(before: string, line: string, after: string)
    requires IsPadding(before) && IsPadding(after)
    ensures RawOf(before + line + after) == RawOf(line)
  {
    assert before + line + after == before + (line + after);
    PaddingStart(before, line + after);
    StartBeforePadding(line, after);
    SameTrimSameEntry(before + line + after, line);
  }

  lemma SameTrimSameEntry(a: string, b: string)
    requires Trim(a) == Trim(b)
    ensures RawOf(a) == RawOf(b)
  {
    hide Trim, ParseTyped, CidrOf;
  }

  /** A comment stores nothing and is no error. */
  lemma CommentsAreIgnored(acc: Parsed, before: string, comment: string)
    requires IsPadding(before)
    ensures AddLine(acc, before + "#" + comment) == acc
  {
    var line := "#" + comment;
    assert before + "#" + comment == before + line;
    PaddingStart(before, line);
    assert TrimStart(line) == line;
    KeepsFirst(line);
  }

  lemma {:induction false} KeepsFirst(s: string)
    requires s != "" && !IsSpace(s[0])
    ensures TrimEnd(s) != "" && TrimEnd(s)[0] == s[0]
  {
    if IsSpace(s[|s| - 1]) {
      KeepsFirst(s[..|s| - 1]);
    }
  }

  // ---------- lines ----------

  lemma {:induction false} SkipSame(a: string, b: string, x: char, y: char)
    requires IsBreak(x) && IsBreak(y)
    ensures SkipBreaks(a + [x] + b) == SkipBreaks(a + [y] + b)
            || (SkipBreaks(a + [x] + b) == SkipBreaks(a) + [x] + b && SkipBreaks(a + [y] + b) == SkipBreaks(a) + [y] + b)
  {
    if a == "" {
      assert a + [x] + b == [x] + b && a + [y] + b == [y] + b;
      assert ([x] + b)[1..] == b && ([y] + b)[1..] == b;
    } else if IsBreak(a[0]) {
      assert (a + [x] + b)[1..] == a[1..] + [x] + b && (a + [y] + b)[1..] == a[1..] + [y] + b;
      SkipSame(a[1..], b, x, y);
    } else {
      assert (a + [x] + b)[0] == a[0] && (a + [y] + b)[0] == a[0];
    }
  }

  /** A comma separates lines as a line break does. */
  lemma {:induction false} CommaIsBreak(a: string, b: string)
    ensures SplitLines(a + "," + b) == SplitLines(a + "\n" + b)
    decreases |a|
  {
    var s, t := a + [','] + b, a + ['\n'] + b;
    assert s == a + "," + b && t == a + "\n" + b;
    if a == "" {
      assert s[1..] == b && t[1..] == b;
    } else {
      assert s[1..] == a[1..] + [','] + b && t[1..] == a[1..] + ['\n'] + b && s[0] == t[0] == a[0];
      if IsBreak(a[0]) {
        SkipSame(a[1..], b, ',', '\n');
        if SkipBreaks(s[1..]) != SkipBreaks(t[1..]) {
          var rest := SkipBreaks(a[1..]);
          assert rest + [','] + b == rest + "," + b && rest + ['\n'] + b == rest + "\n" + b;
          CommaIsBreak(rest, b);
        }
      } else {
        assert a[1..] + [','] + b == a[1..] + "," + b && a[1..] + ['\n'] + b == a[1..] + "\n" + b;
        CommaIsBreak(a[1..], b);
      }
    }
  }

  /** Nothing else does: a text with neither is one line. */
  lemma NothingElseBreaks(s: string)
    requires '\n' !in s && ',' !in s
    ensures SplitLines(s) == [s]
  {
    LinesOne(s);
  }

  /** So a list may be typed with commas or line by line. */
  lemma CommasForLines(a: string, b: string)
    ensures ParseText(a + "," + b) == ParseText(a + "\n" + b)
  {
    CommaIsBreak(a, b);
  }
}
