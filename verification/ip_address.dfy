/**
 IPv4 and IPv6 addresses: the text forms of section 2.2 of RFC 4291, the canonical printer, and prefix masks
 (section 3.1 of RFC 4632), as src/auth/ip-allowlist.ts has them. An address is a big-endian byte sequence.
 */
module IpAddress {
  import opened Wrappers
  import opened Text

  type Byte = n: nat | n < 256

  type Bytes = seq<Byte>

  datatype Version = V4 | V6

  datatype Ip = Ip(version: Version, bytes: Bytes)

  predicate ValidIp(ip: Ip) {
    |ip.bytes| == if ip.version == V4 then 4 else 16
  }

  // ---------- IPv4 ----------

  /** One part of a dotted quad: a decimal numeral without leading zeros, at most 255. */
  function ParseOctet(part: string): Option<Byte> {
    if !IsNumber(part) then None
    else
      var n := DecimalValue(part);
      if n > 255 || ToDecimal(n) != part then None else Some(n)
  }

  function ParseIpv4(value: string): (r: Option<Bytes>)
    ensures r.Some? ==> |r.value| == 4
  {
    var parts := Split(value, '.');
    if |parts| != 4 then None
    else if exists i :: 0 <= i < 4 && ParseOctet(parts[i]).None? then None
    else Some(seq(4, i requires 0 <= i < 4 => ParseOctet(parts[i]).value))
  }

  /** The loop that fills the byte array. */
  method ParseIpv4Bytes(value: string) returns (r: Option<Bytes>)
    ensures r == ParseIpv4(value)
  {
    var parts := Split(value, '.');
    if |parts| != 4 {
      return None;
    }
    var bytes := new Byte[4](_ => 0);
    for i := 0 to 4
      invariant forall j :: 0 <= j < i ==> ParseOctet(parts[j]) == Some(bytes[j])
    {
      var octet := ParseOctet(parts[i]);
      if octet.None? {
        return None;
      }
      bytes[i] := octet.value;
    }
    assert bytes[..] == ParseIpv4(value).value;
    return Some(bytes[..]);
  }

  function OctetTexts(bytes: Bytes): (texts: seq<string>)
    ensures |texts| == |bytes| && forall i :: 0 <= i < |bytes| ==> texts[i] == ToDecimal(bytes[i])
  {
    seq(|bytes|, i requires 0 <= i < |bytes| => ToDecimal(bytes[i]))
  }

  function FormatIpv4(bytes: Bytes): string {
    Join(OctetTexts(bytes), '.')
  }

  lemma OctetRoundTrip(b: Byte)
    ensures ParseOctet(ToDecimal(b)) == Some(b)
  {
    DecimalRoundTrip(b);
  }

  /** Every address has a dotted quad, and it reads back as the address. */
  lemma Ipv4RoundTrip(bytes: Bytes)
    requires |bytes| == 4
    ensures ParseIpv4(FormatIpv4(bytes)) == Some(bytes)
  {
    var texts := OctetTexts(bytes);
    SplitOfJoin(texts, '.');
    forall i | 0 <= i < 4
      ensures ParseOctet(texts[i]) == Some(bytes[i])
    {
      OctetRoundTrip(bytes[i]);
    }
    assert ParseIpv4(FormatIpv4(bytes)).value == bytes;
  }

  /** A dotted quad that parses is the only text of its address. */
  lemma Ipv4TextIsCanonical(value: string)
    requires ParseIpv4(value).Some?
    ensures FormatIpv4(ParseIpv4(value).value) == value
  {
    var parts, bytes := Split(value, '.'), ParseIpv4(value).value;
    forall i | 0 <= i < 4
      ensures OctetTexts(bytes)[i] == parts[i]
    {
      var n := DecimalValue(parts[i]);
      assert ParseOctet(parts[i]).Some?;
    }
    assert OctetTexts(bytes) == parts;
    JoinOfSplit(value, '.');
  }

  // ---------- IPv6 ----------

  type Word = n: nat | n < 0x1_0000

  function HighByte(w: Word): Byte {
    w / 256
  }

  function LowByte(w: Word): Byte {
    w % 256
  }

  function WordOf(high: Byte, low: Byte): Word {
    high * 256 + low
  }

  lemma BytesOfWord(high: Byte, low: Byte)
    ensures HighByte(WordOf(high, low)) == high && LowByte(WordOf(high, low)) == low
  {
  }

  function BytesOf(words: seq<Word>): (bytes: Bytes)
    ensures |bytes| == 2 * |words|
    ensures forall i :: 0 <= i < |words| ==> bytes[2 * i] == HighByte(words[i]) && bytes[2 * i + 1] == LowByte(words[i])
  {
    seq(2 * |words|, i requires 0 <= i < 2 * |words| => if i % 2 == 0 then HighByte(words[i / 2]) else LowByte(words[i / 2]))
  }

  function WordsOf(bytes: Bytes): (words: seq<Word>)
    requires |bytes| == 16
    ensures |words| == 8 && forall i :: 0 <= i < 8 ==> words[i] == WordOf(bytes[2 * i], bytes[2 * i + 1])
  {
    seq(8, i requires 0 <= i < 8 => WordOf(bytes[2 * i], bytes[2 * i + 1]))
  }

  lemma SameBytes(bytes: Bytes, words: seq<Word>)
    requires |bytes| == 2 * |words|
    requires forall j :: 0 <= j < |words| ==> bytes[2 * j] == HighByte(words[j]) && bytes[2 * j + 1] == LowByte(words[j])
    ensures bytes == BytesOf(words)
  {
    hide HighByte, LowByte, BytesOf;
    var all := BytesOf(words);
    forall i | 0 <= i < |bytes|
      ensures bytes[i] == all[i]
    {
      var k := i / 2;
      var w := words[k];
      assert bytes[2 * k] == HighByte(w) && all[2 * k] == HighByte(w);
      assert bytes[2 * k + 1] == LowByte(w) && all[2 * k + 1] == LowByte(w);
      assert i == 2 * k || i == 2 * k + 1;
    }
  }

  lemma BytesOfWords(bytes: Bytes)
    requires |bytes| == 16
    ensures BytesOf(WordsOf(bytes)) == bytes
  {
    forall j | 0 <= j < 8
      ensures bytes[2 * j] == HighByte(WordsOf(bytes)[j]) && bytes[2 * j + 1] == LowByte(WordsOf(bytes)[j])
    {
      BytesOfWord(bytes[2 * j], bytes[2 * j + 1]);
    }
    SameBytes(bytes, WordsOf(bytes));
  }

  /** Two hexadecimal digits of a byte. */
  function HexByte(b: Byte): (s: string)
    ensures |s| == 2 && forall c :: c in s ==> IsHex(c)
  {
    [HexChar(b / 16), HexChar(b % 16)]
  }

  /** The two groups that stand for a dotted tail. */
  function TailGroups(v4: Bytes): string
    requires |v4| == 4
  {
    HexByte(v4[0]) + HexByte(v4[1]) + ":" + HexByte(v4[2]) + HexByte(v4[3])
  }

  /** An IPv4 tail rewritten as two groups; None when the tail is no IPv4 address. */
  function ExpandTail(value: string): Option<string> {
    var colon := LastIndexOfChar(value, ':');
    if colon.Some? && '.' in value then
      var v4 := ParseIpv4(value[colon.value + 1..]);
      if v4.None? then None else Some(value[..colon.value + 1] + TailGroups(v4.value))
    else Some(value)
  }

  /** How many times "::" occurs, without overlaps, from the left. */
  function CountGaps(s: string): nat {
    if |s| < 2 then 0 else if s[..2] == "::" then 1 + CountGaps(s[2..]) else CountGaps(s[1..])
  }

  function FirstGap(s: string): (i: nat)
    requires CountGaps(s) > 0
    ensures i + 2 <= |s| && s[i..i + 2] == "::"
  {
    if s[..2] == "::" then 0 else 1 + FirstGap(s[1..])
  }

  datatype Groups = Groups(head: seq<string>, tail: seq<string>, gap: bool)

  function GroupsIn(half: string): seq<string> {
    if half == "" then [] else Split(half, ':')
  }

  function GroupsOf(input: string): Groups {
    if CountGaps(input) > 0 then
      var i := FirstGap(input);
      Groups(GroupsIn(input[..i]), GroupsIn(input[i + 2..]), true)
    else Groups(Split(input, ':'), [], false)
  }

  predicate ValidGroups(g: Groups) {
    && (forall i :: 0 <= i < |g.head| ==> IsHexGroup(g.head[i]))
    && (forall i :: 0 <= i < |g.tail| ==> IsHexGroup(g.tail[i]))
    && (if g.gap then |g.head| + |g.tail| <= 8 else |g.head| == 8)
    && (!g.gap ==> g.tail == [])
  }

  /** The groups with zeros in the gap. */
  function WordsIn(g: Groups): (words: seq<Word>)
    requires ValidGroups(g)
    ensures |words| == 8
  {
    HexValues(g.head) + seq(8 - |g.head| - |g.tail|, _ => 0) + HexValues(g.tail)
  }

  function GroupValue(group: string): Word
    requires IsHexGroup(group)
  {
    GroupsAreWords(group);
    HexValue(group)
  }

  function HexValues(groups: seq<string>): (words: seq<Word>)
    requires forall i :: 0 <= i < |groups| ==> IsHexGroup(groups[i])
    ensures |words| == |groups|
    ensures forall i :: 0 <= i < |groups| ==> words[i] == GroupValue(groups[i])
  {
    seq(|groups|, i requires 0 <= i < |groups| => GroupValue(groups[i]))
  }

  function ParseIpv6(value: string): (r: Option<Bytes>)
    ensures r.Some? ==> |r.value| == 16
  {
    var expanded := ExpandTail(value);
    if expanded.None? || CountGaps(expanded.value) > 1 then None
    else
      var g := GroupsOf(expanded.value);
      if ValidGroups(g) then Some(BytesOf(WordsIn(g))) else None
  }

  /** The loops that collect the words: the head, the zeros of the gap, the tail. */
  method CollectWords(g: Groups) returns (words: seq<Word>)
    requires ValidGroups(g)
    ensures words == WordsIn(g)
  {
    words := [];
    for i := 0 to |g.head|
      invariant words == HexValues(g.head)[..i]
    {
      assert IsHexGroup(g.head[i]);
      words := words + [GroupValue(g.head[i])];
    }
    var missing := 8 - |g.head| - |g.tail|;
    for i := 0 to missing
      invariant words == HexValues(g.head) + seq(i, _ => 0)
    {
      words := words + [0];
    }
    for i := 0 to |g.tail|
      invariant words == HexValues(g.head) + seq(missing, _ => 0) + HexValues(g.tail)[..i]
    {
      assert IsHexGroup(g.tail[i]);
      words := words + [GroupValue(g.tail[i])];
    }
  }

  /** The loop that fills the byte array. */
  method FillBytes(words: seq<Word>) returns (r: Bytes)
    requires |words| == 8
    ensures r == BytesOf(words)
  {
    var bytes := new Byte[16](_ => 0);
    for i := 0 to 8
      invariant forall j :: 0 <= j < i ==> bytes[2 * j] == HighByte(words[j]) && bytes[2 * j + 1] == LowByte(words[j])
    {
      bytes[i * 2] := words[i] / 256;
      bytes[i * 2 + 1] := words[i] % 256;
    }
    SameBytes(bytes[..], words);
    return bytes[..];
  }

  method ParseIpv6Bytes(value: string) returns (r: Option<Bytes>)
    ensures r == ParseIpv6(value)
  {
    var expanded := ExpandTail(value);
    if expanded.None? || CountGaps(expanded.value) > 1 {
      return None;
    }
    var g := GroupsOf(expanded.value);
    if !ValidGroups(g) {
      return None;
    }
    var words := CollectWords(g);
    var bytes := FillBytes(words);
    return Some(bytes);
  }

  function HexTexts(words: seq<Word>): (texts: seq<string>)
    ensures |texts| == |words| && forall i :: 0 <= i < |words| ==> texts[i] == ToHex(words[i])
  {
    seq(|words|, i requires 0 <= i < |words| => ToHex(words[i]))
  }

  function FormatIpv6(bytes: Bytes): string
    requires |bytes| == 16
  {
    Join(HexTexts(WordsOf(bytes)), ':')
  }

  // ---------- the text forms of IPv6 ----------

  ghost predicate AllGroups(groups: seq<string>) {
    forall i :: 0 <= i < |groups| ==> IsHexGroup(groups[i])
  }

  ghost predicate NoDoubleColon(s: string) {
    forall i :: 0 <= i < |s| - 1 ==> s[i] != ':' || s[i + 1] != ':'
  }

  lemma {:induction false} NoGaps(s: string)
    requires NoDoubleColon(s)
    ensures CountGaps(s) == 0
  {
    if |s| >= 2 {
      assert s[0] != ':' || s[1] != ':';
      assert s[..2] != "::";
      NoGaps(s[1..]);
    }
  }

  lemma {:induction false} OneGap(a: string, b: string)
    requires NoDoubleColon(a) && NoDoubleColon(b) && (a != "" ==> a[|a| - 1] != ':')
    ensures CountGaps(a + "::" + b) == 1 && FirstGap(a + "::" + b) == |a|
  {
    var s := a + "::" + b;
    if a == "" {
      assert s[..2] == "::" && s[2..] == b;
      NoGaps(b);
    } else {
      assert s[0] == a[0] && (|a| > 1 ==> s[1] == a[1]);
      assert s[..2] != "::" by {
        if |a| > 1 {
          assert a[0] != ':' || a[1] != ':';
        }
        assert s[..2][0] == s[0] && s[..2][1] == s[1];
      }
      assert s[1..] == a[1..] + "::" + b;
      OneGap(a[1..], b);
    }
  }

  /** Groups joined by single colons. */
  lemma {:induction false} JoinedGroups(groups: seq<string>)
    requires AllGroups(groups)
    ensures var s := Join(groups, ':');
            && NoDoubleColon(s) && '.' !in s
            && (groups == [] <==> s == "")
            && (s != "" ==> s[0] != ':' && s[|s| - 1] != ':')
  {
    if |groups| > 0 {
      assert IsHexGroup(groups[0]);
      assert forall c :: c in groups[0] ==> IsHex(c);
      JoinedGroups(groups[1..]);
    }
  }

  lemma GroupsOfJoin(groups: seq<string>)
    requires AllGroups(groups)
    ensures GroupsIn(Join(groups, ':')) == groups
  {
    JoinedGroups(groups);
    if groups != [] {
      forall i | 0 <= i < |groups|
        ensures ':' !in groups[i]
      {
        assert IsHexGroup(groups[i]);
      }
      SplitOfJoin(groups, ':');
    }
  }

  /** Form 1 of section 2.2 of RFC 4291: eight groups, in either case, with or without leading zeros. */
  lemma FullForm(groups: seq<string>)
    requires AllGroups(groups) && |groups| == 8
    ensures ParseIpv6(Join(groups, ':')) == Some(BytesOf(HexValues(groups)))
  {
    var s := Join(groups, ':');
    JoinedGroups(groups);
    NoGaps(s);
    GroupsOfJoin(groups);
    assert GroupsOf(s) == Groups(groups, [], false);
    assert WordsIn(GroupsOf(s)) == HexValues(groups);
  }

  lemma CompressedGroups(head: seq<string>, tail: seq<string>)
    requires AllGroups(head) && AllGroups(tail)
    ensures var s := Join(head, ':') + "::" + Join(tail, ':');
            '.' !in s && CountGaps(s) == 1 && GroupsOf(s) == Groups(head, tail, true)
  {
    var a, b := Join(head, ':'), Join(tail, ':');
    var s := a + "::" + b;
    JoinedGroups(head);
    JoinedGroups(tail);
    OneGap(a, b);
    assert s[..|a|] == a && s[|a| + 2..] == b;
    GroupsOfJoin(head);
    GroupsOfJoin(tail);
  }

  /** Form 2: one "::" stands for the zero groups that are missing. */
  lemma CompressedForm(head: seq<string>, tail: seq<string>)
    requires AllGroups(head) && AllGroups(tail) && |head| + |tail| <= 8
    ensures ParseIpv6(Join(head, ':') + "::" + Join(tail, ':')) ==
            Some(BytesOf(HexValues(head) + seq(8 - |head| - |tail|, _ => 0) + HexValues(tail)))
  {
    hide CountGaps, GroupsOf, Join, BytesOf, HexValues, IsHexGroup, ParseIpv6;
    CompressedGroups(head, tail);
    ParsedGroups(Join(head, ':') + "::" + Join(tail, ':'), Groups(head, tail, true));
  }

  lemma ParsedGroups(s: string, g: Groups)
    requires '.' !in s && CountGaps(s) <= 1 && GroupsOf(s) == g && ValidGroups(g)
    ensures ParseIpv6(s) == Some(BytesOf(WordsIn(g)))
  {
    hide CountGaps, GroupsOf, ValidGroups, BytesOf, WordsIn, LastIndexOfChar;
  }

  /** Form 3: a dotted tail stands for two groups. */
  lemma DottedTail(front: string, v4: Bytes)
    requires front != "" && front[|front| - 1] == ':' && '.' !in front && |v4| == 4
    ensures ParseIpv6(front + FormatIpv4(v4)) == ParseIpv6(front + TailGroups(v4))
  {
    hide CountGaps, GroupsOf, ValidGroups, FormatIpv4, TailGroups, LastIndexOfChar, ParseIpv4;
    var dotted, tail := FormatIpv4(v4), TailGroups(v4);
    DottedQuad(v4);
    LastColon(front, dotted);
    assert (front + dotted)[|front|..] == dotted && (front + dotted)[..|front|] == front;
    Ipv4RoundTrip(v4);
    TailHasNoDot(v4);
    assert '.' in front + dotted && '.' !in front + tail;
    assert ExpandTail(front + dotted) == Some(front + tail) == ExpandTail(front + tail);
  }

  ghost predicate IsFullForm(s: string) {
    exists groups: seq<string> :: AllGroups(groups) && |groups| == 8 && s == Join(groups, ':')
  }

  ghost predicate IsCompressedForm(s: string) {
    exists head: seq<string>, tail: seq<string> ::
      AllGroups(head) && AllGroups(tail) && |head| + |tail| <= 8 && s == Join(head, ':') + "::" + Join(tail, ':')
  }

  lemma JoinOfGroups(half: string)
    ensures Join(GroupsIn(half), ':') == half
  {
    JoinOfSplit(half, ':');
  }

  lemma ParsedIsForm(input: string)
    requires ValidGroups(GroupsOf(input))
    ensures IsFullForm(input) || IsCompressedForm(input)
  {
    hide Join, Split, IsHexGroup;
    var g := GroupsOf(input);
    assert AllGroups(g.head) && AllGroups(g.tail);
    if CountGaps(input) > 0 {
      var i := FirstGap(input);
      JoinOfGroups(input[..i]);
      JoinOfGroups(input[i + 2..]);
      assert input == input[..i] + "::" + input[i + 2..];
    } else {
      JoinOfSplit(input, ':');
    }
  }

  /** No other text is an address: with its dotted tail written out, it has one of the two forms. */
  lemma Ipv6TextsHaveTheForms(value: string)
    ensures ParseIpv6(value).Some? <==>
            ExpandTail(value).Some? && (IsFullForm(ExpandTail(value).value) || IsCompressedForm(ExpandTail(value).value))
  {
    if ExpandTail(value).Some? {
      var input := ExpandTail(value).value;
      if ParseIpv6(value).Some? {
        ParsedIsForm(input);
      } else if groups: seq<string> :| AllGroups(groups) && |groups| == 8 && input == Join(groups, ':') {
        FullForm(groups);
        JoinedGroups(groups);
      } else if head: seq<string>, tail: seq<string> :|
        AllGroups(head) && AllGroups(tail) && |head| + |tail| <= 8 && input == Join(head, ':') + "::" + Join(tail, ':') {
        CompressedForm(head, tail);
        CompressedGroups(head, tail);
      }
    }
  }

  lemma TailHasNoDot(v4: Bytes)
    requires |v4| == 4
    ensures '.' !in TailGroups(v4)
  {
    var a, b, c, d := HexByte(v4[0]), HexByte(v4[1]), HexByte(v4[2]), HexByte(v4[3]);
    var s := TailGroups(v4);
    assert s == a + b + ":" + c + d;
    hide HexByte, TailGroups;
    forall i | 0 <= i < |s|
      ensures s[i] != '.'
    {
      if i < 2 {
        assert s[i] == a[i] && IsHex(a[i]);
      } else if i < 4 {
        assert s[i] == b[i - 2] && IsHex(b[i - 2]);
      } else if i == 4 {
        assert s[i] == ':';
      } else if i < 7 {
        assert s[i] == c[i - 5] && IsHex(c[i - 5]);
      } else {
        assert s[i] == d[i - 7] && IsHex(d[i - 7]);
      }
    }
  }

  lemma LastColon(front: string, rest: string)
    requires front != "" && front[|front| - 1] == ':' && ':' !in rest
    ensures LastIndexOfChar(front + rest, ':') == Some(|front| - 1)
  {
    var s := front + rest;
    assert s[|front| - 1] == ':';
    var i := LastIndexOfChar(s, ':').value;
    assert ':' !in s[i + 1..];
    assert !(i < |front| - 1);
  }

  lemma DottedQuad(v4: Bytes)
    requires |v4| == 4
    ensures '.' in FormatIpv4(v4) && ':' !in FormatIpv4(v4) && '/' !in FormatIpv4(v4)
  {
    var texts := OctetTexts(v4);
    JoinChars(texts, '.', ':');
    JoinChars(texts, '.', '/');
    assert FormatIpv4(v4) == texts[0] + ['.'] + Join(texts[1..], '.');
    assert FormatIpv4(v4)[|texts[0]|] == '.';
  }

  /** The groups of a dotted tail hold its four bytes. */
  lemma TailGroupValues(v4: Bytes)
    requires |v4| == 4
    ensures var groups := [HexByte(v4[0]) + HexByte(v4[1]), HexByte(v4[2]) + HexByte(v4[3])];
            && AllGroups(groups) && TailGroups(v4) == Join(groups, ':')
            && BytesOf(HexValues(groups)) == v4
  {
    hide HexByte, WordOf, HighByte, LowByte;
    var groups := [HexByte(v4[0]) + HexByte(v4[1]), HexByte(v4[2]) + HexByte(v4[3])];
    HexPairs(v4[0], v4[1]);
    HexPairs(v4[2], v4[3]);
    assert TailGroups(v4) == Join(groups, ':') by {
      assert groups[1..] == [groups[1]];
    }
    var words := [WordOf(v4[0], v4[1]), WordOf(v4[2], v4[3])];
    assert HexValues(groups) == words;
    TwoWords(v4, words);
  }

  lemma TwoWords(v4: Bytes, words: seq<Word>)
    requires |v4| == 4 && words == [WordOf(v4[0], v4[1]), WordOf(v4[2], v4[3])]
    ensures BytesOf(words) == v4
  {
    hide WordOf, HighByte, LowByte;
    forall j | 0 <= j < 2
      ensures v4[2 * j] == HighByte(words[j]) && v4[2 * j + 1] == LowByte(words[j])
    {
      BytesOfWord(v4[2 * j], v4[2 * j + 1]);
    }
    SameBytes(v4, words);
  }

  lemma HexPairs(a: Byte, b: Byte)
    ensures IsHexGroup(HexByte(a) + HexByte(b)) && HexValue(HexByte(a) + HexByte(b)) == WordOf(a, b)
  {
    var s1, s2, s3 := [HexChar(a / 16)], HexByte(a), HexByte(a) + [HexChar(b / 16)];
    HexStep("", a / 16);
    assert "" + [HexChar(a / 16)] == s1;
    HexStep(s1, a % 16);
    assert s1 + [HexChar(a % 16)] == s2;
    HexStep(s2, b / 16);
    HexStep(s3, b % 16);
    assert s3 + [HexChar(b % 16)] == HexByte(a) + HexByte(b);
  }

  /** Every address has a canonical text, and it reads back as the address. */
  lemma Ipv6RoundTrip(bytes: Bytes)
    requires |bytes| == 16
    ensures ParseIpv6(FormatIpv6(bytes)) == Some(bytes)
    ensures ':' in FormatIpv6(bytes) && '/' !in FormatIpv6(bytes)
  {
    var words := WordsOf(bytes);
    var groups := HexTexts(words);
    forall i | 0 <= i < 8
      ensures IsHexGroup(groups[i]) && HexValue(groups[i]) == words[i]
    {
      WordNumerals(words[i]);
      HexRoundTrip(words[i]);
    }
    FullForm(groups);
    assert HexValues(groups) == words;
    BytesOfWords(bytes);
    JoinChars(groups, ':', '/');
    assert FormatIpv6(bytes) == groups[0] + [':'] + Join(groups[1..], ':');
    assert FormatIpv6(bytes)[|groups[0]|] == ':';
  }

  /** The canonical text has eight groups, the numerals of the eight words of the address. */
  lemma Ipv6Printed(bytes: Bytes)
    requires |bytes| == 16
    ensures Split(FormatIpv6(bytes), ':') == HexTexts(WordsOf(bytes))
    ensures forall k :: 0 <= k < 8 ==> WordsOf(bytes)[k] / 256 == bytes[2 * k] && WordsOf(bytes)[k] % 256 == bytes[2 * k + 1]
  {
    var words := WordsOf(bytes);
    forall i | 0 <= i < 8
      ensures ':' !in HexTexts(words)[i]
      ensures words[i] / 256 == bytes[2 * i] && words[i] % 256 == bytes[2 * i + 1]
    {
      NoColon(words[i]);
      BytesOfWord(bytes[2 * i], bytes[2 * i + 1]);
    }
    hide ToHex, Split, Join;
    SplitOfJoin(HexTexts(words), ':');
  }

  /** Each is the shortest, in lower case. */
  lemma GroupPrinted(w: Word)
    ensures HexValue(ToHex(w)) == w && (|ToHex(w)| > 1 ==> ToHex(w)[0] != '0')
    ensures forall c :: c in ToHex(w) ==> c in "0123456789abcdef"
  {
    HexRoundTrip(w);
    NoLeadingHexZero(w);
    hide HexValue;
  }

  lemma NoColon(n: nat)
    ensures ':' !in ToHex(n)
  {
    assert ':' !in HEX_CHARS;
  }

  // ---------- both versions ----------

  function ParseIp(value: string): (r: Option<Ip>)
    ensures r.Some? ==> ValidIp(r.value)
  {
    if ':' in value then
      var bytes := ParseIpv6(value);
      if bytes.None? then None else Some(Ip(V6, bytes.value))
    else
      var bytes := ParseIpv4(value);
      if bytes.None? then None else Some(Ip(V4, bytes.value))
  }

  method ParseIpBytes(value: string) returns (r: Option<Ip>)
    ensures r == ParseIp(value)
  {
    if ':' in value {
      var bytes := ParseIpv6Bytes(value);
      return if bytes.None? then None else Some(Ip(V6, bytes.value));
    }
    var bytes := ParseIpv4Bytes(value);
    return if bytes.None? then None else Some(Ip(V4, bytes.value));
  }

  function FormatIp(ip: Ip): string
    requires ValidIp(ip)
  {
    if ip.version == V4 then FormatIpv4(ip.bytes) else FormatIpv6(ip.bytes)
  }

  /** Printing an address and reading it back; the text has no slash. */
  lemma IpRoundTrip(ip: Ip)
    requires ValidIp(ip)
    ensures ParseIp(FormatIp(ip)) == Some(ip) && '/' !in FormatIp(ip)
  {
    if ip.version == V4 {
      Ipv4RoundTrip(ip.bytes);
      DottedQuad(ip.bytes);
    } else {
      Ipv6RoundTrip(ip.bytes);
    }
  }
}
