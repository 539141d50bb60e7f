/**
 Prefix masks and CIDR entries: masking keeps exactly the first bits of an address, and the canonical text of an
 entry is a fixpoint of reading and printing (src/auth/ip-allowlist.ts).
 */
module Cidrs {
  import opened Wrappers
  import opened Text
  import opened IpAddress
  import Engine

  // ---------- the bits of a byte ----------

  /** The value of a bit; bit 0 is the leading one. */
  function Weight(i: nat): (w: nat)
    requires i < 8
    ensures w > 0
  {
    if i == 0 then 128 else if i == 1 then 64 else if i == 2 then 32 else if i == 3 then 16
    else if i == 4 then 8 else if i == 5 then 4 else if i == 6 then 2 else 1
  }

  predicate Bit(b: Byte, i: nat)
    requires i < 8
  {
    b / Weight(i) % 2 == 1
  }

  /** `b & (0xff << (8 - n))`: all but the first n bits are cleared. */
  function MaskByte(b: Byte, n: nat): Byte
    requires 1 <= n <= 8
  {
    b - b % Weight(n - 1)
  }

  /** The number made of the first n bits. */
  function TopBits(b: Byte, n: nat): nat
    requires n <= 8
  {
    if n == 0 then 0 else b / Weight(n - 1)
  }

  lemma HalfQuotient(b: nat, w: nat)
    requires w > 0
    ensures b / (2 * w) == b / w / 2
  {
    var q, r := b / w, b % w;
    var h, m := q / 2, q % 2;
    assert b == q * w + r == h * (2 * w) + (m * w + r);
    Engine.ModUnique(b, 2 * w, h, m * w + r);
  }

  lemma NextBit(b: Byte, n: nat)
    requires n < 8
    ensures TopBits(b, n + 1) == 2 * TopBits(b, n) + if Bit(b, n) then 1 else 0
  {
    if n > 0 {
      assert Weight(n - 1) == 2 * Weight(n);
      HalfQuotient(b, Weight(n));
      hide Weight;
    }
  }

  lemma MaskHasTopBits(b: Byte, n: nat)
    requires 1 <= n <= 8
    ensures MaskByte(b, n) == Weight(n - 1) * TopBits(b, n)
    ensures n == 8 ==> MaskByte(b, n) == b
  {
    if n == 1 {} else if n == 2 {} else if n == 3 {} else if n == 4 {}
    else if n == 5 {} else if n == 6 {} else if n == 7 {} else {}
  }

  lemma {:induction false} TopBitsAgree(a: Byte, b: Byte, n: nat)
    requires n <= 8
    ensures TopBits(a, n) == TopBits(b, n) <==> forall i :: 0 <= i < n ==> Bit(a, i) == Bit(b, i)
  {
    if n > 0 {
      NextBit(a, n - 1);
      NextBit(b, n - 1);
      TopBitsAgree(a, b, n - 1);
      hide Bit, TopBits;
    }
  }

  lemma SameProduct(w: nat, x: nat, y: nat)
    requires w > 0
    ensures w * x == w * y <==> x == y
  {
  }

  /** What the mask leaves of one byte when `remaining` bits of the prefix are left. */
  function Masked(b: Byte, remaining: int): Byte {
    if remaining >= 8 then b else if remaining > 0 then MaskByte(b, remaining) else 0
  }

  lemma MaskedBits(a: Byte, b: Byte, remaining: int)
    ensures Masked(a, remaining) == Masked(b, remaining) <==>
            forall i :: 0 <= i < 8 && i < remaining ==> Bit(a, i) == Bit(b, i)
  {
    var n := Max(0, Min(8, remaining));
    TopBitsAgree(a, b, n);
    if n > 0 {
      MaskHasTopBits(a, n);
      MaskHasTopBits(b, n);
      SameProduct(Weight(n - 1), TopBits(a, n), TopBits(b, n));
    }
    hide Bit, TopBits, MaskByte, Weight;
  }

  lemma MaskByteTwice(b: Byte, n: nat)
    requires 1 <= n < 8
    ensures MaskByte(MaskByte(b, n), n) == MaskByte(b, n)
  {
    hide Weight;
    var w := Weight(n - 1);
    assert b - b % w == b / w * w + 0;
    Engine.ModUnique(b - b % w, w, b / w, 0);
  }

  lemma MaskedTwice(b: Byte, remaining: int)
    ensures Masked(Masked(b, remaining), remaining) == Masked(b, remaining)
  {
    hide MaskByte;
    if 0 < remaining < 8 {
      MaskByteTwice(b, remaining);
    }
  }

  // ---------- masks of addresses ----------

  function MaskAddress(bytes: Bytes, prefixLength: nat): (masked: Bytes)
    ensures |masked| == |bytes|
    ensures forall i :: 0 <= i < |bytes| ==> masked[i] == Masked(bytes[i], prefixLength - 8 * i)
  {
    seq(|bytes|, i requires 0 <= i < |bytes| => Masked(bytes[i], prefixLength - 8 * i))
  }

  /** The loop over the bytes, with the bits of the prefix that remain. */
  method MaskAddressBytes(bytes: Bytes, prefixLength: nat) returns (r: Bytes)
    ensures r == MaskAddress(bytes, prefixLength)
  {
    hide Masked;
    var out := new Byte[|bytes|](_ => 0);
    var remaining := prefixLength;
    for i := 0 to |bytes|
      invariant remaining == Max(0, prefixLength - 8 * i)
      invariant forall j :: 0 <= j < i ==> out[j] == Masked(bytes[j], prefixLength - 8 * j)
    {
      MaskedCases(bytes[i], prefixLength - 8 * i);
      if remaining >= 8 {
        out[i] := bytes[i];
        remaining := remaining - 8;
      } else if remaining > 0 {
        out[i] := MaskByte(bytes[i], remaining);
        remaining := 0;
      } else {
        out[i] := 0;
      }
    }
    return out[..];
  }

  lemma MaskedCases(b: Byte, remaining: int)
    ensures remaining >= 8 ==> Masked(b, remaining) == b
    ensures 0 < remaining < 8 ==> Masked(b, remaining) == MaskByte(b, remaining)
    ensures remaining <= 0 ==> Masked(b, remaining) == 0
  {
  }

  /** Bit i of an address, counted from the front. */
  predicate AddressBit(bytes: Bytes, i: nat)
    requires i < 8 * |bytes|
  {
    Bit(bytes[i / 8], i % 8)
  }

  /** Section 3.1 of RFC 4632: the first n bits are equal. */
  ghost predicate SamePrefix(a: Bytes, b: Bytes, n: nat)
    requires |a| == |b|
  {
    forall i :: 0 <= i < n && i < 8 * |a| ==> AddressBit(a, i) == AddressBit(b, i)
  }

  /** Masking keeps exactly the prefix: masked addresses are equal if and only if the first n bits are. */
  lemma MaskKeepsPrefix(a: Bytes, b: Bytes, n: nat)
    requires |a| == |b|
    ensures MaskAddress(a, n) == MaskAddress(b, n) <==> SamePrefix(a, b, n)
  {
    hide Bit, Masked;
    var x, y := MaskAddress(a, n), MaskAddress(b, n);
    if x == y {
      forall i | 0 <= i < n && i < 8 * |a|
        ensures AddressBit(a, i) == AddressBit(b, i)
      {
        var k := i / 8;
        assert x[k] == y[k];
        MaskedBits(a[k], b[k], n - 8 * k);
      }
    }
    if SamePrefix(a, b, n) {
      forall k | 0 <= k < |a|
        ensures x[k] == y[k]
      {
        forall j | 0 <= j < 8 && j < n - 8 * k
          ensures Bit(a[k], j) == Bit(b[k], j)
        {
          assert AddressBit(a, 8 * k + j) == AddressBit(b, 8 * k + j);
          assert (8 * k + j) / 8 == k && (8 * k + j) % 8 == j;
        }
        MaskedBits(a[k], b[k], n - 8 * k);
      }
    }
  }

  lemma MaskIsIdempotent(bytes: Bytes, n: nat)
    ensures MaskAddress(MaskAddress(bytes, n), n) == MaskAddress(bytes, n)
  {
    forall i | 0 <= i < |bytes|
      ensures MaskAddress(MaskAddress(bytes, n), n)[i] == MaskAddress(bytes, n)[i]
    {
      MaskedTwice(bytes[i], n - 8 * i);
    }
  }

  predicate AddressInNetwork(address: Bytes, network: Bytes, prefixLength: nat) {
    |address| == |network| && MaskAddress(address, prefixLength) == network
  }

  /** The comparison loop. */
  method AddressInNetworkBytes(address: Bytes, network: Bytes, prefixLength: nat) returns (r: bool)
    ensures r == AddressInNetwork(address, network, prefixLength)
  {
    if |address| != |network| {
      return false;
    }
    var masked := MaskAddressBytes(address, prefixLength);
    for i := 0 to |masked|
      invariant forall j :: 0 <= j < i ==> masked[j] == network[j]
    {
      if masked[i] != network[i] {
        return false;
      }
    }
    return true;
  }

  // ---------- entries ----------

  datatype Cidr = Cidr(version: Version, network: Bytes, prefixLength: nat, raw: string)

  /** What an entry says as typed: an address, unmasked, and perhaps a prefix length. */
  datatype Typed = Typed(ip: Ip, prefix: Option<nat>)

  function MaxPrefix(version: Version): nat {
    if version == V4 then 32 else 128
  }

  function ParseTyped(trimmed: string): (r: Option<Typed>)
    ensures r.Some? ==> ValidIp(r.value.ip)
    ensures r.Some? && r.value.prefix.Some? ==> r.value.prefix.value <= MaxPrefix(r.value.ip.version)
  {
    var slash := IndexOfChar(trimmed, '/');
    var ip := ParseIp(if slash.None? then trimmed else trimmed[..slash.value]);
    if ip.None? then None
    else if slash.None? then Some(Typed(ip.value, None))
    else
      var part := trimmed[slash.value + 1..];
      if !IsNumber(part) || DecimalValue(part) > MaxPrefix(ip.value.version) then None
      else Some(Typed(ip.value, Some(DecimalValue(part))))
  }

  function PrefixOf(t: Typed): nat {
    t.prefix.GetOr(MaxPrefix(t.ip.version))
  }

  /** The canonical entry of what was typed. */
  function CidrOf(t: Typed): Cidr
    requires ValidIp(t.ip)
  {
    var version := t.ip.version;
    var network := MaskAddress(t.ip.bytes, PrefixOf(t));
    Cidr(version, network, PrefixOf(t),
         if t.prefix.None? then FormatIp(t.ip) else FormatIp(Ip(version, network)) + "/" + ToDecimal(t.prefix.value))
  }

  function ParseCidr(input: string): Option<Cidr> {
    var trimmed := Trim(input);
    var t := if trimmed == "" then None else ParseTyped(trimmed);
    if t.None? then None else Some(CidrOf(t.value))
  }

  method ParseCidrText(input: string) returns (r: Option<Cidr>)
    ensures r == ParseCidr(input)
  {
    var trimmed := Trim(input);
    if trimmed == "" {
      return None;
    }
    var slash := IndexOfChar(trimmed, '/');
    var ip := ParseIpBytes(if slash.None? then trimmed else trimmed[..slash.value]);
    if ip.None? {
      return None;
    }
    var version := ip.value.version;
    var prefixLength := MaxPrefix(version);
    if slash.Some? {
      var part := trimmed[slash.value + 1..];
      if !IsNumber(part) {
        return None;
      }
      prefixLength := DecimalValue(part);
      if prefixLength > MaxPrefix(version) {
        return None;
      }
    }
    var network := MaskAddressBytes(ip.value.bytes, prefixLength);
    var raw := if slash.None? then FormatIp(ip.value) else FormatIp(Ip(version, network)) + "/" + ToDecimal(prefixLength);
    return Some(Cidr(version, network, prefixLength, raw));
  }

  lemma PlainAddress(ip: Ip)
    requires ValidIp(ip)
    ensures Plain(FormatIp(ip)) && FormatIp(ip) != ""
  {
    if ip.version == V4 {
      JoinPlain(OctetTexts(ip.bytes), '.');
      DottedQuad(ip.bytes);
    } else {
      var groups := HexTexts(WordsOf(ip.bytes));
      forall i | 0 <= i < 8
        ensures Plain(groups[i])
      {
        assert forall c :: c in groups[i] ==> c in HEX_CHARS;
        assert forall c :: c in HEX_CHARS ==> IsPlain(c);
      }
      JoinPlain(groups, ':');
      Ipv6RoundTrip(ip.bytes);
    }
  }

  lemma FirstSlash(front: string, rest: string)
    requires '/' !in front
    ensures IndexOfChar(front + "/" + rest, '/') == Some(|front|)
  {
    var s := front + "/" + rest;
    assert s[|front|] == '/';
    var i := IndexOfChar(s, '/').value;
    assert '/' !in s[..i];
    assert !(i < |front|);
  }

  /** An entry printed from an address and a prefix length reads back as both. */
  lemma TypedRoundTrip(ip: Ip, prefix: Option<nat>)
    requires ValidIp(ip) && (prefix.Some? ==> prefix.value <= MaxPrefix(ip.version))
    ensures var raw := if prefix.None? then FormatIp(ip) else FormatIp(ip) + "/" + ToDecimal(prefix.value);
            ParseTyped(raw) == Some(Typed(ip, prefix)) && Plain(raw) && raw != ""
  {
    hide ParseIp, FormatIp;
    IpRoundTrip(ip);
    PlainAddress(ip);
    if prefix.Some? {
      var front, rest := FormatIp(ip), ToDecimal(prefix.value);
      var raw := front + "/" + rest;
      FirstSlash(front, rest);
      assert raw[..|front|] == front && raw[|front| + 1..] == rest;
      DecimalRoundTrip(prefix.value);
      assert Plain(rest);
    }
  }

  /** A prefix length is accepted up to the length of the address, and not beyond. */
  lemma PrefixRange(ip: Ip, n: nat)
    requires ValidIp(ip)
    ensures ParseTyped(FormatIp(ip) + "/" + ToDecimal(n)).Some? <==> n <= if ip.version == V4 then 32 else 128
  {
    hide ParseIp, FormatIp;
    IpRoundTrip(ip);
    var front, rest := FormatIp(ip), ToDecimal(n);
    var raw := front + "/" + rest;
    FirstSlash(front, rest);
    assert raw[..|front|] == front && raw[|front| + 1..] == rest;
    DecimalRoundTrip(n);
  }

  /** An entry without a prefix length stands for its one address. */
  lemma PlainEntryIsOneAddress(ip: Ip, address: Bytes)
    requires ValidIp(ip) && |address| == |ip.bytes|
    ensures SamePrefix(address, ip.bytes, PrefixOf(Typed(ip, None))) <==> address == ip.bytes
  {
    var n := PrefixOf(Typed(ip, None));
    MaskKeepsPrefix(address, ip.bytes, n);
    WholeMask(address, n);
    WholeMask(ip.bytes, n);
  }

  /** The first bits of a byte are its high ones. */
  lemma HighBitsFirst(n: nat)
    requires 1 <= n <= 7
    ensures MaskByte(255, n) == [128, 192, 224, 240, 248, 252, 254][n - 1]
    ensures Bit(128, 0) && !Bit(128, n)
  {
  }

  lemma WholeMask(bytes: Bytes, n: nat)
    requires n == 8 * |bytes|
    ensures MaskAddress(bytes, n) == bytes
  {
    forall i | 0 <= i < |bytes|
      ensures Masked(bytes[i], n - 8 * i) == bytes[i]
    {
    }
  }

  /** The canonical text of an entry is its own canonical text, and stands for the same network. */
  lemma CanonicalTextIsFixpoint(input: string)
    requires ParseCidr(input).Some?
    ensures var c := ParseCidr(input).value;
            ParseCidr(c.raw) == Some(c) && Plain(c.raw) && c.raw != ""
  {
    var t := ParseTyped(Trim(input)).value;
    var c := CidrOf(t);
    var again := if t.prefix.None? then t.ip else Ip(t.ip.version, c.network);
    TypedRoundTrip(again, t.prefix);
    PlainStays(c.raw);
    MaskIsIdempotent(t.ip.bytes, PrefixOf(t));
    hide ParseTyped, FormatIp, MaskAddress, Trim;
  }

  /** A client address matches an entry as stored exactly when it shares the prefix of the address as typed. */
  lemma StoredMatchIsTypedMatch(t: Typed, address: Bytes)
    requires ValidIp(t.ip) && |address| == |t.ip.bytes|
    ensures AddressInNetwork(address, CidrOf(t).network, PrefixOf(t)) <==> SamePrefix(address, t.ip.bytes, PrefixOf(t))
  {
    MaskKeepsPrefix(address, t.ip.bytes, PrefixOf(t));
  }
}
