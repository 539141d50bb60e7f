/**
 The operator's IP allowlist: normalizing the text that was typed must not change which addresses match
 (`parseAllowlistText` and `ipMatchesAllowlist` of src/auth/ip-allowlist.ts).
 */
module Allowlist {
  import opened Wrappers
  import opened Text
  import opened IpAddress
  import opened Cidrs

  const MAX_ENTRIES: nat := 64

  datatype Parsed = Parsed(entries: seq<string>, errors: seq<string>)

  /** A line that is neither blank nor a comment. */
  predicate Significant(line: string) {
    Trim(line) != "" && Trim(line)[0] != '#'
  }

  function InvalidEntry(raw: string): string {
    "Invalid IP or CIDR: " + raw
  }

  const TOO_MANY: string := "At most 64 entries allowed"

  predicate Seen(entries: seq<string>, key: string) {
    exists i :: 0 <= i < |entries| && Lower(entries[i]) == key
  }

  /** One line of the text. */
  function AddLine(acc: Parsed, line: string): Parsed {
    var raw := Trim(line);
    if !Significant(line) then acc
    else
      var c := ParseCidr(raw);
      if c.None? then acc.(errors := acc.errors + [InvalidEntry(raw)])
      else if Seen(acc.entries, Lower(c.value.raw)) then acc
      else acc.(entries := acc.entries + [c.value.raw])
  }

  /** The lines in order, stopping at the first entry beyond the limit. */
  function ParseLines(acc: Parsed, lines: seq<string>): Parsed
    decreases |lines|
  {
    if lines == [] then acc
    else
      var next := AddLine(acc, lines[0]);
      if |next.entries| > |acc.entries| && |next.entries| > MAX_ENTRIES then next.(errors := next.errors + [TOO_MANY])
      else ParseLines(next, lines[1..])
  }

  function ParseText(text: string): Parsed {
    ParseLines(Parsed([], []), SplitLines(text))
  }

  method ParseAllowlistText(text: string) returns (r: Parsed)
    ensures r == ParseText(text)
  {
    var entries: seq<string> := [];
    var errors: seq<string> := [];
    var seen: set<string> := {};
    var lines := SplitLines(text);
    for i := 0 to |lines|
      invariant forall key :: key in seen <==> Seen(entries, key)
      invariant ParseLines(Parsed(entries, errors), lines[i..]) == ParseText(text)
    {
      var line := lines[i];
      assert lines[i..][0] == line && lines[i..][1..] == lines[i + 1..];
      var raw := Trim(line);
      if raw == "" || raw[0] == '#' {
        continue;
      }
      var parsed := ParseCidrText(raw);
      if parsed.None? {
        errors := errors + [InvalidEntry(raw)];
        continue;
      }
      var key := Lower(parsed.value.raw);
      if key in seen {
        continue;
      }
      SeenMore(entries, parsed.value.raw);
      seen := seen + {key};
      entries := entries + [parsed.value.raw];
      if |entries| > MAX_ENTRIES {
        errors := errors + [TOO_MANY];
        return Parsed(entries, errors);
      }
    }
    return Parsed(entries, errors);
  }

  lemma SeenMore(entries: seq<string>, raw: string)
    ensures forall key :: Seen(entries + [raw], key) <==> Seen(entries, key) || key == Lower(raw)
  {
    var more := entries + [raw];
    forall key
      ensures Seen(more, key) <==> Seen(entries, key) || key == Lower(raw)
    {
      if i :| 0 <= i < |entries| && Lower(entries[i]) == key {
        assert Lower(more[i]) == key;
      }
      if key == Lower(raw) {
        assert Lower(more[|entries|]) == key;
      }
    }
  }

  // ---------- matching ----------

  /** A stored entry, read again, contains the client's address. */
  predicate EntryMatches(client: Ip, entry: string) {
    var c := ParseCidr(entry);
    c.Some? && c.value.version == client.version &&
    AddressInNetwork(client.bytes, c.value.network, c.value.prefixLength)
  }

  predicate AnyMatches(client: Ip, entries: seq<string>) {
    exists i :: 0 <= i < |entries| && EntryMatches(client, entries[i])
  }

  method IpMatchesAllowlist(ip: string, entries: seq<string>) returns (r: bool)
    ensures r <==> ParseIp(ip).Some? && AnyMatches(ParseIp(ip).value, entries)
  {
    hide ParseIp, ParseCidr, AddressInNetwork;
    var client := ParseIpBytes(ip);
    if client.None? {
      return false;
    }
    for i := 0 to |entries|
      invariant forall j :: 0 <= j < i ==> !EntryMatches(client.value, entries[j])
    {
      var cidr := ParseCidrText(entries[i]);
      if cidr.None? || cidr.value.version != client.value.version {
        continue;
      }
      var inside := AddressInNetworkBytes(client.value.bytes, cidr.value.network, cidr.value.prefixLength);
      if inside {
        return true;
      }
    }
    return false;
  }

  /**
   What the operator meant by a line: the client's address shares the first bits of the address that was
   typed, as many as the prefix says. Neither a mask nor a printed text plays a part here.
   */
  ghost predicate LineMatches(client: Ip, line: string) {
    Significant(line) &&
    var t := ParseTyped(Trim(line));
    t.Some? && t.value.ip.version == client.version && |client.bytes| == |t.value.ip.bytes| &&
    SamePrefix(client.bytes, t.value.ip.bytes, PrefixOf(t.value))
  }

  ghost predicate AnyLineMatches(client: Ip, lines: seq<string>) {
    exists i :: 0 <= i < |lines| && LineMatches(client, lines[i])
  }

  /** A line and its canonical entry mean the same. */
  lemma EntryMeansLine(client: Ip, line: string)
    requires ValidIp(client) && Significant(line) && ParseCidr(line).Some?
    ensures EntryMatches(client, ParseCidr(line).value.raw) <==> LineMatches(client, line)
  {
    var t := ParseTyped(Trim(line)).value;
    CanonicalTextIsFixpoint(line);
    if t.ip.version == client.version {
      StoredMatchIsTypedMatch(t, client.bytes);
    }
    hide SamePrefix, ParseTyped, Trim, MaskAddress, FormatIp;
  }

  // ---------- what normalization keeps ----------

  /** The canonical text of a line, if it holds a valid entry. */
  function RawOf(line: string): Option<string> {
    if Significant(line) && ParseCidr(line).Some? then Some(ParseCidr(line).value.raw) else None
  }

  predicate IsFixpoint(entry: string) {
    ParseCidr(entry).Some? && ParseCidr(entry).value.raw == entry && Plain(entry) && entry != ""
  }

  ghost predicate AllDistinct(entries: seq<string>) {
    forall i, j :: 0 <= i < j < |entries| ==> entries[i] != entries[j]
  }

  /** Entries as the normalizer stores them. */
  ghost predicate Canonical(entries: seq<string>) {
    AllDistinct(entries) && forall i :: 0 <= i < |entries| ==> IsFixpoint(entries[i])
  }

  lemma SeenIsMember(entries: seq<string>, key: string)
    requires Canonical(entries)
    ensures Seen(entries, key) <==> key in entries
  {
    forall i | 0 <= i < |entries|
      ensures Lower(entries[i]) == entries[i]
    {
      assert IsFixpoint(entries[i]);
      PlainStays(entries[i]);
    }
  }

  lemma RawIsFixpoint(line: string)
    requires RawOf(line).Some?
    ensures IsFixpoint(RawOf(line).value) && Lower(RawOf(line).value) == RawOf(line).value
  {
    CanonicalTextIsFixpoint(line);
    PlainStays(RawOf(line).value);
  }

  lemma CanonicalAppend(entries: seq<string>, raw: string)
    requires Canonical(entries) && IsFixpoint(raw) && raw !in entries
    ensures Canonical(entries + [raw])
  {
  }

  /** One line adds at most its own canonical entry. */
  lemma AddLineAdds(acc: Parsed, line: string)
    requires Canonical(acc.entries)
    ensures var next, raw := AddLine(acc, line), RawOf(line);
            && next.entries == (if raw.Some? && raw.value !in acc.entries then acc.entries + [raw.value] else acc.entries)
            && (next.errors == acc.errors <==> Significant(line) ==> raw.Some?)
            && acc.errors <= next.errors
            && Canonical(next.entries)
  {
    TrimTrims(line);
    hide Lower, Plain, IsFixpoint;
    if RawOf(line).Some? {
      var raw := RawOf(line).value;
      RawIsFixpoint(line);
      SeenIsMember(acc.entries, raw);
      if raw !in acc.entries {
        CanonicalAppend(acc.entries, raw);
      }
    } else if Significant(line) {
      assert |AddLine(acc, line).errors| == |acc.errors| + 1;
    }
    hide ParseCidr, Plain, Trim;
  }

  lemma AddLineMeans(acc: Parsed, line: string, client: Ip)
    requires Canonical(acc.entries) && ValidIp(client)
    requires Significant(line) ==> RawOf(line).Some?
    ensures AnyMatches(client, AddLine(acc, line).entries) <==>
            AnyMatches(client, acc.entries) || LineMatches(client, line)
  {
    hide ParseCidr, EntryMatches, LineMatches, Canonical, AddLine;
    AddLineAdds(acc, line);
    var before, after := acc.entries, AddLine(acc, line).entries;
    if Significant(line) {
      var raw := RawOf(line).value;
      EntryMeansLine(client, line);
      if raw in before {
        var i :| 0 <= i < |before| && before[i] == raw;
        assert EntryMatches(client, before[i]) <==> LineMatches(client, line);
      } else {
        MatchesAppend(client, before, raw);
      }
    } else {
      BlankMatchesNothing(client, line);
    }
  }

  lemma BlankMatchesNothing(client: Ip, line: string)
    requires !Significant(line)
    ensures !LineMatches(client, line)
  {
  }

  lemma MatchesAppend(client: Ip, entries: seq<string>, raw: string)
    ensures AnyMatches(client, entries + [raw]) <==> AnyMatches(client, entries) || EntryMatches(client, raw)
  {
    hide EntryMatches;
    var more := entries + [raw];
    if i :| 0 <= i < |entries| && EntryMatches(client, entries[i]) {
      assert EntryMatches(client, more[i]);
    }
    if EntryMatches(client, raw) {
      assert EntryMatches(client, more[|entries|]);
    }
  }

  // ---------- the whole text ----------

  /** The canonical texts of the valid lines. */
  function Raws(lines: seq<string>): set<string> {
    if lines == [] then {} else
      (if RawOf(lines[0]).Some? then {RawOf(lines[0]).value} else {}) + Raws(lines[1..])
  }

  /** Every line that is neither blank nor a comment holds a valid entry. */
  predicate AllValid(lines: seq<string>) {
    forall i :: 0 <= i < |lines| ==> Significant(lines[i]) ==> RawOf(lines[i]).Some?
  }

  function AsSet(entries: seq<string>): set<string> {
    set e | e in entries
  }

  lemma {:induction false} DistinctSize(entries: seq<string>)
    requires AllDistinct(entries)
    ensures |AsSet(entries)| == |entries|
  {
    if entries != [] {
      var rest := entries[1..];
      DistinctSize(rest);
      assert AsSet(entries) == {entries[0]} + AsSet(rest) by {
        assert entries == [entries[0]] + rest;
      }
      assert entries[0] !in rest;
    }
  }

  /** The stored entries are distinct fixpoints, and at most one more than the limit, which is then an error. */
  lemma {:induction false} ParseLinesStores(acc: Parsed, lines: seq<string>)
    requires Canonical(acc.entries) && |acc.entries| <= MAX_ENTRIES
    ensures var r := ParseLines(acc, lines);
            && Canonical(r.entries) && acc.errors <= r.errors
            && |r.entries| <= MAX_ENTRIES + 1 && (|r.entries| > MAX_ENTRIES ==> r.errors != [])
    decreases |lines|
  {
    hide Canonical, AddLine;
    if lines != [] {
      AddLineAdds(acc, lines[0]);
      var next := AddLine(acc, lines[0]);
      if |next.entries| <= MAX_ENTRIES {
        ParseLinesStores(next, lines[1..]);
      }
    }
  }

  /** Without errors, every address matches the stored entries exactly when it matches some line. */
  lemma {:induction false} ParseLinesMeans(acc: Parsed, lines: seq<string>, client: Ip)
    requires Canonical(acc.entries) && |acc.entries| <= MAX_ENTRIES && acc.errors == [] && ValidIp(client)
    requires ParseLines(acc, lines).errors == []
    ensures AnyMatches(client, ParseLines(acc, lines).entries) <==>
            AnyMatches(client, acc.entries) || AnyLineMatches(client, lines)
    decreases |lines|
  {
    hide Canonical, AddLine, AnyMatches, RawOf;
    if lines != [] {
      AddLineAdds(acc, lines[0]);
      var next, rest := AddLine(acc, lines[0]), lines[1..];
      ParseLinesStoresErrors(next, rest);
      AddLineMeans(acc, lines[0], client);
      ParseLinesMeans(next, rest, client);
      LinesMatchSplit(client, lines);
    }
  }

  lemma {:induction false} ParseLinesStoresErrors(acc: Parsed, lines: seq<string>)
    ensures acc.errors <= ParseLines(acc, lines).errors
    decreases |lines|
  {
    if lines != [] {
      var next := AddLine(acc, lines[0]);
      assert acc.errors <= next.errors;
      ParseLinesStoresErrors(next, lines[1..]);
    }
  }

  lemma LinesMatchSplit(client: Ip, lines: seq<string>)
    requires lines != []
    ensures AnyLineMatches(client, lines) <==> LineMatches(client, lines[0]) || AnyLineMatches(client, lines[1..])
  {
    hide LineMatches;
    var rest := lines[1..];
    if i :| 0 <= i < |lines| && LineMatches(client, lines[i]) {
      if i > 0 {
        assert LineMatches(client, rest[i - 1]);
      }
    }
    if i :| 0 <= i < |rest| && LineMatches(client, rest[i]) {
      assert LineMatches(client, lines[i + 1]);
    }
  }

  /** There is no error exactly when all lines are valid and there are at most 64 different entries. */
  lemma {:induction false} ParseLinesAccepts(acc: Parsed, lines: seq<string>)
    requires Canonical(acc.entries) && |acc.entries| <= MAX_ENTRIES && acc.errors == []
    ensures var all := AsSet(acc.entries) + Raws(lines);
            && (ParseLines(acc, lines).errors == [] <==> AllValid(lines) && |all| <= MAX_ENTRIES)
            && (ParseLines(acc, lines).errors == [] ==> AsSet(ParseLines(acc, lines).entries) == all)
    decreases |lines|
  {
    hide AddLine, RawOf, Significant, IsFixpoint;
    if lines == [] {
      DistinctSize(acc.entries);
      assert AsSet(acc.entries) + {} == AsSet(acc.entries);
    } else {
      var next, rest, raw := AddLine(acc, lines[0]), lines[1..], RawOf(lines[0]);
      AddLineAdds(acc, lines[0]);
      AllValidSplit(lines);
      assert AsSet(next.entries) + Raws(rest) == AsSet(acc.entries) + Raws(lines);
      if next.errors != [] {
        ParseLinesStoresErrors(next, rest);
      } else if |next.entries| > MAX_ENTRIES {
        DistinctSize(next.entries);
        SetGrows(AsSet(next.entries), Raws(rest));
      } else {
        ParseLinesAccepts(next, rest);
      }
    }
  }

  lemma AllValidSplit(lines: seq<string>)
    requires lines != []
    ensures AllValid(lines) <==> (Significant(lines[0]) ==> RawOf(lines[0]).Some?) && AllValid(lines[1..])
  {
    hide Significant, RawOf;
    var rest := lines[1..];
    if AllValid(lines) {
      forall i | 0 <= i < |rest|
        ensures Significant(rest[i]) ==> RawOf(rest[i]).Some?
      {
        assert rest[i] == lines[i + 1];
      }
    }
    if (Significant(lines[0]) ==> RawOf(lines[0]).Some?) && AllValid(rest) {
      forall i | 0 <= i < |lines|
        ensures Significant(lines[i]) ==> RawOf(lines[i]).Some?
      {
        if i > 0 {
          assert lines[i] == rest[i - 1];
        }
      }
    }
  }

  lemma SetGrows(a: set<string>, b: set<string>)
    ensures |a| <= |a + b|
  {
    assert a + b == a + (b - a);
  }

  /**
   Normalization preserves meaning. When a text parses without errors, its stored entries are at most 64,
   distinct, and fixpoints of reading and printing; and every address matches them exactly when it shares the
   typed prefix of some line. Errors are reported exactly when a line is invalid or more than 64 differ.
   */
  lemma NormalizationPreservesMeaning(text: string)
    ensures var r, lines := ParseText(text), SplitLines(text);
            && (r.errors == [] <==> AllValid(lines) && |Raws(lines)| <= 64)
            && (r.errors == [] ==>
                  && |r.entries| <= 64 && Canonical(r.entries) && AsSet(r.entries) == Raws(lines)
                  && forall client | ValidIp(client) :: AnyMatches(client, r.entries) <==> AnyLineMatches(client, lines))
  {
    var empty, lines := Parsed([], []), SplitLines(text);
    assert Canonical(empty.entries);
    ParseLinesStores(empty, lines);
    ParseLinesAccepts(empty, lines);
    assert AsSet([]) + Raws(lines) == Raws(lines);
    if ParseText(text).errors == [] {
      forall client | ValidIp(client)
        ensures AnyMatches(client, ParseText(text).entries) <==> AnyLineMatches(client, lines)
      {
        ParseLinesMeans(empty, lines, client);
        assert !AnyMatches(client, []);
      }
    }
  }

  // ---------- a second time ----------

  lemma {:induction false} StoredLinesParse(acc: Parsed, lines: seq<string>)
    requires Canonical(acc.entries + lines) && |acc.entries| + |lines| <= MAX_ENTRIES
    ensures ParseLines(acc, lines) == Parsed(acc.entries + lines, acc.errors)
    decreases |lines|
  {
    hide ParseCidr, Plain;
    if lines == [] {
      assert acc.entries + lines == acc.entries;
    } else {
      var all, e := acc.entries + lines, lines[0];
      assert all[|acc.entries|] == e && IsFixpoint(e);
      AddStored(acc, e, all);
      assert acc.entries + [e] + lines[1..] == all;
      StoredLinesParse(AddLine(acc, e), lines[1..]);
    }
  }

  lemma AddStored(acc: Parsed, e: string, all: seq<string>)
    requires Canonical(all) && |acc.entries| < |all| && all[|acc.entries|] == e && acc.entries <= all
    ensures AddLine(acc, e) == acc.(entries := acc.entries + [e])
  {
    assert IsFixpoint(e);
    PlainStays(e);
    forall i | 0 <= i < |acc.entries|
      ensures IsFixpoint(acc.entries[i]) && acc.entries[i] != e
    {
      assert acc.entries[i] == all[i];
    }
    assert Canonical(acc.entries);
    SeenIsMember(acc.entries, e);
  }

  /** Normalizing what was stored, one entry a line, changes nothing. */
  lemma NormalizationIsIdempotent(text: string)
    requires ParseText(text).errors == []
    ensures ParseText(Join(ParseText(text).entries, '\n')) == ParseText(text)
  {
    var r := ParseText(text);
    NormalizationPreservesMeaning(text);
    if r.entries == [] {
      assert SplitLines("") == [""];
      assert [""][1..] == [];
    } else {
      forall i | 0 <= i < |r.entries|
        ensures r.entries[i] != "" && forall c :: c in r.entries[i] ==> !IsBreak(c)
      {
        assert IsFixpoint(r.entries[i]);
        PlainStays(r.entries[i]);
      }
      LinesOfJoin(r.entries);
      assert [] + r.entries == r.entries;
      StoredLinesParse(Parsed([], []), r.entries);
    }
  }
}
