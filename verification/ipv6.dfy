/** IPv6 addresses in text form, as the Rust standard library parses and prints them. */
module Ipv6Text {
  import opened Wrappers
  import opened Text
  import opened Ipv4Text

  // ----- hexadecimal numbers

  predicate IsHex(c: char) {
    '0' <= c <= '9' || 'a' <= c <= 'f' || 'A' <= c <= 'F'
  }

  function HexOf(c: char): (n: nat)
    requires IsHex(c)
    ensures n < 16
  {
    if c <= '9' then c as int - '0' as int
    else if c <= 'F' then c as int - 'A' as int + 10
    else c as int - 'a' as int + 10
  }

  function HexDigit(n: nat): (c: char)
    requires n < 16
    ensures IsHex(c) && HexOf(c) == n
  {
    if n < 10 then (n + '0' as int) as char else (n - 10 + 'a' as int) as char
  }

  /** The value of a digit is its position in either of two texts. */
  lemma HexByPosition(c: char, k: nat)
    requires k < 16
    ensures IsHex(c) && HexOf(c) == k <==> c == "0123456789abcdef"[k] || c == "0123456789ABCDEF"[k]
  {
  }

  /** Lower-case, without leading zeros. */
  function Hex(n: nat): (s: string)
    ensures s != "" && forall i :: 0 <= i < |s| ==> IsHex(s[i])
  {
    if n < 16 then [HexDigit(n)] else Hex(n / 16) + [HexDigit(n % 16)]
  }

  function HexValue(s: string): nat
    requires forall i :: 0 <= i < |s| ==> IsHex(s[i])
  {
    if s == "" then 0 else HexValue(s[..|s| - 1]) * 16 + HexOf(s[|s| - 1])
  }

  lemma {:induction false} HexRoundTrip(n: nat)
    ensures HexValue(Hex(n)) == n
  {
    if n < 16 {
      assert Hex(n)[..0] == "";
    } else {
      HexRoundTrip(n / 16);
      assert Hex(n)[..|Hex(n)| - 1] == Hex(n / 16);
    }
  }

  lemma HexLength(n: nat)
    requires n < 65536
    ensures |Hex(n)| <= 4
  {
    assert n / 16 / 16 / 16 < 16;
    assert n / 16 / 16 >= 16 ==> |Hex(n / 16 / 16)| == |Hex(n / 16 / 16 / 16)| + 1;
    assert n / 16 >= 16 ==> |Hex(n / 16)| == |Hex(n / 16 / 16)| + 1;
  }

  lemma HexBound(s: string)
    requires |s| <= 4 && forall i :: 0 <= i < |s| ==> IsHex(s[i])
    ensures HexValue(s) < 65536
  {
    HexGrows(s, 4);
  }

  function Power(n: nat): nat {
    if n == 0 then 1 else 16 * Power(n - 1)
  }

  lemma {:induction false} HexGrows(s: string, n: nat)
    requires |s| <= n && forall i :: 0 <= i < |s| ==> IsHex(s[i])
    ensures HexValue(s) < Power(n)
  {
    if n > 0 && s != "" {
      HexGrows(s[..|s| - 1], n - 1);
    } else if n > 0 {
      HexGrows(s, n - 1);
    }
  }

  // ----- reading groups

  predicate NotHex(c: char) {
    !IsHex(c)
  }

  /** One group of one to four digits, and what follows it. */
  function ReadHex(s: string): Option<(nat, string)> {
    var digits := TakeUntil(s, NotHex);
    if 1 <= |digits| <= 4 then Some((HexValue(digits), s[|digits|..])) else None
  }

  /** What a run of groups comes to: their values, whether the last two were written as an IPv4 address, and the text
      that is left. */
  datatype Groups = Groups(values: seq<nat>, endsInIpv4: bool, rest: string)

  datatype Reading = Stop | Embedded(host: Ipv4) | Group(value: nat, rest: string)

  /** Reads one group, or the end. An embedded IPv4 address is the end of the text: only more digits, dots or colons
      could follow it, and no text with a dot in it is read in any other way. */
  function ReadGroup(s: string, first: bool, room: nat): (r: Reading)
    ensures r.Group? ==> room >= 1
    ensures r.Embedded? ==> room >= 2
  {
    if room == 0 || (!first && (s == "" || s[0] != ':')) then Stop
    else
      var t := if first then s else s[1..];
      if room >= 2 && ParseIpv4(t).Some? then Embedded(ParseIpv4(t).value)
      else match ReadHex(t) case None => Stop case Some((value, rest)) => Group(value, rest)
  }

  /** Reads up to `room` groups. */
  function ReadGroups(s: string, first: bool, room: nat): (g: Groups)
    ensures |g.values| <= room
    decreases room
  {
    match ReadGroup(s, first, room)
    case Stop => Groups([], false, s)
    case Embedded(h) => Groups([h.a * 256 + h.b, h.c * 256 + h.d], true, "")
    case Group(value, rest) =>
      var more := ReadGroups(rest, false, room - 1);
      Groups([value] + more.values, more.endsInIpv4, more.rest)
  }

  function Zeros(n: nat): (z: seq<nat>)
    ensures |z| == n && forall i :: 0 <= i < n ==> z[i] == 0
  {
    seq(n, _ => 0)
  }

  const GROUP_COUNT: nat := 8

  type Ipv6 = g: seq<nat> | |g| == GROUP_COUNT witness [0, 0, 0, 0, 0, 0, 0, 0]

  /** Eight groups, or fewer on both sides of one `::`, which stands for at least one zero group. */
  function ParseIpv6(s: string): Option<Ipv6> {
    var head := ReadGroups(s, true, GROUP_COUNT);
    if |head.values| == GROUP_COUNT then (if head.rest == "" then Some(head.values) else None)
    else if head.endsInIpv4 || !StartsWith(head.rest, "::") then None
    else ParseTail(head.values, head.rest[2..])
  }

  /** What follows the `::`. */
  function ParseTail(head: seq<nat>, s: string): Option<Ipv6>
    requires |head| < GROUP_COUNT
  {
    var tail := ReadGroups(s, true, GROUP_COUNT - 1 - |head|);
    if tail.rest != "" then None
    else Some(head + Zeros(GROUP_COUNT - |head| - |tail.values|) + tail.values)
  }

  ghost predicate AllGroups(g: seq<nat>) {
    forall i :: 0 <= i < |g| ==> g[i] < 65536
  }

  lemma ReadGroupBound(s: string, first: bool, room: nat)
    ensures var r := ReadGroup(s, first, room);
            (r.Group? ==> r.value < 65536) && (r.Embedded? ==> r.host.Valid())
  {
    hide HexValue, ParseIpv4;
    if !(room == 0 || (!first && (s == "" || s[0] != ':'))) {
      var t := if first then s else s[1..];
      if ParseIpv4(t).Some? {
        Ipv4IsPrinted(t);
      }
      if ReadHex(t).Some? {
        HexBound(TakeUntil(t, NotHex));
      }
    }
  }

  lemma {:induction false} ReadGroupsBound(s: string, first: bool, room: nat)
    ensures AllGroups(ReadGroups(s, first, room).values)
    decreases room
  {
    hide ReadGroup;
    ReadGroupBound(s, first, room);
    if ReadGroup(s, first, room).Group? {
      ReadGroupsBound(ReadGroup(s, first, room).rest, false, room - 1);
    }
  }

  lemma ParsedGroups(s: string)
    requires ParseIpv6(s).Some?
    ensures AllGroups(ParseIpv6(s).value)
  {
    hide ReadGroups;
    var head := ReadGroups(s, true, GROUP_COUNT);
    ReadGroupsBound(s, true, GROUP_COUNT);
    if |head.values| != GROUP_COUNT {
      ReadGroupsBound(head.rest[2..], true, GROUP_COUNT - 1 - |head.values|);
    }
  }

  // ----- runs of group texts

  predicate AllHex(t: string) {
    forall i :: 0 <= i < |t| ==> IsHex(t[i])
  }

  /** One to four digits, in either case. */
  predicate IsGroup(t: string) {
    1 <= |t| <= 4 && AllHex(t)
  }

  predicate AreGroups(ts: seq<string>) {
    forall i :: 0 <= i < |ts| ==> IsGroup(ts[i])
  }

  /** `:` and a text, for each text. */
  function RunTail(ts: seq<string>): string {
    if ts == [] then "" else ":" + ts[0] + RunTail(ts[1..])
  }

  function Run(ts: seq<string>): string {
    if ts == [] then "" else ts[0] + RunTail(ts[1..])
  }

  function Values(ts: seq<string>): (g: seq<nat>)
    requires AreGroups(ts)
    ensures |g| == |ts| && forall i :: 0 <= i < |ts| ==> g[i] == HexValue(ts[i])
  {
    seq(|ts|, i requires 0 <= i < |ts| => HexValue(ts[i]))
  }

  // ----- printing

  /** The groups as they are printed. */
  function Texts(g: seq<nat>): (ts: seq<string>)
    ensures |ts| == |g| && forall i :: 0 <= i < |g| ==> ts[i] == Hex(g[i])
  {
    seq(|g|, i requires 0 <= i < |g| => Hex(g[i]))
  }

  function PrintGroups(g: seq<nat>): string {
    Run(Texts(g))
  }

  datatype Span = Span(start: nat, length: nat)

  predicate ZeroSpan(g: seq<nat>, span: Span) {
    span.start + span.length <= |g| && forall i :: span.start <= i < span.start + span.length ==> g[i] == 0
  }

  /** The first of the longest stretches of zeros, looking at the groups from number `i` on. */
  function LongestZeros(g: seq<nat>, i: nat, current: Span, longest: Span): (span: Span)
    requires i <= |g| && ZeroSpan(g, current) && ZeroSpan(g, longest)
    requires current.length > 0 ==> current.start + current.length == i
    ensures ZeroSpan(g, span)
    decreases |g| - i
  {
    if i == |g| then longest
    else if g[i] == 0 then
      var next := if current.length == 0 then Span(i, 1) else Span(current.start, current.length + 1);
      LongestZeros(g, i + 1, next, if next.length > longest.length then next else longest)
    else LongestZeros(g, i + 1, Span(0, 0), longest)
  }

  predicate IsMapped(g: Ipv6) {
    g[..5] == [0, 0, 0, 0, 0] && g[5] == 0xffff
  }

  function PrintIpv6(g: Ipv6): string {
    if IsMapped(g) then "::ffff:" + PrintIpv4(Ipv4(g[6] / 256, g[6] % 256, g[7] / 256, g[7] % 256))
    else
      var zeros := LongestZeros(g, 0, Span(0, 0), Span(0, 0));
      if zeros.length > 1 then PrintGroups(g[..zeros.start]) + "::" + PrintGroups(g[zeros.start + zeros.length..])
      else PrintGroups(g)
  }

  // ----- round trip

  predicate EndsHex(rest: string) {
    rest == "" || !IsHex(rest[0])
  }

  lemma {:induction false} TakeUntilPrefix(x: string, rest: string)
    requires (forall i :: 0 <= i < |x| ==> IsHex(x[i])) && EndsHex(rest)
    ensures TakeUntil(x + rest, NotHex) == x
  {
    if x == "" {
      assert x + rest == rest;
    } else {
      assert (x + rest)[1..] == x[1..] + rest;
      TakeUntilPrefix(x[1..], rest);
    }
  }

  lemma ReadGroupText(t: string, rest: string)
    requires IsGroup(t) && EndsHex(rest)
    ensures ReadHex(t + rest) == Some((HexValue(t), rest))
  {
    TakeUntilPrefix(t, rest);
    assert (t + rest)[|t|..] == rest;
  }

  /** A text with a colon, or without a dot, is no IPv4 address. */
  lemma NotIpv4(t: string)
    requires ':' in t || '.' !in t
    ensures ParseIpv4(t).None?
  {
    if ParseIpv4(t).Some? {
      Ipv4IsPrinted(t);
      Ipv4HasNoColon(ParseIpv4(t).value);
      Ipv4HasDot(ParseIpv4(t).value);
    }
  }

  lemma {:induction false} TailHasNoDot(ts: seq<string>)
    requires AreGroups(ts)
    ensures '.' !in RunTail(ts)
    ensures ts != [] ==> ':' in RunTail(ts) && RunTail(ts)[0] == ':'
  {
    if ts != [] {
      TailHasNoDot(ts[1..]);
      assert IsGroup(ts[0]) && '.' !in ts[0];
      assert RunTail(ts)[0] == ':';
    }
  }

  /** Where a run of groups may end: at the end of the text or at `::`. */
  predicate Stops(rest: string) {
    rest == "" || StartsWith(rest, "::")
  }

  lemma StopsThere(rest: string, first: bool, room: nat)
    requires Stops(rest)
    ensures ReadGroups(rest, first, room) == Groups([], false, rest)
  {
    assert rest != "" ==> rest[0] == ':' && rest[0] in rest;
    NotIpv4(rest);
    if rest != "" {
      assert rest[1..] != "" && rest[1..][0] == ':' && rest[1] in rest[1..];
      NotIpv4(rest[1..]);
    }
    assert ReadGroup(rest, first, room) == Stop;
  }

  lemma GroupIsNotIpv4(t: string, ts: seq<string>, rest: string)
    requires IsGroup(t) && AreGroups(ts) && Stops(rest)
    ensures ParseIpv4(t + (RunTail(ts) + rest)).None?
  {
    TailHasNoDot(ts);
    assert '.' !in t;
    if ts == [] && rest == "" {
      assert t + (RunTail(ts) + rest) == t;
    } else {
      assert rest != "" ==> rest[0] in rest;
    }
    NotIpv4(t + (RunTail(ts) + rest));
  }

  lemma TailEndsHex(ts: seq<string>, rest: string)
    requires AreGroups(ts) && Stops(rest)
    ensures EndsHex(RunTail(ts) + rest)
  {
    TailHasNoDot(ts);
    if ts == [] {
      assert RunTail(ts) + rest == rest;
    } else {
      assert (RunTail(ts) + rest)[0] == ':';
    }
  }

  /** A group is read as it stands, at the beginning or after its colon. */
  lemma ReadOneGroup(t: string, ts: seq<string>, rest: string, first: bool, room: nat)
    requires IsGroup(t) && AreGroups(ts) && Stops(rest) && room > 0
    ensures var after := RunTail(ts) + rest;
            ReadGroup((if first then "" else ":") + t + after, first, room) == Group(HexValue(t), after)
  {
    hide HexValue, ReadHex, ParseIpv4, RunTail;
    var after := RunTail(ts) + rest;
    var s := (if first then "" else ":") + t + after;
    GroupIsNotIpv4(t, ts, rest);
    TailEndsHex(ts, rest);
    ReadGroupText(t, after);
    assert if first then s == t + after else s == ":" + (t + after) && s[1..] == t + after;
  }

  lemma {:induction false} ReadTail(ts: seq<string>, rest: string, room: nat)
    requires AreGroups(ts) && |ts| <= room && Stops(rest)
    ensures ReadGroups(RunTail(ts) + rest, false, room) == Groups(Values(ts), false, rest)
    decreases |ts|
  {
    hide HexValue, ReadGroup;
    if ts == [] {
      assert RunTail(ts) + rest == rest;
      StopsThere(rest, false, room);
    } else {
      assert RunTail(ts) + rest == ":" + ts[0] + (RunTail(ts[1..]) + rest);
      assert IsGroup(ts[0]);
      ReadOneGroup(ts[0], ts[1..], rest, false, room);
      ReadTail(ts[1..], rest, room - 1);
      assert [HexValue(ts[0])] + Values(ts[1..]) == Values(ts);
    }
  }

  lemma ReadRun(ts: seq<string>, rest: string, room: nat)
    requires AreGroups(ts) && |ts| <= room && Stops(rest)
    ensures ReadGroups(Run(ts) + rest, true, room) == Groups(Values(ts), false, rest)
  {
    hide HexValue, ReadGroup, RunTail;
    if ts == [] {
      assert Run(ts) + rest == rest;
      StopsThere(rest, true, room);
    } else {
      assert Run(ts) + rest == "" + ts[0] + (RunTail(ts[1..]) + rest);
      assert IsGroup(ts[0]);
      ReadOneGroup(ts[0], ts[1..], rest, true, room);
      ReadTail(ts[1..], rest, room - 1);
      assert [HexValue(ts[0])] + Values(ts[1..]) == Values(ts);
    }
  }

  /** Eight groups, each in any spelling, are an address. */
  lemma FullForm(ts: seq<string>)
    requires AreGroups(ts) && |ts| == GROUP_COUNT
    ensures ParseIpv6(Run(ts)) == Some(Values(ts))
  {
    hide ReadGroups, Run;
    ReadRun(ts, "", GROUP_COUNT);
    assert Run(ts) + "" == Run(ts);
  }

  /** So are at most seven on both sides of `::`, which stands for zeros. */
  lemma ShortForm(head: seq<string>, tail: seq<string>)
    requires AreGroups(head) && AreGroups(tail) && |head| + |tail| < GROUP_COUNT
    ensures ParseIpv6(Run(head) + "::" + Run(tail)) == Some(Values(head) + Zeros(GROUP_COUNT - |head| - |tail|) + Values(tail))
  {
    hide ReadGroups, Run;
    var rest := "::" + Run(tail);
    ReadRun(head, rest, GROUP_COUNT);
    ReadRun(tail, "", GROUP_COUNT - 1 - |head|);
    assert Run(tail) + "" == Run(tail) && rest[2..] == Run(tail);
    assert Run(head) + "::" + Run(tail) == Run(head) + rest;
  }

  lemma PrintedGroups(g: seq<nat>)
    requires AllGroups(g)
    ensures AreGroups(Texts(g)) && Values(Texts(g)) == g
  {
    forall i | 0 <= i < |g|
      ensures IsGroup(Texts(g)[i]) && HexValue(Texts(g)[i]) == g[i]
    {
      HexLength(g[i]);
      HexRoundTrip(g[i]);
    }
  }

  lemma FullRoundTrip(g: Ipv6)
    requires AllGroups(g)
    ensures ParseIpv6(PrintGroups(g)) == Some(g)
  {
    PrintedGroups(g);
    FullForm(Texts(g));
  }

  /** Any stretch of at least two zeros may be left out. */
  lemma ShortRoundTrip(g: Ipv6, span: Span)
    requires AllGroups(g) && ZeroSpan(g, span) && span.length > 1
    ensures ParseIpv6(PrintGroups(g[..span.start]) + "::" + PrintGroups(g[span.start + span.length..])) == Some(g)
  {
    hide ParseIpv6, Run;
    var head, tail := g[..span.start], g[span.start + span.length..];
    PrintedGroups(head);
    PrintedGroups(tail);
    ShortForm(Texts(head), Texts(tail));
    assert head + Zeros(span.length) + tail == g;
  }

  /** The two last groups, as the text of an IPv4 address after its colon. */
  lemma ReadEmbedded(h: Ipv4, room: nat)
    requires h.Valid() && room >= 2
    ensures ReadGroups(":" + PrintIpv4(h), false, room) == Groups([h.a * 256 + h.b, h.c * 256 + h.d], true, "")
  {
    hide ParseIpv4, PrintIpv4;
    Ipv4RoundTrip(h);
    assert (":" + PrintIpv4(h))[1..] == PrintIpv4(h);
  }

  lemma ReadMappedTail(h: Ipv4, room: nat)
    requires h.Valid() && room >= 3
    ensures ReadGroups("ffff:" + PrintIpv4(h), true, room) == Groups([0xffff, h.a * 256 + h.b, h.c * 256 + h.d], true, "")
  {
    hide ParseIpv4, PrintIpv4, ReadHex, Hex;
    var after := ":" + PrintIpv4(h);
    var tail := "ffff:" + PrintIpv4(h);
    assert tail[4] == ':' && ':' in tail;
    NotIpv4(tail);
    assert tail == "ffff" + after && after[0] == ':';
    FfffValue();
    ReadGroupText("ffff", after);
    assert ReadGroup(tail, true, room) == Group(0xffff, after);
    ReadEmbedded(h, room - 1);
  }

  lemma MappedRoundTrip(g: Ipv6)
    requires AllGroups(g) && IsMapped(g)
    ensures ParseIpv6(PrintIpv6(g)) == Some(g)
  {
    hide PrintIpv4, ReadGroups;
    var h := Ipv4(g[6] / 256, g[6] % 256, g[7] / 256, g[7] % 256);
    var s, tail := "::ffff:" + PrintIpv4(h), "ffff:" + PrintIpv4(h);
    assert s == "::" + tail && s[2..] == tail;
    StopsThere(s, true, GROUP_COUNT);
    ReadMappedTail(h, GROUP_COUNT - 1);
    assert [] + Zeros(5) + [0xffff, g[6], g[7]] == g;
  }

  lemma FfffValue()
    ensures AllHex("ffff") && HexValue("ffff") == 0xffff
  {
    assert HexValue("f") == 0xf && "ff"[..1] == "f";
    assert HexValue("ff") == 0xff && "fff"[..2] == "ff";
    assert HexValue("fff") == 0xfff && "ffff"[..3] == "fff";
  }

  /** Parsing what was printed gives the address back, for every address. */
  lemma Ipv6RoundTrip(g: Ipv6)
    requires AllGroups(g)
    ensures ParseIpv6(PrintIpv6(g)) == Some(g)
  {
    hide ParseIpv6, PrintGroups, PrintIpv4, LongestZeros;
    if IsMapped(g) {
      MappedRoundTrip(g);
    } else {
      var zeros := LongestZeros(g, 0, Span(0, 0), Span(0, 0));
      if zeros.length > 1 {
        ShortRoundTrip(g, zeros);
      } else {
        FullRoundTrip(g);
      }
    }
  }

  // ----- the characters of an address

  predicate Ipv6Char(c: char) {
    IsHex(c) || c == ':' || c == '.'
  }

  predicate AllIpv6Chars(s: string) {
    forall i :: 0 <= i < |s| ==> Ipv6Char(s[i])
  }

  lemma Ipv4Chars(t: string)
    requires ParseIpv4(t).Some?
    ensures AllIpv6Chars(t)
  {
    Ipv4IsPrinted(t);
  }

  lemma ReadHexChars(t: string)
    requires ReadHex(t).Some?
    ensures t == TakeUntil(t, NotHex) + ReadHex(t).value.1 && AllIpv6Chars(TakeUntil(t, NotHex))
  {
    hide HexValue;
    var digits := TakeUntil(t, NotHex);
    assert forall i :: 0 <= i < |digits| ==> !NotHex(digits[i]);
  }

  lemma AfterColon(s: string, t: string)
    requires s != "" && s[0] == ':' && s[1..] == t
    ensures s == ":" + t && (AllIpv6Chars(t) ==> AllIpv6Chars(s))
  {
    assert AllIpv6Chars(t) ==> forall i :: 1 <= i < |s| ==> s[i] == t[i - 1];
  }

  /** A group is read from such characters only. */
  lemma ReadGroupChars(s: string, first: bool, room: nat) returns (used: string)
    ensures var r := ReadGroup(s, first, room);
            && (r.Group? ==> s == used + r.rest && AllIpv6Chars(used))
            && (r.Embedded? ==> AllIpv6Chars(s))
  {
    hide ParseIpv4, ReadHex, TakeUntil, AllIpv6Chars;
    used := "";
    var t := if first || s == "" then s else s[1..];
    match ReadGroup(s, first, room)
    case Stop =>
    case Embedded(_) =>
      Ipv4Chars(t);
      if !first {
        AfterColon(s, t);
      }
    case Group(_, rest) =>
      var digits := TakeUntil(t, NotHex);
      ReadHexChars(t);
      used := digits;
      if !first {
        used := ":" + digits;
        AfterColon(used, digits);
        AfterColon(s, t);
        assert ":" + (digits + rest) == ":" + digits + rest;
      }
  }

  lemma {:induction false} ReadGroupsChars(s: string, first: bool, room: nat) returns (used: string)
    ensures s == used + ReadGroups(s, first, room).rest && AllIpv6Chars(used)
    decreases room
  {
    hide ReadGroup;
    used := ReadGroupChars(s, first, room);
    match ReadGroup(s, first, room)
    case Stop => used := "";
    case Embedded(_) => used := s;
    case Group(_, rest) =>
      var more := ReadGroupsChars(rest, false, room - 1);
      used := used + more;
  }

  lemma Ipv6Chars(s: string)
    requires ParseIpv6(s).Some?
    ensures AllIpv6Chars(s)
  {
    hide ReadGroups;
    var head := ReadGroups(s, true, GROUP_COUNT);
    var used := ReadGroupsChars(s, true, GROUP_COUNT);
    if |head.values| == GROUP_COUNT {
      assert s == used;
    } else {
      var more := ReadGroupsChars(head.rest[2..], true, GROUP_COUNT - 1 - |head.values|);
      assert s == used + "::" + more;
    }
  }
}
