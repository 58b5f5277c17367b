/** Socket addresses in text form, as the Rust standard library parses and prints them. */
module SocketAddr {
  import opened Wrappers
  import opened Text
  import opened Ipv4Text
  import opened Ipv6Text

  /** `scope` is the scope identifier of an IPv6 address, zero if there is none. */
  datatype Host = V4(v4: Ipv4) | V6(v6: Ipv6, scope: nat) {
    ghost predicate Valid() {
      match this
      case V4(h) => h.Valid()
      case V6(g, s) => AllGroups(g) && s <= 0xFFFF_FFFF
    }
  }

  datatype Addr = Addr(host: Host, port: nat) {
    ghost predicate Valid() {
      host.Valid() && port < 65536
    }
  }

  const LOOPBACK := V4(Ipv4(127, 0, 0, 1))
  const ANY := V4(Ipv4(0, 0, 0, 0))
  const LOOPBACK6 := V6([0, 0, 0, 0, 0, 0, 0, 1], 0)
  const ANY6 := V6([0, 0, 0, 0, 0, 0, 0, 0], 0)

  function PrintScope(scope: nat): string {
    if scope == 0 then "" else "%" + Decimal(scope)
  }

  function PrintHost(h: Host): string {
    match h
    case V4(v4) => PrintIpv4(v4)
    case V6(g, scope) => "[" + (PrintIpv6(g) + PrintScope(scope)) + "]"
  }

  function Print(x: Addr): string {
    PrintHost(x.host) + ":" + Decimal(x.port)
  }

  /** Any number of digits, leading zeros allowed, up to a greatest value. */
  function ParseNumber(s: string, max: nat): Option<nat> {
    if s == "" || !AllDigits(s) || Value(s) > max then None else Some(Value(s))
  }

  function ParsePort(s: string): Option<nat> {
    ParseNumber(s, 65535)
  }

  /** A port or a scope identifier is read from its decimal digits, after any zeros, and from nothing else. */
  lemma NumberExactly(s: string, max: nat, n: nat)
    ensures ParseNumber(s, max) == Some(n) <==> n <= max && exists k :: s == Padding(k) + Decimal(n)
  {
    hide Decimal, Value;
    if ParseNumber(s, max) == Some(n) {
      var k := DigitsArePadded(s);
    }
    if n <= max {
      forall k | s == Padding(k) + Decimal(n)
        ensures ParseNumber(s, max) == Some(n)
      {
        PaddedValue(k, n);
      }
    }
  }

  /** What stands between the brackets: an address, and a scope identifier if there is one. */
  function ParseScoped(s: string): Option<Host> {
    match SplitOnce(s, "%")
    case None => (match ParseIpv6(s) case None => None case Some(g) => Some(V6(g, 0)))
    case Some((address, scope)) =>
      var g, n := ParseIpv6(address), ParseNumber(scope, 0xFFFF_FFFF);
      if g.None? || n.None? then None else Some(V6(g.value, n.value))
  }

  predicate Bracketed(s: string) {
    |s| >= 2 && s[0] == '[' && s[|s| - 1] == ']'
  }

  function ParseHost(s: string): Option<Host> {
    if Bracketed(s) then ParseScoped(s[1..|s| - 1])
    else match ParseIpv4(s) case None => None case Some(h) => Some(V4(h))
  }

  /** The texts of the host, with its brackets if it has any, and of the port. */
  function SplitAddr(s: string): Option<(string, string)> {
    if s != "" && s[0] == '[' then
      match SplitOnce(s, "]")
      case None => None
      case Some((before, after)) => if after != "" && after[0] == ':' then Some((before + "]", after[1..])) else None
    else SplitOnce(s, ":")
  }

  function Parse(s: string): Option<Addr> {
    match SplitAddr(s)
    case None => None
    case Some((host, port)) =>
      var h, p := ParseHost(host), ParsePort(port);
      if h.None? || p.None? then None else Some(Addr(h.value, p.value))
  }

  // ----- host and port

  lemma HostTextShape(t: string)
    requires ParseHost(t).Some?
    ensures t != ""
    ensures t[0] == '[' ==> |t| >= 2 && t[|t| - 1] == ']' && ']' !in t[..|t| - 1]
    ensures t[0] != '[' ==> ':' !in t && IsDigit(t[0])
    ensures ParseHost(t).value.Valid()
  {
    if Bracketed(t) {
      var inner := t[1..|t| - 1];
      ScopedChars(inner);
      assert t[..|t| - 1] == "[" + inner;
    } else {
      Ipv4IsPrinted(t);
      Ipv4HasNoColon(ParseIpv4(t).value);
      assert t[0] == Decimal(ParseIpv4(t).value.a)[0];
    }
  }

  predicate ScopedChar(c: char) {
    Ipv6Char(c) || c == '%'
  }

  lemma ScopedChars(s: string)
    requires ParseScoped(s).Some?
    ensures forall i :: 0 <= i < |s| ==> ScopedChar(s[i])
    ensures ']' !in s && ParseScoped(s).value.Valid()
  {
    hide ParseIpv6, AllGroups;
    match SplitOnce(s, "%")
    case None =>
      Ipv6Chars(s);
      ParsedGroups(s);
    case Some((address, scope)) =>
      Ipv6Chars(address);
      ParsedGroups(address);
      assert s == address + "%" + scope;
      assert forall i :: 0 <= i < |scope| ==> IsDigit(scope[i]);
  }

  lemma SplitHostAndPort(t: string, port: string)
    requires ParseHost(t).Some?
    ensures SplitAddr(t + ":" + port) == Some((t, port))
  {
    hide ParseHost;
    HostTextShape(t);
    var s := t + ":" + port;
    assert s[0] == t[0];
    if t[0] == '[' {
      var before := t[..|t| - 1];
      assert t == before + "]" && s == before + "]" + (":" + port);
      SplitAtChar(before, ']', ":" + port);
      assert (":" + port)[1..] == port;
    } else {
      SplitAtChar(t, ':', port);
    }
  }

  lemma ParseHostAndPort(t: string, port: string)
    requires ParseHost(t).Some?
    ensures Parse(t + ":" + port) == match ParsePort(port) case None => None case Some(p) => Some(Addr(ParseHost(t).value, p))
  {
    hide ParseHost, SplitAddr;
    SplitHostAndPort(t, port);
  }

  /** A text that parses is the text of a host, a colon and some spelling of the port. */
  lemma ParseShape(s: string) returns (host: string, port: string)
    requires Parse(s).Some?
    ensures Parse(s).value.Valid() && s == host + ":" + port
    ensures ParseHost(host) == Some(Parse(s).value.host) && ParsePort(port) == Some(Parse(s).value.port)
  {
    hide ParseHost;
    var parts := SplitAddr(s).value;
    host, port := parts.0, parts.1;
    HostTextShape(host);
    if s[0] == '[' {
      var q := SplitOnce(s, "]").value;
      assert q.1 == ":" + port;
    }
  }

  lemma HostTextsDiffer(t: string, u: string, x: string, y: string)
    requires ParseHost(t).Some? && ParseHost(u).Some? && t + ":" + x == u + ":" + y
    ensures t == u && x == y
  {
    hide ParseHost, SplitAddr;
    SplitHostAndPort(t, x);
    SplitHostAndPort(u, y);
  }

  // ----- printing and parsing

  lemma NumberRoundTrip(n: nat, max: nat)
    requires n <= max
    ensures ParseNumber(Decimal(n), max) == Some(n)
  {
    ValueOfDecimal(n);
  }

  lemma ScopedRoundTrip(g: Ipv6, scope: nat)
    requires V6(g, scope).Valid()
    ensures ParseScoped(PrintIpv6(g) + PrintScope(scope)) == Some(V6(g, scope))
  {
    hide ParseIpv6, PrintIpv6, Decimal, ParseNumber, SplitOnce;
    var text := PrintIpv6(g);
    Ipv6RoundTrip(g);
    Ipv6Chars(text);
    assert '%' !in text;
    if scope == 0 {
      assert text + PrintScope(scope) == text;
      NoSplit(text, '%');
    } else {
      NumberRoundTrip(scope, 0xFFFF_FFFF);
      assert text + PrintScope(scope) == text + "%" + Decimal(scope);
      SplitAtChar(text, '%', Decimal(scope));
    }
  }

  lemma NoSplit(s: string, c: char)
    requires c !in s
    ensures SplitOnce(s, [c]).None?
  {
    if SplitOnce(s, [c]).Some? {
      SplitFinds(s, c);
    }
  }

  lemma SplitFinds(s: string, c: char)
    requires SplitOnce(s, [c]).Some?
    ensures c in s
  {
    assert s[|SplitOnce(s, [c]).value.0|] == c;
  }

  /** Parsing the text of a host as printed gives the host back. */
  lemma HostRoundTrip(h: Host)
    requires h.Valid()
    ensures ParseHost(PrintHost(h)) == Some(h)
  {
    hide ParseScoped, PrintIpv6, PrintScope, PrintIpv4, ParseIpv4;
    match h
    case V4(v4) =>
      Ipv4RoundTrip(v4);
      Ipv4StartsWithDigit(v4);
    case V6(g, scope) =>
      var inner := PrintIpv6(g) + PrintScope(scope);
      ScopedRoundTrip(g, scope);
      assert ("[" + inner + "]")[1..|inner| + 1] == inner;
  }

  lemma Ipv4StartsWithDigit(h: Ipv4)
    ensures IsDigit(PrintIpv4(h)[0])
  {
  }

  /** Parsing what was printed gives the address back. */
  lemma RoundTrip(x: Addr)
    requires x.Valid()
    ensures Parse(Print(x)) == Some(x)
  {
    hide PrintHost, ParseHost, Parse, Decimal;
    HostRoundTrip(x.host);
    NumberRoundTrip(x.port, 65535);
    ParseHostAndPort(PrintHost(x.host), Decimal(x.port));
  }

  // ----- the four local hosts

  lemma LoopbackText()
    ensures PrintHost(LOOPBACK) == "127.0.0.1" && PrintHost(ANY) == "0.0.0.0"
  {
    assert Decimal(127) == "127" by {
      assert Decimal(12) == Decimal(1) + ['2'];
    }
  }

  lemma Loopback6Text()
    ensures PrintHost(LOOPBACK6) == "[::1]" && PrintHost(ANY6) == "[::]"
  {
    hide PrintIpv6;
    ZerosOfAny();
    ZerosOfLoopback();
  }

  /** Zeros up to the last group or all through. */
  lemma {:induction false} LeadingZeros(g: Ipv6, i: nat, k: nat)
    requires 1 <= i <= k <= |g| <= k + 1 && (forall j :: 0 <= j < k ==> g[j] == 0) && (k < |g| ==> g[k] != 0)
    ensures LongestZeros(g, i, Span(0, i), Span(0, i)) == Span(0, k)
    decreases k - i
  {
    if i < k {
      LeadingZeros(g, i + 1, k);
    } else if k < |g| {
      assert LongestZeros(g, k + 1, Span(0, 0), Span(0, k)) == Span(0, k);
    }
  }

  lemma ZerosOfAny()
    ensures PrintIpv6(ANY6.v6) == "::"
  {
    hide LongestZeros;
    LeadingZeros(ANY6.v6, 1, 8);
    FirstZero(ANY6.v6);
    assert PrintGroups([]) == "";
  }

  lemma ZerosOfLoopback()
    ensures PrintIpv6(LOOPBACK6.v6) == "::1"
  {
    hide LongestZeros;
    var g := LOOPBACK6.v6;
    LeadingZeros(g, 1, 7);
    FirstZero(g);
    assert g[7..] == [1] && Hex(1) == "1";
    assert Texts([1]) == ["1"] && Run(["1"]) == "1" && PrintGroups([]) == "";
  }

  lemma FirstZero(g: Ipv6)
    requires g[0] == 0
    ensures LongestZeros(g, 0, Span(0, 0), Span(0, 0)) == LongestZeros(g, 1, Span(0, 1), Span(0, 1))
  {
  }

  lemma LocalHostsParse()
    ensures ParseHost("127.0.0.1") == Some(LOOPBACK) && ParseHost("0.0.0.0") == Some(ANY)
    ensures ParseHost("[::1]") == Some(LOOPBACK6) && ParseHost("[::]") == Some(ANY6)
  {
    hide ParseHost, PrintHost;
    LoopbackText();
    Loopback6Text();
    HostRoundTrip(LOOPBACK);
    HostRoundTrip(ANY);
    HostRoundTrip(LOOPBACK6);
    HostRoundTrip(ANY6);
  }

  lemma Ipv4TextChars(t: string)
    requires ParseHost(t).Some? && !Bracketed(t)
    ensures forall i :: 0 <= i < |t| ==> ScopedChar(t[i])
  {
    Ipv4Chars(t);
  }

  lemma Ipv4IsAsPrinted(t: string)
    requires ParseHost(t).Some? && ParseHost(t).value.V4?
    ensures t == PrintHost(ParseHost(t).value)
  {
    Ipv4IsPrinted(t);
  }
}
