/** One endpoint text gives the SDK three things: the URL to connect to, the address to bind a spawned controller
    to, and the key of the startup lock. URL and bind address always agree. The lock key identifies the bind address
    of a local controller; for any other host it is the URL, and several URLs can mean the same address. `None` is the
    invalid-input error. */
module Endpoint {
  import opened Wrappers
  import opened Text
  import SocketAddr

  const HTTP := "http://"
  const HTTPS := "https://"

  predicate HasScheme(s: string) {
    StartsWith(s, HTTP) || StartsWith(s, HTTPS)
  }

  function SocketOf(host: string, port: string): Option<SocketAddr.Addr> {
    SocketAddr.Parse(host + ":" + port)
  }

  predicate EndsAuthority(c: char) {
    c == '/' || c == '?' || c == '#'
  }

  function NormalizeHttp(value: string): Option<string> {
    match SplitOnce(value, "://")
    case None => None
    case Some((scheme, rest)) =>
      if scheme != "http" && scheme != "https" then None
      else
        var authority := Trim(TakeUntil(rest, EndsAuthority));
        if authority == "" || ' ' in authority then None else Some(scheme + "://" + authority)
  }

  function EndpointUrl(endpoint: string): Option<string> {
    var t := Trim(endpoint);
    if HasScheme(t) then NormalizeHttp(t)
    else if t != "" && t[0] == ':' then UrlOf(SocketOf("127.0.0.1", t[1..]))
    else if AllDigits(t) then UrlOf(SocketOf("127.0.0.1", t))
    else NormalizeHttp(HTTP + t)
  }

  function UrlOf(x: Option<SocketAddr.Addr>): Option<string> {
    if x.None? then None else Some(HTTP + SocketAddr.Print(x.value))
  }

  function StripScheme(s: string): string {
    TrimStartMatches(TrimStartMatches(s, HTTP), HTTPS)
  }

  const LOCALHOST := "localhost:"

  /** The authority a bind address is read from, if the endpoint is not a port alone. */
  function BindAuthority(value: string): Option<string> {
    if HasScheme(value) then (match NormalizeHttp(value) case None => None case Some(url) => Some(StripScheme(url)))
    else Some(Trim(value))
  }

  function NormalizeBind(value: string): Option<SocketAddr.Addr> {
    match BindAuthority(value)
    case None => None
    case Some(a) =>
      match SocketAddr.Parse(a)
      case Some(x) => if x.port == 0 then None else Some(x)
      case None => if StartsWith(a, LOCALHOST) then SocketOf("127.0.0.1", a[|LOCALHOST|..]) else None
  }

  /** The address whose printed form `bind_addr` returns. */
  function BindAddr(endpoint: string): Option<SocketAddr.Addr> {
    var t := Trim(endpoint);
    if t != "" && t[0] == ':' then SocketOf("0.0.0.0", t[1..])
    else if AllDigits(t) then SocketOf("127.0.0.1", t)
    else NormalizeBind(t)
  }

  /** The spellings of a local host. The first that matches decides. */
  const LOCAL_PREFIXES := [LOCALHOST, "127.0.0.1:", "0.0.0.0:", "[::1]:", "[::]:"]

  function PortAfter(authority: string, prefixes: seq<string>): Option<nat> {
    if prefixes == [] then None
    else if StartsWith(authority, prefixes[0]) then ParseUnsigned(authority[|prefixes[0]|..], 65535)
    else PortAfter(authority, prefixes[1..])
  }

  function LocalPort(url: string): Option<nat> {
    PortAfter(StripScheme(url), LOCAL_PREFIXES)
  }

  const LOCAL_KEY := "local-controller:"

  /** The text a lock key is made from: the URL, or the endpoint itself when it has none. */
  function KeyText(endpoint: string): string {
    match EndpointUrl(endpoint) case Some(url) => url case None => Trim(endpoint)
  }

  function CoordinationKey(endpoint: string): string {
    match LocalPort(KeyText(endpoint))
    case Some(port) => LOCAL_KEY + Decimal(port)
    case None => KeyText(endpoint)
  }

  // ----- URLs

  /** None of the characters that begin a path, a query or a fragment. */
  predicate NoTail(s: string) {
    forall i :: 0 <= i < |s| ==> s[i] != '/' && s[i] != '?' && s[i] != '#'
  }

  /** An authority as normalisation leaves it. */
  predicate Clean(authority: string) {
    authority != "" && Trimmed(authority) && ' ' !in authority && NoTail(authority)
  }

  lemma SplitScheme(rest: string)
    ensures SplitOnce(HTTP + rest, "://") == Some(("http", rest))
    ensures SplitOnce(HTTPS + rest, "://") == Some(("https", rest))
  {
    SplitAt("http", rest);
    SplitAt("https", rest);
    assert HTTP + rest == "http" + "://" + rest && HTTPS + rest == "https" + "://" + rest;
  }

  lemma {:induction false} SplitAt(before: string, rest: string)
    requires ':' !in before
    ensures SplitOnce(before + "://" + rest, "://") == Some((before, rest))
  {
    var s := before + "://" + rest;
    if before == "" {
      assert s[3..] == rest;
    } else {
      assert s[0] == before[0] && before[0] in before;
      assert s[1..] == before[1..] + "://" + rest;
      SplitAt(before[1..], rest);
      assert [before[0]] + before[1..] == before;
    }
  }

  /** What URL normalisation returns: a scheme and a clean authority. */
  lemma NormalizedShape(value: string) returns (scheme: string, authority: string)
    requires NormalizeHttp(value).Some?
    ensures (scheme == HTTP || scheme == HTTPS) && Clean(authority) && NormalizeHttp(value) == Some(scheme + authority)
  {
    var (before, rest) := SplitOnce(value, "://").value;
    var taken := TakeUntil(rest, EndsAuthority);
    scheme, authority := before + "://", Trim(taken);
    TrimIsTrimmed(taken);
    TrimIsPart(taken);
    forall i | 0 <= i < |authority|
      ensures !EndsAuthority(authority[i])
    {
      assert authority[i] in taken;
    }
  }

  lemma TrimIsPart(s: string)
    ensures forall c :: c in Trim(s) ==> c in s
  {
    TrimStartIsPart(s);
    TrimEndIsPart(TrimStart(s));
  }

  lemma {:induction false} TrimStartIsPart(s: string)
    ensures forall c :: c in TrimStart(s) ==> c in s
  {
    if s != "" {
      TrimStartIsPart(s[1..]);
    }
  }

  lemma {:induction false} TrimEndIsPart(s: string)
    ensures forall c :: c in TrimEnd(s) ==> c in s
  {
    if s != "" {
      TrimEndIsPart(s[..|s| - 1]);
    }
  }

  lemma NormalizeClean(authority: string)
    requires Clean(authority)
    ensures NormalizeHttp(HTTP + authority) == Some(HTTP + authority)
    ensures NormalizeHttp(HTTPS + authority) == Some(HTTPS + authority)
  {
    SplitScheme(authority);
    TakeUntilAll(authority, EndsAuthority);
    TrimmedStays(authority);
    assert "http" + "://" + authority == HTTP + authority && "https" + "://" + authority == HTTPS + authority;
  }

  lemma StripClean(authority: string)
    requires Clean(authority)
    ensures StripScheme(HTTP + authority) == authority && StripScheme(HTTPS + authority) == authority
  {
    PrefixDiffers(authority, HTTP, 5);
    PrefixDiffers(authority, HTTPS, 6);
    PrefixDiffers(HTTPS + authority, HTTP, 4);
    StripOnce(HTTP, authority);
    StripOnce(HTTPS, authority);
  }

  lemma PrefixDiffers(s: string, prefix: string, i: nat)
    requires i < |prefix| && (i >= |s| || s[i] != prefix[i])
    ensures !StartsWith(s, prefix)
  {
  }

  lemma StripOnce(prefix: string, rest: string)
    requires prefix != "" && !StartsWith(rest, prefix)
    ensures TrimStartMatches(prefix + rest, prefix) == rest
    ensures TrimStartMatches(rest, prefix) == rest
  {
    assert (prefix + rest)[|prefix|..] == rest;
  }

  // ----- ports and keys

  predicate LocalHostText(host: string) {
    host == "127.0.0.1" || host == "0.0.0.0" || host == "[::1]" || host == "[::]"
  }

  /** Every accepted spelling of a bind address, seen as an authority: the text the URL carries after its scheme. */
  datatype Spelling =
    | Numeric(hostText: string, portText: string)
    | Local(portText: string)
  {
    function Authority(): string {
      match this
      case Numeric(h, p) => h + ":" + p
      case Local(p) => LOCALHOST + p
    }

    function Host(): SocketAddr.Host
      requires Valid()
    {
      match this
      case Numeric(h, _) => SocketAddr.ParseHost(h).value
      case Local(_) => SocketAddr.LOOPBACK
    }

    predicate Valid() {
      (Numeric? ==> SocketAddr.ParseHost(hostText).Some?) && SocketAddr.ParsePort(portText).Some?
    }

    function Port(): nat
      requires Valid()
    {
      SocketAddr.ParsePort(portText).value
    }

    /** Spelled as one of the local prefixes of the lock key. */
    predicate SpellsLocal() {
      Local? || LocalHostText(hostText)
    }
  }

  /** The bind address found in an authority comes from one of the two spellings. */
  lemma AuthoritySpelling(a: string) returns (s: Spelling)
    requires SocketAddr.Parse(a).Some? || (StartsWith(a, LOCALHOST) && SocketOf("127.0.0.1", a[|LOCALHOST|..]).Some?)
    ensures s.Valid() && a == s.Authority()
    ensures SocketAddr.Parse(a).Some? ==> SocketAddr.Parse(a).value == SocketAddr.Addr(s.Host(), s.Port())
    ensures SocketAddr.Parse(a).None? ==> SocketOf("127.0.0.1", a[|LOCALHOST|..]) == Some(SocketAddr.Addr(s.Host(), s.Port()))
  {
    hide SocketAddr.Parse, SocketAddr.ParseHost;
    if SocketAddr.Parse(a).Some? {
      var host, port := SocketAddr.ParseShape(a);
      s := Numeric(host, port);
    } else {
      SocketAddr.LocalHostsParse();
      SocketAddr.ParseHostAndPort("127.0.0.1", a[|LOCALHOST|..]);
      s := Local(a[|LOCALHOST|..]);
    }
  }

  lemma PortText(port: string)
    requires SocketAddr.ParsePort(port).Some?
    ensures ParseUnsigned(port, 65535) == SocketAddr.ParsePort(port)
  {
  }

  predicate AddressChar(c: char) {
    SocketAddr.ScopedChar(c) || c == '[' || c == ']' || 'a' <= c <= 'z'
  }

  predicate AllAddressChars(s: string) {
    forall i :: 0 <= i < |s| ==> AddressChar(s[i])
  }

  lemma AddressCharsJoin(x: string, y: string)
    requires AllAddressChars(x) && AllAddressChars(y)
    ensures AllAddressChars(x + y)
  {
  }

  lemma HostTextChars(t: string)
    requires SocketAddr.ParseHost(t).Some?
    ensures AllAddressChars(t) && t != "" && (IsDigit(t[0]) || t[0] == '[')
  {
    hide SocketAddr.ParseScoped;
    SocketAddr.HostTextShape(t);
    if SocketAddr.Bracketed(t) {
      SocketAddr.ScopedChars(t[1..|t| - 1]);
      assert t == "[" + t[1..|t| - 1] + "]";
    } else {
      SocketAddr.Ipv4TextChars(t);
    }
  }

  lemma AddressCharsAreClean(a: string)
    requires a != "" && AllAddressChars(a)
    ensures Clean(a)
  {
    assert forall c :: AddressChar(c) ==> !IsSpace(c) && !EndsAuthority(c);
  }

  lemma SpellingIsClean(s: Spelling)
    requires s.Valid()
    ensures Clean(s.Authority()) && AllAddressChars(s.Authority()) && !HasScheme(s.Authority())
    ensures s.Authority()[0] != ':' && !AllDigits(s.Authority())
  {
    hide SocketAddr.ParseHost;
    match s
    case Numeric(host, p) =>
      HostTextChars(host);
      AddressCharsJoin(host, ":");
      AddressCharsJoin(host + ":", p);
      assert s.Authority()[|host|] == ':' && s.Authority()[0] == host[0];
    case Local(p) =>
      AddressCharsJoin(LOCALHOST, p);
      assert s.Authority()[0] == 'l';
    AddressCharsAreClean(s.Authority());
    PrefixDiffers(s.Authority(), HTTP, 0);
    PrefixDiffers(s.Authority(), HTTPS, 0);
  }

  lemma HostPrefix(host: string, port: string, other: string)
    requires SocketAddr.ParseHost(host).Some? && SocketAddr.ParseHost(other).Some?
    ensures StartsWith(host + ":" + port, other + ":") <==> host == other
    ensures host == other ==> (host + ":" + port)[|other + ":"|..] == port
  {
    hide SocketAddr.ParseHost;
    var a, prefix := host + ":" + port, other + ":";
    if StartsWith(a, prefix) {
      assert a == other + ":" + a[|prefix|..];
      SocketAddr.HostTextsDiffer(host, other, port, a[|prefix|..]);
    }
  }

  /** Exactly the local spellings are local, and the port is read as the same number. */
  lemma SpellingLocalPort(s: Spelling)
    requires s.Valid()
    ensures PortAfter(s.Authority(), LOCAL_PREFIXES) == if s.SpellsLocal() then Some(s.Port()) else None
  {
    hide SocketAddr.ParseHost, PortAfter;
    var a := s.Authority();
    SocketAddr.LocalHostsParse();
    PortText(s.portText);
    LocalPrefixes(a);
    match s
    case Local(p) => assert a[|LOCALHOST|..] == p;
    case Numeric(host, p) =>
      HostTextChars(host);
      assert a[0] == host[0];
      PrefixDiffers(a, LOCALHOST, 0);
      HostPrefix(host, p, "127.0.0.1");
      HostPrefix(host, p, "0.0.0.0");
      HostPrefix(host, p, "[::1]");
      HostPrefix(host, p, "[::]");
      PrefixTexts();
  }

  lemma PrefixTexts()
    ensures "127.0.0.1" + ":" == "127.0.0.1:" && "0.0.0.0" + ":" == "0.0.0.0:" && "[::1]" + ":" == "[::1]:" && "[::]" + ":" == "[::]:"
  {
  }

  /** The list of prefixes, written out. */
  lemma LocalPrefixes(a: string)
    ensures PortAfter(a, LOCAL_PREFIXES)
            == if StartsWith(a, LOCALHOST) then ParseUnsigned(a[|LOCALHOST|..], 65535)
               else if StartsWith(a, "127.0.0.1:") then ParseUnsigned(a[10..], 65535)
               else if StartsWith(a, "0.0.0.0:") then ParseUnsigned(a[8..], 65535)
               else if StartsWith(a, "[::1]:") then ParseUnsigned(a[6..], 65535)
               else if StartsWith(a, "[::]:") then ParseUnsigned(a[5..], 65535)
               else None
  {
    var rest := ["127.0.0.1:", "0.0.0.0:", "[::1]:", "[::]:"];
    assert LOCAL_PREFIXES[1..] == rest;
    assert rest[1..] == ["0.0.0.0:", "[::1]:", "[::]:"];
    assert rest[1..][1..] == ["[::1]:", "[::]:"];
    assert rest[1..][1..][1..] == ["[::]:"];
    assert rest[1..][1..][1..][1..] == [];
    assert PortAfter(a, rest[1..][1..][1..][1..]) == None;
    assert PortAfter(a, rest[1..][1..][1..]) == if StartsWith(a, "[::]:") then ParseUnsigned(a[5..], 65535) else None;
    assert PortAfter(a, rest[1..][1..])
        == if StartsWith(a, "[::1]:") then ParseUnsigned(a[6..], 65535) else PortAfter(a, rest[1..][1..][1..]);
    assert PortAfter(a, rest[1..]) == if StartsWith(a, "0.0.0.0:") then ParseUnsigned(a[8..], 65535) else PortAfter(a, rest[1..][1..]);
    assert PortAfter(a, rest) == if StartsWith(a, "127.0.0.1:") then ParseUnsigned(a[10..], 65535) else PortAfter(a, rest[1..]);
  }

  predicate IsLocal(h: SocketAddr.Host) {
    h == SocketAddr.LOOPBACK || h == SocketAddr.ANY || h == SocketAddr.LOOPBACK6 || h == SocketAddr.ANY6
  }

  /** The bind address is local and, if it is an IPv6 address, the endpoint spells the host as it would be printed. */
  predicate BindsLocally(endpoint: string) {
    && BindAddr(endpoint).Some? && IsLocal(BindAddr(endpoint).value.host)
    && var host, authority := BindAddr(endpoint).value.host, BindAuthority(Trim(endpoint));
       host.V6? ==> authority.Some? && StartsWith(authority.value, SocketAddr.PrintHost(host) + ":")
  }

  /** A host is spelled locally exactly when it is local and, if it is an IPv6 host, spelled as it would be printed. */
  lemma SpellsLocalExactly(s: Spelling)
    requires s.Valid()
    ensures s.Host().Valid()
    ensures s.SpellsLocal() <==> IsLocal(s.Host()) && (s.Numeric? && s.Host().V6? ==> s.hostText == SocketAddr.PrintHost(s.Host()))
  {
    hide SocketAddr.ParseHost, SocketAddr.PrintHost, SocketAddr.ParsePort;
    SocketAddr.LocalHostsParse();
    SocketAddr.LoopbackText();
    SocketAddr.Loopback6Text();
    if s.Numeric? {
      SocketAddr.HostTextShape(s.hostText);
      if s.Host().V4? {
        SocketAddr.Ipv4IsAsPrinted(s.hostText);
      }
    }
  }

  lemma SocketOfPort(host: string, port: string)
    requires SocketAddr.ParseHost(host).Some? && SocketOf(host, port).Some?
    ensures SocketAddr.ParsePort(port).Some?
    ensures SocketOf(host, port) == Some(SocketAddr.Addr(SocketAddr.ParseHost(host).value, SocketAddr.ParsePort(port).value))
  {
    hide SocketAddr.ParseHost, SocketAddr.Parse;
    SocketAddr.ParseHostAndPort(host, port);
  }

  /** The URL of a port alone, with or without a colon. */
  lemma PortUrl(port: string) returns (s: Spelling)
    requires SocketAddr.ParsePort(port).Some?
    ensures s.Valid() && s.Host() == SocketAddr.LOOPBACK && s.Port() == SocketAddr.ParsePort(port).value
    ensures UrlOf(SocketOf("127.0.0.1", port)) == Some(HTTP + s.Authority())
  {
    hide SocketAddr.ParseHost, SocketAddr.Parse;
    var p := SocketAddr.ParsePort(port).value;
    SocketAddr.LocalHostsParse();
    SocketAddr.LoopbackText();
    SocketAddr.ParseHostAndPort("127.0.0.1", port);
    SocketAddr.NumberRoundTrip(p, 65535);
    s := Numeric("127.0.0.1", Decimal(p));
    assert SocketAddr.Print(SocketAddr.Addr(SocketAddr.LOOPBACK, p)) == s.Authority();
  }

  /** Whenever there is a bind address there is a URL, with the same port number and the same host; only for the form
      `:port` the URL says 127.0.0.1 where the bind address is 0.0.0.0. */
  lemma UrlAgreesWithBind(endpoint: string) returns (scheme: string, s: Spelling)
    requires BindAddr(endpoint).Some?
    ensures (scheme == HTTP || scheme == HTTPS) && s.Valid()
    ensures EndpointUrl(endpoint) == Some(scheme + s.Authority())
    ensures s.Port() == BindAddr(endpoint).value.port
    ensures if StartsWith(Trim(endpoint), ":") then s.Host() == SocketAddr.LOOPBACK && BindAddr(endpoint).value.host == SocketAddr.ANY
            else s.Host() == BindAddr(endpoint).value.host
    ensures s.SpellsLocal() <==> BindsLocally(endpoint)
  {
    hide SocketAddr.ParseHost, SocketAddr.Parse, SocketAddr.PrintHost;
    var t := Trim(endpoint);
    SocketAddr.LocalHostsParse();
    if t != "" && t[0] == ':' {
      SocketOfPort("0.0.0.0", t[1..]);
      PrefixDiffers(t, HTTP, 0);
      PrefixDiffers(t, HTTPS, 0);
      scheme := HTTP;
      s := PortUrl(t[1..]);
    } else if AllDigits(t) {
      SocketOfPort("127.0.0.1", t);
      PrefixDiffers(t, HTTP, 0);
      PrefixDiffers(t, HTTPS, 0);
      scheme := HTTP;
      s := PortUrl(t);
    } else {
      scheme, s := AuthorityAgrees(endpoint);
      AuthorityBindsLocally(endpoint, s);
    }
    SpellsLocalExactly(s);
  }

  lemma AuthorityBindsLocally(endpoint: string, s: Spelling)
    requires s.Valid() && BindAddr(endpoint) == Some(SocketAddr.Addr(s.Host(), s.Port()))
    requires BindAuthority(Trim(endpoint)) == Some(s.Authority())
    ensures s.SpellsLocal() <==> BindsLocally(endpoint)
  {
    hide BindAddr, BindAuthority, SocketAddr.ParseHost, SocketAddr.PrintHost;
    SpellsLocalExactly(s);
    if s.Numeric? && s.Host().V6? && IsLocal(s.Host()) {
      SocketAddr.HostRoundTrip(s.Host());
      HostPrefix(s.hostText, s.portText, SocketAddr.PrintHost(s.Host()));
    }
  }

  /** The case of an endpoint that is more than a port. */
  lemma AuthorityAgrees(endpoint: string) returns (scheme: string, s: Spelling)
    requires var t := Trim(endpoint); BindAddr(endpoint).Some? && !(t != "" && t[0] == ':') && !AllDigits(t)
    ensures (scheme == HTTP || scheme == HTTPS) && s.Valid()
    ensures EndpointUrl(endpoint) == Some(scheme + s.Authority())
    ensures BindAddr(endpoint).value == SocketAddr.Addr(s.Host(), s.Port())
    ensures BindAuthority(Trim(endpoint)) == Some(s.Authority())
    ensures scheme == HTTPS <==> StartsWith(Trim(endpoint), HTTPS)
  {
    hide SocketAddr.ParseHost, SocketAddr.Parse, SocketAddr.PrintHost;
    var t := Trim(endpoint);
    if HasScheme(t) {
      var authority: string;
      scheme, authority := NormalizedShape(t);
      SchemeStays(t, scheme, authority);
      StripClean(authority);
      s := AuthoritySpelling(authority);
    } else {
      scheme := HTTP;
      TrimIsTrimmed(endpoint);
      TrimmedStays(t);
      s := AuthoritySpelling(t);
      SpellingIsClean(s);
      NormalizeClean(t);
    }
  }

  /** Normalisation keeps the scheme. */
  lemma SchemeStays(t: string, scheme: string, authority: string)
    requires HasScheme(t) && NormalizeHttp(t) == Some(scheme + authority) && (scheme == HTTP || scheme == HTTPS)
    ensures scheme == HTTPS <==> StartsWith(t, HTTPS)
  {
    var (before, rest) := SplitOnce(t, "://").value;
    assert t == before + "://" + rest;
    assert t[4] == 's' <==> before == "https";
    assert (scheme + authority)[4] == 's' <==> scheme == HTTPS;
  }

  // ----- port zero

  /** The port texts that are read as zero. */
  predicate IsZero(port: string) {
    port != "" && forall i :: 0 <= i < |port| ==> port[i] == '0'
  }

  lemma {:induction false} ValueIsZero(s: string)
    requires AllDigits(s)
    ensures Value(s) == 0 <==> forall i :: 0 <= i < |s| ==> s[i] == '0'
  {
    if s != "" {
      var init := s[..|s| - 1];
      ValueIsZero(init);
      assert forall i :: 0 <= i < |init| ==> init[i] == s[i];
    }
  }

  lemma ZeroPort(port: string)
    ensures SocketAddr.ParsePort(port) == Some(0) <==> IsZero(port)
  {
    if AllDigits(port) {
      ValueIsZero(port);
    }
  }

  /** Where the SDK's own refusal of port zero has no effect: the endpoint is a port alone, with or without a colon, or
      names `localhost`, and the port is written with zeros only. */
  predicate PassesPortZero(endpoint: string) {
    var t := Trim(endpoint);
    if t != "" && t[0] == ':' then IsZero(t[1..])
    else if AllDigits(t) then IsZero(t)
    else BindAuthority(t).Some? && StartsWith(BindAuthority(t).value, LOCALHOST) && IsZero(BindAuthority(t).value[|LOCALHOST|..])
  }

  lemma LocalhostIsNoAddress(port: string)
    ensures SocketAddr.Parse(LOCALHOST + port).None?
  {
    hide SocketAddr.Parse, SocketAddr.ParseHost;
    var a := LOCALHOST + port;
    assert a[0] == 'l';
    if SocketAddr.Parse(a).Some? {
      var host, p := SocketAddr.ParseShape(a);
      HostTextChars(host);
    }
  }

  lemma SocketOfZero(host: string, port: string)
    requires SocketAddr.ParseHost(host).Some?
    ensures SocketOf(host, port).Some? && SocketOf(host, port).value.port == 0 <==> IsZero(port)
  {
    hide SocketAddr.Parse, SocketAddr.ParseHost;
    SocketAddr.ParseHostAndPort(host, port);
    ZeroPort(port);
  }

  /** The SDK resolves an endpoint to a bind address with port zero exactly in those cases. */
  lemma PortZeroExactly(endpoint: string)
    ensures BindAddr(endpoint).Some? && BindAddr(endpoint).value.port == 0 <==> PassesPortZero(endpoint)
  {
    hide SocketAddr.Parse, Trim, NormalizeHttp, StripScheme, IsZero, SocketAddr.ParseHost;
    var t := Trim(endpoint);
    SocketAddr.LocalHostsParse();
    if t != "" && t[0] == ':' {
      SocketOfZero("0.0.0.0", t[1..]);
    } else if AllDigits(t) {
      SocketOfZero("127.0.0.1", t);
    } else if BindAuthority(t).Some? && StartsWith(BindAuthority(t).value, LOCALHOST) {
      var port := BindAuthority(t).value[|LOCALHOST|..];
      assert BindAuthority(t).value == LOCALHOST + port;
      LocalhostIsNoAddress(port);
      SocketOfZero("127.0.0.1", port);
    }
  }

  // ----- keys and bind addresses

  lemma LocalPortOfUrl(scheme: string, s: Spelling)
    requires (scheme == HTTP || scheme == HTTPS) && s.Valid()
    ensures LocalPort(scheme + s.Authority()) == if s.SpellsLocal() then Some(s.Port()) else None
  {
    SpellingIsClean(s);
    StripClean(s.Authority());
    SpellingLocalPort(s);
  }

  /** A lock key has the local form exactly when the text it is made from names a local port. */
  lemma LocalKeyExactly(endpoint: string, port: nat)
    ensures CoordinationKey(endpoint) == LOCAL_KEY + Decimal(port) <==> LocalPort(KeyText(endpoint)) == Some(port)
  {
    var text := KeyText(endpoint);
    match LocalPort(text)
    case Some(p) =>
      if LOCAL_KEY + Decimal(p) == LOCAL_KEY + Decimal(port) {
        assert (LOCAL_KEY + Decimal(p))[|LOCAL_KEY|..] == Decimal(p);
        assert (LOCAL_KEY + Decimal(port))[|LOCAL_KEY|..] == Decimal(port);
        DecimalInjective(p, port);
      }
    case None =>
      TextIsNoLocalKey(endpoint, port);
  }

  /** A text that is not a URL is an endpoint that was refused; a local key would not have been. */
  lemma TextIsNoLocalKey(endpoint: string, port: nat)
    ensures KeyText(endpoint) != LOCAL_KEY + Decimal(port)
  {
    var t, k := Trim(endpoint), LOCAL_KEY + Decimal(port);
    assert k[0] == 'l';
    match EndpointUrl(endpoint)
    case Some(url) =>
      var start := UrlStart(endpoint);
      assert start <= url && url[0] == 'h';
    case None =>
      if t == k {
        PrefixDiffers(t, HTTP, 0);
        PrefixDiffers(t, HTTPS, 0);
        assert !AllDigits(t);
        AuthorityOfKey(port);
        NormalizeClean(k);
        assert false;
      }
  }

  lemma AuthorityOfKey(port: nat)
    ensures Clean(LOCAL_KEY + Decimal(port))
  {
    var k := LOCAL_KEY + Decimal(port);
    assert k[|k| - 1] == Decimal(port)[|Decimal(port)| - 1];
    assert forall c :: IsDigit(c) ==> !IsSpace(c) && !EndsAuthority(c);
    assert NoTail(LOCAL_KEY) && ' ' !in LOCAL_KEY;
  }

  lemma UrlStart(endpoint: string) returns (scheme: string)
    requires EndpointUrl(endpoint).Some?
    ensures (scheme == HTTP || scheme == HTTPS) && StartsWith(EndpointUrl(endpoint).value, scheme)
  {
    var t := Trim(endpoint);
    if HasScheme(t) {
      var authority: string;
      scheme, authority := NormalizedShape(t);
    } else if (t != "" && t[0] == ':') || AllDigits(t) {
      scheme := HTTP;
    } else {
      var authority: string;
      scheme, authority := NormalizedShape(HTTP + t);
    }
  }

  /** The lock key agrees with the bind address: it is the local key of a port exactly when the endpoint binds locally
      to that port. */
  lemma KeyAgreesWithBind(endpoint: string, port: nat)
    requires BindAddr(endpoint).Some?
    ensures CoordinationKey(endpoint) == LOCAL_KEY + Decimal(port)
            <==> BindsLocally(endpoint) && BindAddr(endpoint).value.port == port
  {
    hide BindAddr, EndpointUrl, LocalPort, CoordinationKey, BindsLocally;
    var scheme, s := UrlAgreesWithBind(endpoint);
    LocalPortOfUrl(scheme, s);
    LocalKeyExactly(endpoint, port);
  }

  /** For any two texts at all: lock keys are equal exactly when both name a local host and the same port, or neither
      does and they have the same URL (or, without a URL, are the same text). */
  lemma KeysEqualExactly(x: string, y: string)
    ensures CoordinationKey(x) == CoordinationKey(y) <==>
              LocalPort(KeyText(x)) == LocalPort(KeyText(y)) && (LocalPort(KeyText(x)).None? ==> KeyText(x) == KeyText(y))
  {
    if LocalPort(KeyText(x)).Some? {
      LocalKeyExactly(x, LocalPort(KeyText(x)).value);
      LocalKeyExactly(y, LocalPort(KeyText(x)).value);
    } else if LocalPort(KeyText(y)).Some? {
      LocalKeyExactly(x, LocalPort(KeyText(y)).value);
      LocalKeyExactly(y, LocalPort(KeyText(y)).value);
    }
  }

  lemma BindLocalPort(endpoint: string)
    requires BindAddr(endpoint).Some?
    ensures EndpointUrl(endpoint).Some? && KeyText(endpoint) == EndpointUrl(endpoint).value
    ensures LocalPort(KeyText(endpoint)) == if BindsLocally(endpoint) then Some(BindAddr(endpoint).value.port) else None
  {
    hide BindAddr, EndpointUrl, LocalPort, BindsLocally;
    var scheme, s := UrlAgreesWithBind(endpoint);
    LocalPortOfUrl(scheme, s);
  }

  /** A lock is shared with an endpoint that binds locally by exactly the endpoints that name a local host and its port,
      whether or not they have a bind address of their own; among those that do, by exactly those that bind locally to
      the same port, however they are spelled. */
  lemma {:induction false} SharedLockExactly(x: string, y: string)
    requires BindsLocally(x)
    ensures CoordinationKey(x) == CoordinationKey(y) <==> LocalPort(KeyText(y)) == Some(BindAddr(x).value.port)
    ensures BindAddr(y).Some? ==>
              (CoordinationKey(x) == CoordinationKey(y) <==> BindsLocally(y) && BindAddr(x).value.port == BindAddr(y).value.port)
  {
    hide BindAddr, EndpointUrl, LocalPort, CoordinationKey, KeyText;
    KeysEqualExactly(x, y);
    BindLocalPort(x);
    if BindAddr(y).Some? {
      BindLocalPort(y);
    }
  }

  /** The URL of an endpoint that does not bind locally, in terms of its text. */
  lemma RemoteUrl(endpoint: string)
    requires BindAddr(endpoint).Some? && !BindsLocally(endpoint)
    ensures BindAuthority(Trim(endpoint)).Some?
    ensures EndpointUrl(endpoint) ==
            Some((if StartsWith(Trim(endpoint), HTTPS) then HTTPS else HTTP) + BindAuthority(Trim(endpoint)).value)
  {
    hide SocketAddr.ParseHost, SocketAddr.Parse, SocketAddr.PrintHost, EndpointUrl, BindAuthority;
    var t := Trim(endpoint);
    SocketAddr.LocalHostsParse();
    if t != "" && t[0] == ':' {
      SocketOfPort("0.0.0.0", t[1..]);
    } else if AllDigits(t) {
      SocketOfPort("127.0.0.1", t);
    } else {
      var scheme, s := AuthorityAgrees(endpoint);
    }
  }

  /** Endpoints that bind elsewhere share a lock exactly when they have the same scheme and the same authority, letter for
      letter. */
  lemma RemoteLockExactly(x: string, y: string)
    requires BindAddr(x).Some? && BindAddr(y).Some? && !BindsLocally(x) && !BindsLocally(y)
    ensures CoordinationKey(x) == CoordinationKey(y) <==>
              && (StartsWith(Trim(x), HTTPS) <==> StartsWith(Trim(y), HTTPS))
              && BindAuthority(Trim(x)) == BindAuthority(Trim(y))
  {
    hide BindAddr, EndpointUrl, LocalPort, CoordinationKey, KeyText, BindsLocally, BindAuthority, Trim;
    KeysEqualExactly(x, y);
    BindLocalPort(x);
    BindLocalPort(y);
    RemoteUrl(x);
    RemoteUrl(y);
    UrlsDiffer(BindAuthority(Trim(x)).value, BindAuthority(Trim(y)).value);
  }

  lemma UrlsDiffer(a: string, b: string)
    ensures HTTP + a != HTTPS + b && HTTPS + a != HTTP + b
    ensures HTTP + a == HTTP + b <==> a == b
    ensures HTTPS + a == HTTPS + b <==> a == b
  {
    assert (HTTP + a)[4] != (HTTPS + b)[4] && (HTTPS + a)[4] != (HTTP + b)[4];
    assert (HTTP + a)[|HTTP|..] == a && (HTTP + b)[|HTTP|..] == b;
    assert (HTTPS + a)[|HTTPS|..] == a && (HTTPS + b)[|HTTPS|..] == b;
  }

  /** A host and a port, and the same with a scheme, as endpoints. */
  lemma NumericEndpoint(host: string, port: string, scheme: string)
    requires SocketAddr.ParseHost(host).Some? && SocketAddr.ParsePort(port).Some? && SocketAddr.ParsePort(port) != Some(0)
    requires scheme == "" || scheme == HTTP || scheme == HTTPS
    ensures var endpoint := scheme + (host + ":" + port);
            && BindAddr(endpoint) == Some(SocketAddr.Addr(SocketAddr.ParseHost(host).value, SocketAddr.ParsePort(port).value))
            && BindAuthority(Trim(endpoint)) == Some(host + ":" + port)
            && (StartsWith(Trim(endpoint), HTTPS) <==> scheme == HTTPS)
  {
    hide SocketAddr.ParseHost, SocketAddr.ParsePort, SocketAddr.Parse, NormalizeHttp, StripScheme, Trim;
    var s := Numeric(host, port);
    var a, endpoint := s.Authority(), scheme + s.Authority();
    SpellingIsClean(s);
    SocketAddr.ParseHostAndPort(host, port);
    assert endpoint[|endpoint| - 1] == a[|a| - 1];
    if scheme == "" {
      assert endpoint == a;
    } else {
      assert endpoint[0] == 'h' && !IsDigit('h');
      assert endpoint[4] == 's' <==> scheme == HTTPS;
      StripClean(a);
    }
    TrimmedStays(endpoint);
    NormalizeClean(a);
  }

  lemma NumericBindsLocally(host: string, port: string, scheme: string)
    requires SocketAddr.ParseHost(host).Some? && SocketAddr.ParsePort(port).Some? && SocketAddr.ParsePort(port) != Some(0)
    requires scheme == "" || scheme == HTTP || scheme == HTTPS
    ensures BindsLocally(scheme + (host + ":" + port)) <==> LocalHostText(host)
  {
    hide BindAddr, BindAuthority, BindsLocally, SocketAddr.ParseHost, SocketAddr.ParsePort, Trim;
    NumericEndpoint(host, port, scheme);
    AuthorityBindsLocally(scheme + (host + ":" + port), Numeric(host, port));
  }

  /** So any other address has several keys: with either scheme, and with every spelling of its host and its port number,
      `10.0.0.5:80`, `https://10.0.0.5:80` and `10.0.0.5:0080` among them, and `[::2]:80` and `[0::2]:80`. */
  lemma RemoteSpellingsDiffer(host: string, port: string, otherHost: string, otherPort: string)
    requires SocketAddr.ParseHost(host).Some? && SocketAddr.ParsePort(port).Some? && SocketAddr.ParsePort(port) != Some(0)
    requires SocketAddr.ParseHost(otherHost) == SocketAddr.ParseHost(host) && SocketAddr.ParsePort(otherPort) == SocketAddr.ParsePort(port)
    requires !LocalHostText(host) && !LocalHostText(otherHost) && (otherHost != host || otherPort != port)
    ensures var x, y, z := host + ":" + port, HTTPS + (host + ":" + port), otherHost + ":" + otherPort;
            && BindAddr(x) == BindAddr(y) == BindAddr(z)
               == Some(SocketAddr.Addr(SocketAddr.ParseHost(host).value, SocketAddr.ParsePort(port).value))
            && CoordinationKey(x) != CoordinationKey(y) && CoordinationKey(x) != CoordinationKey(z)
  {
    hide BindAddr, BindAuthority, BindsLocally, CoordinationKey, SocketAddr.ParseHost, SocketAddr.ParsePort, Trim;
    var a, b := host + ":" + port, otherHost + ":" + otherPort;
    assert "" + a == a && "" + b == b;
    NumericEndpoint(host, port, "");
    NumericEndpoint(host, port, HTTPS);
    NumericEndpoint(otherHost, otherPort, "");
    NumericBindsLocally(host, port, "");
    NumericBindsLocally(host, port, HTTPS);
    NumericBindsLocally(otherHost, otherPort, "");
    RemoteLockExactly(a, HTTPS + a);
    RemoteLockExactly(a, b);
    if a == b {
      SocketAddr.HostTextsDiffer(host, otherHost, port, otherPort);
    }
  }

  /** Every URL is a scheme and a clean authority. */
  lemma UrlShape(endpoint: string) returns (scheme: string, authority: string)
    requires EndpointUrl(endpoint).Some?
    ensures (scheme == HTTP || scheme == HTTPS) && Clean(authority) && EndpointUrl(endpoint) == Some(scheme + authority)
  {
    var t := Trim(endpoint);
    if HasScheme(t) {
      scheme, authority := NormalizedShape(t);
    } else if (t != "" && t[0] == ':') || AllDigits(t) {
      SocketAddr.LocalHostsParse();
      var port := if t != "" && t[0] == ':' then t[1..] else t;
      SocketOfPort("127.0.0.1", port);
      var s := PortUrl(port);
      SpellingIsClean(s);
      scheme, authority := HTTP, s.Authority();
    } else {
      scheme, authority := NormalizedShape(HTTP + t);
    }
  }

  lemma CleanUrlStays(scheme: string, authority: string)
    requires (scheme == HTTP || scheme == HTTPS) && Clean(authority)
    ensures EndpointUrl(scheme + authority) == Some(scheme + authority)
  {
    hide NormalizeHttp;
    var url := scheme + authority;
    assert url[0] == 'h' && url[|url| - 1] == authority[|authority| - 1];
    TrimmedStays(url);
    NormalizeClean(authority);
  }

  /** Normalising a URL again changes nothing. */
  lemma UrlIsStable(endpoint: string)
    requires EndpointUrl(endpoint).Some?
    ensures EndpointUrl(EndpointUrl(endpoint).value) == EndpointUrl(endpoint)
  {
    hide EndpointUrl;
    var scheme, authority := UrlShape(endpoint);
    CleanUrlStays(scheme, authority);
  }
}
