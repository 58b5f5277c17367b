/** The spellings of an endpoint: what surrounds it, what follows its authority, and ports alone. */
module EndpointForms {
  import opened Wrappers
  import opened Text
  import opened Endpoint
  import SocketAddr

  /** A path, a query or a fragment, or nothing. */
  predicate IsTail(s: string) {
    s == "" || s[0] == '/' || s[0] == '?' || s[0] == '#'
  }

  /** White space around the whole text only shortens the tail. */
  lemma SurroundingSpace(before: string, head: string, tail: string, after: string) returns (kept: string)
    requires Blank(before) && Blank(after) && IsTail(tail)
    requires head != "" && !IsSpace(head[0])
    ensures IsTail(kept) && (kept == "" <==> tail == "")
    ensures Trim(before + (head + tail) + after) == if tail == "" then TrimEnd(head) else head + kept
    ensures kept <= tail
  {
    var whole := head + tail;
    var blank := EndTakenOff(whole);
    var s := TrimEnd(whole);
    TrimEndKeepsFirst(whole);
    assert Trimmed(s) && whole == s + blank;
    assert before + whole + after == before + s + (blank + after);
    TrimExactly(before, s, blank + after);
    kept := "";
    if tail == "" {
      assert whole == head;
    } else {
      assert whole[|head|] == tail[0];
      assert |s| > |head|;
      kept := s[|head|..];
      assert s == whole[..|s|];
      assert s == head + kept && kept == tail[..|kept|];
    }
  }

  /** URL normalisation: the authority is what stands before the tail, trimmed; it may not be empty or hold a space. */
  lemma NormalizeHttpExactly(scheme: string, x: string, tail: string)
    requires scheme == "http://" || scheme == "https://"
    requires NoTail(x) && IsTail(tail)
    ensures NormalizeHttp(scheme + (x + tail)) == if Trim(x) == "" || ' ' in Trim(x) then None else Some(scheme + Trim(x))
  {
    SplitScheme(x + tail);
    TakeUntilStops(x, tail, EndsAuthority);
    assert "http" + "://" + Trim(x) == HTTP + Trim(x) && "https" + "://" + Trim(x) == HTTPS + Trim(x);
  }

  lemma TrimOfTrimEnd(x: string)
    ensures Trim(TrimEnd(x)) == Trim(x)
  {
    var blank := EndTakenOff(x);
    var before, after := TrimTakesOff(TrimEnd(x));
    var s := Trim(TrimEnd(x));
    TrimIsTrimmed(TrimEnd(x));
    assert x == before + s + (after + blank);
    TrimExactly(before, s, after + blank);
  }

  /** The three results of an endpoint are those of another one. */
  predicate SameResults(x: string, y: string) {
    EndpointUrl(x) == EndpointUrl(y) && BindAddr(x) == BindAddr(y) && CoordinationKey(x) == CoordinationKey(y)
  }

  /** For every text, accepted or not, white space around it makes no difference, to the lock key neither. */
  lemma SpaceAroundDoesNotMatter(before: string, endpoint: string, after: string)
    requires Blank(before) && Blank(after)
    ensures SameResults(before + endpoint + after, endpoint)
    ensures EndpointUrl(endpoint).None? && LocalPort(Trim(endpoint)).None? ==> CoordinationKey(before + endpoint + after) == Trim(endpoint)
  {
    hide LocalPort, NormalizeHttp, NormalizeBind, SocketAddr.Parse;
    var b, a := TrimTakesOff(endpoint);
    var t := Trim(endpoint);
    TrimIsTrimmed(endpoint);
    assert before + endpoint + after == (before + b) + t + (a + after);
    TrimExactly(before + b, t, a + after);
  }

  /** With a scheme, all three come from the normalised URL. */
  lemma UrlDecides(x: string, y: string)
    requires HasScheme(Trim(x)) && HasScheme(Trim(y)) && NormalizeHttp(Trim(x)) == NormalizeHttp(Trim(y))
    ensures EndpointUrl(x) == NormalizeHttp(Trim(x))
    ensures EndpointUrl(x).None? ==> BindAddr(x).None?
    ensures EndpointUrl(x).Some? ==> SameResults(x, y)
  {
    hide NormalizeHttp, Trim, SocketAddr.Parse;
    assert Trim(x)[0] == 'h' && Trim(y)[0] == 'h' && !IsDigit('h');
  }

  lemma SchemeText(before: string, scheme: string, x: string, tail: string, after: string)
    requires Blank(before) && Blank(after) && NoTail(x) && IsTail(tail)
    requires scheme == "http://" || scheme == "https://"
    ensures var t := Trim(before + (scheme + x + tail) + after);
            && HasScheme(t)
            && NormalizeHttp(t) == if Trim(x) == "" || ' ' in Trim(x) then None else Some(scheme + Trim(x))
  {
    hide Trim, TrimEnd, NormalizeHttp;
    var kept := SurroundingSpace(before, scheme + x, tail, after);
    if tail == "" {
      TrimEndStopsAt(scheme, x);
      TrimOfTrimEnd(x);
      var blank := EndTakenOff(x);
      assert NoTail(TrimEnd(x) + blank);
      assert NoTail(TrimEnd(x)) by {
        assert forall i :: 0 <= i < |TrimEnd(x)| ==> TrimEnd(x)[i] == x[i];
      }
      NormalizeHttpExactly(scheme, TrimEnd(x), "");
      assert scheme + (TrimEnd(x) + "") == scheme + TrimEnd(x);
    } else {
      NormalizeHttpExactly(scheme, x, kept);
      assert scheme + (x + kept) == scheme + x + kept;
    }
  }

  /** Every text with a scheme: white space around it and around its authority, and a tail, make no difference. It is
      accepted exactly when an authority is left and holds no space. */
  lemma SchemeForms(before: string, scheme: string, x: string, tail: string, after: string)
    requires Blank(before) && Blank(after) && NoTail(x) && IsTail(tail)
    requires scheme == "http://" || scheme == "https://"
    ensures var endpoint, authority := before + (scheme + x + tail) + after, Trim(x);
            if authority == "" || ' ' in authority then EndpointUrl(endpoint).None? && BindAddr(endpoint).None?
            else EndpointUrl(endpoint) == Some(scheme + authority) && SameResults(endpoint, scheme + authority)
  {
    hide Trim, NormalizeHttp, EndpointUrl, BindAddr, SameResults;
    var endpoint, plain := before + (scheme + x + tail) + after, scheme + Trim(x);
    SchemeText(before, scheme, x, tail, after);
    UrlDecides(endpoint, endpoint);
    if Trim(x) != "" && ' ' !in Trim(x) {
      assert NoTail(Trim(x)) by {
        var x0, x1 := TrimTakesOff(x);
        assert forall i :: 0 <= i < |Trim(x)| ==> Trim(x)[i] == x[|x0| + i];
      }
      TrimIsTrimmed(x);
      TrimmedStays(Trim(x));
      SchemeText("", scheme, Trim(x), "", "");
      assert "" + (scheme + Trim(x) + "") + "" == plain;
      UrlDecides(endpoint, plain);
    }
  }

  // ----- without a scheme

  /** An endpoint that is more than a port. */
  predicate BeyondPort(t: string) {
    t != "" && t[0] != ':' && !AllDigits(t)
  }

  /** Its bind address is never read across a tail. */
  lemma TailHidesBind(endpoint: string)
    requires !NoTail(Trim(endpoint)) && !HasScheme(Trim(endpoint))
    ensures BindAddr(endpoint).None?
  {
    hide Trim, SocketAddr.Parse, SocketAddr.ParseHost, NormalizeBind;
    var t := Trim(endpoint);
    SocketAddr.LocalHostsParse();
    var i :| 0 <= i < |t| && (t[i] == '/' || t[i] == '?' || t[i] == '#');
    assert !IsDigit(t[i]) && !AllDigits(t);
    assert t[0] == ':' ==> t[1..][i - 1] == t[i] && !AllDigits(t[1..]);
    if BindAddr(endpoint).Some? {
      if t[0] == ':' {
        SocketOfPort("0.0.0.0", t[1..]);
      } else {
        var _, s := AuthorityAgrees(endpoint);
        TrimIsTrimmed(endpoint);
        TrimmedStays(t);
        SpellingIsClean(s);
      }
    }
  }

  /** Without a scheme, an authority that is more than a port is taken as if `http://` stood before it: URL and lock key are
      those of the authority. A bind address is read only if there is no tail. */
  lemma SchemelessForms(before: string, authority: string, tail: string, after: string)
    requires Blank(before) && Blank(after) && IsTail(tail)
    requires Clean(authority) && BeyondPort(authority) && !HasScheme(authority + tail)
    ensures var endpoint := before + (authority + tail) + after;
            && EndpointUrl(endpoint) == EndpointUrl("http://" + authority) == Some("http://" + authority)
            && CoordinationKey(endpoint) == CoordinationKey("http://" + authority)
            && BindAddr(endpoint) == if tail == "" then BindAddr("http://" + authority) else None
  {
    hide Trim, TrimEnd, NormalizeHttp, EndpointUrl, BindAddr;
    var endpoint := before + (authority + tail) + after;
    SchemeForms("", HTTP, authority, "", "");
    TrimmedStays(authority);
    assert "" + (HTTP + authority + "") + "" == HTTP + authority;
    SchemelessUrl(before, authority, tail, after);
    if tail == "" {
      SchemelessBind(before, authority, after);
      assert authority + tail == authority;
    }
  }

  lemma SchemelessUrl(before: string, authority: string, tail: string, after: string)
    requires Blank(before) && Blank(after) && IsTail(tail)
    requires Clean(authority) && BeyondPort(authority) && !HasScheme(authority + tail)
    ensures var endpoint := before + (authority + tail) + after;
            EndpointUrl(endpoint) == Some(HTTP + authority) && (tail != "" ==> BindAddr(endpoint).None?)
  {
    hide Trim, NormalizeHttp, BindAddr;
    var endpoint := before + (authority + tail) + after;
    var kept := SurroundingSpace(before, authority, tail, after);
    TrimmedStays(authority);
    var t := Trim(endpoint);
    assert t == authority + kept;
    NormalizeHttpExactly(HTTP, authority, kept);
    if tail != "" {
      assert t[|authority|] == kept[0];
      TailHidesBind(endpoint);
    }
  }

  lemma SchemelessBind(before: string, authority: string, after: string)
    requires Blank(before) && Blank(after)
    requires Clean(authority) && BeyondPort(authority) && !HasScheme(authority)
    ensures BindAddr(before + authority + after) == BindAddr(HTTP + authority)
  {
    hide Trim, NormalizeHttp, SocketAddr.Parse, StripScheme;
    TrimExactly(before, authority, after);
    TrimmedStays(authority);
    var url := HTTP + authority;
    assert url[0] == 'h' && url[|url| - 1] == authority[|authority| - 1];
    TrimmedStays(url);
    NormalizeClean(authority);
    StripClean(authority);
  }

  // ----- ports alone

  lemma DigitsAreTrimmed(port: string)
    requires AllDigits(port) && port != ""
    ensures Trimmed(port) && Trimmed(":" + port)
  {
    assert IsDigit(port[0]) && IsDigit(port[|port| - 1]);
    assert (":" + port)[|port|] == port[|port| - 1];
  }

  /** A port alone, with or without a colon, is connected to on the loopback address. A controller spawned for it binds that
      address too, but with the colon it binds every address. */
  lemma PortForms(before: string, port: string, after: string)
    requires Blank(before) && Blank(after) && SocketAddr.ParsePort(port).Some?
    ensures var n, bare, colon := SocketAddr.ParsePort(port).value, before + port + after, before + (":" + port) + after;
            && EndpointUrl(bare) == EndpointUrl(colon) == Some("http://127.0.0.1:" + Decimal(n))
            && BindAddr(bare) == Some(SocketAddr.Addr(SocketAddr.LOOPBACK, n))
            && BindAddr(colon) == Some(SocketAddr.Addr(SocketAddr.ANY, n))
  {
    hide SocketAddr.Parse, SocketAddr.ParseHost, SocketAddr.PrintHost, Trim, Trimmed, Blank, Decimal;
    DigitsAreTrimmed(port);
    TrimExactly(before, port, after);
    TrimExactly(before, ":" + port, after);
    SocketAddr.LocalHostsParse();
    SocketAddr.LoopbackText();
    SocketAddr.ParseHostAndPort("127.0.0.1", port);
    SocketAddr.ParseHostAndPort("0.0.0.0", port);
    assert (":" + port)[1..] == port;
    assert port[0] != ':' by {
      assert IsDigit(port[0]);
    }
    PrefixDiffers(port, HTTP, 0);
    PrefixDiffers(":" + port, HTTP, 0);
    PrefixDiffers(port, HTTPS, 0);
    PrefixDiffers(":" + port, HTTPS, 0);
    var n := SocketAddr.ParsePort(port).value;
    assert HTTP + ("127.0.0.1" + ":" + Decimal(n)) == "http://127.0.0.1:" + Decimal(n);
  }

  /** A tail turns a port alone into a host name. */
  lemma TailAfterPort(port: string, tail: string)
    requires AllDigits(port) && port != "" && IsTail(tail) && Trimmed(tail) && tail != ""
    ensures EndpointUrl(port + tail) == Some("http://" + port) && BindAddr(port + tail).None?
  {
    hide NormalizeHttp, BindAddr, Trim;
    var t := port + tail;
    DigitsAreTrimmed(port);
    TrimmedStays(port);
    TrimmedStays(t);
    NormalizeHttpExactly(HTTP, port, tail);
    assert t[|port|] == tail[0] && !IsDigit(tail[0]) && IsDigit(t[0]);
    TailHidesBind(t);
  }

  /** A tail makes a port with a colon unreadable. */
  lemma TailAfterColonPort(port: string, tail: string)
    requires AllDigits(port) && port != "" && IsTail(tail) && Trimmed(tail) && tail != ""
    ensures EndpointUrl(":" + port + tail).None? && BindAddr(":" + port + tail).None?
  {
    hide NormalizeHttp, SocketAddr.Parse, SocketAddr.ParseHost, Trim;
    var t := ":" + port + tail;
    TrimmedStays(t);
    assert t[1..] == port + tail && (port + tail)[|port|] == tail[0] && !IsDigit(tail[0]);
    SocketAddr.LocalHostsParse();
    SocketAddr.ParseHostAndPort("127.0.0.1", t[1..]);
    SocketAddr.ParseHostAndPort("0.0.0.0", t[1..]);
  }

  lemma LocalhostAuthority(value: string, port: string)
    requires BindAuthority(value) == Some("localhost:" + port) && SocketAddr.ParsePort(port).Some?
    ensures NormalizeBind(value) == Some(SocketAddr.Addr(SocketAddr.LOOPBACK, SocketAddr.ParsePort(port).value))
  {
    hide SocketAddr.Parse, SocketAddr.ParseHost, SocketAddr.ParsePort, BindAuthority;
    LocalhostIsNoAddress(port);
    SocketAddr.LocalHostsParse();
    SocketAddr.ParseHostAndPort("127.0.0.1", port);
    assert ("localhost:" + port)[|LOCALHOST|..] == port;
  }

  /** A controller spawned for `localhost` binds the loopback address. */
  lemma LocalhostBinds(scheme: string, port: string)
    requires scheme in {"", "http://", "https://"} && SocketAddr.ParsePort(port).Some?
    ensures BindAddr(scheme + ("localhost:" + port)) == Some(SocketAddr.Addr(SocketAddr.LOOPBACK, SocketAddr.ParsePort(port).value))
  {
    hide SocketAddr.ParsePort, NormalizeHttp, NormalizeBind, StripScheme, Trim;
    var s := Local(port);
    var a, t := s.Authority(), scheme + s.Authority();
    SpellingIsClean(s);
    TrimmedStays(a);
    if scheme == "" {
      assert t == a;
    } else {
      assert t[0] == 'h' && t[|t| - 1] == a[|a| - 1] && !IsDigit('h');
      TrimmedStays(t);
      NormalizeClean(a);
      StripClean(a);
    }
    LocalhostAuthority(t, port);
  }

  // ----- keys of the local spellings

  lemma LocalSpellingKey(scheme: string, s: Spelling)
    requires scheme in {"", "http://", "https://"} && s.Valid() && s.SpellsLocal()
    ensures CoordinationKey(scheme + s.Authority()) == "local-controller:" + Decimal(s.Port())
  {
    hide EndpointUrl, LocalPort, BindAddr, SocketAddr.ParseHost, SocketAddr.ParsePort, Trim, Decimal;
    var a := s.Authority();
    SpellingIsClean(s);
    TrimmedStays(a);
    if scheme == "" {
      SchemelessForms("", a, "", "");
      assert "" + (a + "") + "" == a == scheme + a;
      LocalPortOfUrl(HTTP, s);
    } else {
      SchemeForms("", scheme, a, "", "");
      assert "" + (scheme + a + "") + "" == scheme + a;
      LocalPortOfUrl(scheme, s);
    }
  }

  /** All spellings of a local port share one key. */
  lemma LocalKeys(scheme: string, port: string)
    requires scheme in {"", "http://", "https://"} && SocketAddr.ParsePort(port).Some?
    ensures var key := "local-controller:" + Decimal(SocketAddr.ParsePort(port).value);
            && CoordinationKey(port) == CoordinationKey(":" + port) == key
            && CoordinationKey(scheme + ("localhost:" + port)) == key
            && CoordinationKey(scheme + ("127.0.0.1:" + port)) == CoordinationKey(scheme + ("0.0.0.0:" + port)) == key
            && CoordinationKey(scheme + ("[::1]:" + port)) == CoordinationKey(scheme + ("[::]:" + port)) == key
  {
    hide CoordinationKey, EndpointUrl, BindAddr, SocketAddr.ParseHost, SocketAddr.ParsePort, Trim, Decimal;
    SocketAddr.LocalHostsParse();
    PrefixTexts();
    LocalSpellingKey(scheme, Local(port));
    LocalSpellingKey(scheme, Numeric("127.0.0.1", port));
    LocalSpellingKey(scheme, Numeric("0.0.0.0", port));
    LocalSpellingKey(scheme, Numeric("[::1]", port));
    LocalSpellingKey(scheme, Numeric("[::]", port));
    PortKeys(port);
  }

  lemma PortKeys(port: string)
    requires SocketAddr.ParsePort(port).Some?
    ensures CoordinationKey(port) == CoordinationKey(":" + port) == "local-controller:" + Decimal(SocketAddr.ParsePort(port).value)
  {
    hide EndpointUrl, BindAddr, LocalPort, SocketAddr.ParseHost, Trim, Decimal;
    var n := SocketAddr.ParsePort(port).value;
    PortForms("", port, "");
    assert "" + port + "" == port && "" + (":" + port) + "" == ":" + port;
    var s := Numeric("127.0.0.1", Decimal(n));
    SocketAddr.LocalHostsParse();
    SocketAddr.NumberRoundTrip(n, 65535);
    LocalPortOfUrl(HTTP, s);
    assert HTTP + s.Authority() == "http://127.0.0.1:" + Decimal(n);
  }
}
