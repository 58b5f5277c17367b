/** The command line with which the SDK starts a controller, read back by the controller's own parser. */
module Spawn {
  import opened Wrappers
  import opened Text
  import SocketAddr
  import Endpoint
  import Cli

  /** The part of the SDK configuration that reaches the command line. The durations are unsigned 64-bit numbers. */
  datatype SpawnConfig = SpawnConfig(endpoint: string, mode: Cli.Mode, minimumUptime: nat, idleTimeout: nat, leaseTtl: nat) {
    predicate Valid() {
      minimumUptime <= Cli.U64_MAX && idleTimeout <= Cli.U64_MAX && leaseTtl <= Cli.U64_MAX
    }
  }

  function ModeName(mode: Cli.Mode): string {
    match mode
    case Service => "service"
    case Managed => "managed"
  }

  /** A flag's name, its value, and the rest of the line. */
  function Pair(name: string, value: string, rest: seq<string>): seq<string> {
    [name, value] + rest
  }

  /** The arguments after the executable; none when the endpoint has no bind address and spawning fails. */
  function SpawnArguments(config: SpawnConfig): (args: Option<seq<string>>)
    ensures args.Some? <==> Endpoint.BindAddr(config.endpoint).Some?
  {
    match Endpoint.BindAddr(config.endpoint)
    case None => None
    case Some(x) =>
      Some(Pair("--bind", SocketAddr.Print(x), Pair("--mode", ModeName(config.mode), Numbers(config))))
  }

  function Numbers(config: SpawnConfig): seq<string> {
    Pair("--minimum-uptime-secs", Decimal(config.minimumUptime),
    Pair("--idle-timeout-secs", Decimal(config.idleTimeout),
    Pair("--default-lease-ttl-secs", Decimal(config.leaseTtl), [])))
  }

  // ----- the printed values

  lemma BindAddrIsValid(endpoint: string)
    requires Endpoint.BindAddr(endpoint).Some?
    ensures Endpoint.BindAddr(endpoint).value.Valid()
  {
    hide SocketAddr.ParseHost, SocketAddr.Parse;
    SocketAddr.LocalHostsParse();
    var t := Trim(endpoint);
    if t != "" && t[0] == ':' {
      Endpoint.SocketOfPort("0.0.0.0", t[1..]);
    } else if AllDigits(t) {
      Endpoint.SocketOfPort("127.0.0.1", t);
    } else {
      NormalizedBindIsValid(t);
    }
  }

  lemma NormalizedBindIsValid(value: string)
    requires Endpoint.NormalizeBind(value).Some?
    ensures Endpoint.NormalizeBind(value).value.Valid()
  {
    hide Endpoint.BindAuthority, SocketAddr.Parse;
    var authority := Endpoint.BindAuthority(value).value;
    if SocketAddr.Parse(authority).Some? {
      var _, _ := SocketAddr.ParseShape(authority);
    } else {
      var _, _ := SocketAddr.ParseShape("127.0.0.1" + ":" + authority[|Endpoint.LOCALHOST|..]);
    }
  }

  lemma NumberIsTrimmed(n: nat)
    ensures Trim(Decimal(n)) == Decimal(n) != ""
  {
    var s := Decimal(n);
    assert IsDigit(s[0]) && IsDigit(s[|s| - 1]);
    TrimmedStays(s);
  }

  /** A printed address is left alone by the normalisation of bind addresses. */
  lemma PrintedBind(x: SocketAddr.Addr)
    requires x.Valid()
    ensures Trim(SocketAddr.Print(x)) == SocketAddr.Print(x) != ""
    ensures Cli.BindText(SocketAddr.Print(x)) == SocketAddr.Print(x)
    ensures Cli.NormalizeBindAddr(SocketAddr.Print(x))
            == if x.port == 0 then Err(Cli.ZeroPort) else Ok(SocketAddr.Print(x))
  {
    hide SocketAddr.Parse, SocketAddr.PrintHost, SocketAddr.ParseHost, Decimal;
    var text, host := SocketAddr.Print(x), SocketAddr.PrintHost(x.host);
    SocketAddr.HostRoundTrip(x.host);
    SocketAddr.NumberRoundTrip(x.port, 65535);
    var s := Endpoint.Numeric(host, Decimal(x.port));
    Endpoint.SpellingIsClean(s);
    assert text == s.Authority();
    TrimmedStays(text);
    assert text[|host|] == ':';
    SocketAddr.RoundTrip(x);
  }

  // ----- reading the line

  lemma ParseStep(config: Cli.ServerConfig, flag: Cli.Flag, value: string, rest: seq<string>)
    requires Cli.SetFlag(config, flag, value).Ok?
    ensures Cli.ParseFlags(config, Pair(flag.Name(), value, rest)) == Cli.ParseFlags(Cli.SetFlag(config, flag, value).value, rest)
  {
    Cli.FlagOfName(flag);
    var args := Pair(flag.Name(), value, rest);
    assert args[0] == flag.Name() && args[1] == value && args[2..] == rest;
  }

  lemma SetNumber(config: Cli.ServerConfig, flag: Cli.Flag, n: nat)
    requires n <= Cli.U64_MAX && !flag.Bind? && !flag.ModeFlag?
    ensures Cli.SetFlag(config, flag, Decimal(n)) == Ok(
              if flag.MinimumUptime? then config.(minimumUptime := n)
              else if flag.IdleTimeout? then config.(idleTimeout := n)
              else config.(leaseTtl := n))
  {
    NumberIsTrimmed(n);
    ParseUnsignedDecimal(n, Cli.U64_MAX);
  }

  lemma SetMode(config: Cli.ServerConfig, mode: Cli.Mode)
    ensures Cli.SetFlag(config, Cli.ModeFlag, ModeName(mode)) == Ok(config.(mode := mode))
  {
    TrimmedStays(ModeName(mode));
    assert Cli.Lower("service") == "service" && Cli.Lower("managed") == "managed";
  }

  lemma ReadNumbers(config: Cli.ServerConfig, minimumUptime: nat, idleTimeout: nat, leaseTtl: nat)
    requires minimumUptime <= Cli.U64_MAX && idleTimeout <= Cli.U64_MAX && leaseTtl <= Cli.U64_MAX
    ensures Cli.ParseFlags(config, Pair("--minimum-uptime-secs", Decimal(minimumUptime),
                                   Pair("--idle-timeout-secs", Decimal(idleTimeout), Pair("--default-lease-ttl-secs", Decimal(leaseTtl), []))))
            == Ok(config.(minimumUptime := minimumUptime, idleTimeout := idleTimeout, leaseTtl := leaseTtl))
  {
    hide Decimal, Cli.ParseFlags, Cli.SetFlag, Pair;
    var c1 := config.(minimumUptime := minimumUptime);
    var c2 := c1.(idleTimeout := idleTimeout);
    var c3 := c2.(leaseTtl := leaseTtl);
    SetNumber(config, Cli.MinimumUptime, minimumUptime);
    SetNumber(c1, Cli.IdleTimeout, idleTimeout);
    SetNumber(c2, Cli.LeaseTtl, leaseTtl);
    var r2 := Pair("--default-lease-ttl-secs", Decimal(leaseTtl), []);
    var r1 := Pair("--idle-timeout-secs", Decimal(idleTimeout), r2);
    ParseStep(config, Cli.MinimumUptime, Decimal(minimumUptime), r1);
    ParseStep(c1, Cli.IdleTimeout, Decimal(idleTimeout), r2);
    ParseStep(c2, Cli.LeaseTtl, Decimal(leaseTtl), []);
    NothingLeft(c3);
  }

  lemma ReadLine(config: SpawnConfig)
    requires config.Valid() && SpawnArguments(config).Some?
    ensures Cli.ParseFlags(Cli.DEFAULT, SpawnArguments(config).value)
            == Ok(Cli.ServerConfig(SocketAddr.Print(Endpoint.BindAddr(config.endpoint).value),
                                   config.mode, config.minimumUptime, config.idleTimeout, config.leaseTtl))
  {
    hide Endpoint.BindAddr, SocketAddr.Print, Decimal, Cli.ParseFlags, Trim, Pair, ModeName;
    var x := Endpoint.BindAddr(config.endpoint).value;
    BindAddrIsValid(config.endpoint);
    PrintedBind(x);
    var bind := SocketAddr.Print(x);
    var c1 := Cli.DEFAULT.(bindAddr := bind);
    var c2 := c1.(mode := config.mode);
    SetMode(c1, config.mode);
    var r2 := Numbers(config);
    ParseStep(Cli.DEFAULT, Cli.Bind, bind, Pair("--mode", ModeName(config.mode), r2));
    ParseStep(c1, Cli.ModeFlag, ModeName(config.mode), r2);
    ReadNumbers(c2, config.minimumUptime, config.idleTimeout, config.leaseTtl);
  }

  lemma NothingLeft(config: Cli.ServerConfig)
    ensures Cli.ParseFlags(config, []) == Ok(config)
  {
  }

  /** Whatever endpoint the host configured, the controller reads the spawn line as exactly the bind address, the mode
      and the three durations of the SDK, or refuses it for one of three reasons that can be seen beforehand. */
  lemma LineIsReadBack(config: SpawnConfig)
    requires config.Valid() && SpawnArguments(config).Some?
    ensures var x := Endpoint.BindAddr(config.endpoint).value;
            Cli.Parse(SpawnArguments(config).value) ==
            if x.port == 0 then Err(Cli.ZeroPort)
            else if config.idleTimeout < config.minimumUptime then Err(Cli.IdleBelowUptime)
            else if config.leaseTtl == 0 then Err(Cli.ZeroTtl)
            else Ok(Cli.ServerConfig(SocketAddr.Print(x), config.mode, config.minimumUptime, config.idleTimeout, config.leaseTtl))
  {
    hide Endpoint.BindAddr, SocketAddr.Print, SpawnArguments, Cli.ParseFlags, Cli.NormalizeBindAddr, Trim;
    ReadLine(config);
    BindAddrIsValid(config.endpoint);
    PrintedBind(Endpoint.BindAddr(config.endpoint).value);
  }

  /** The controller that was started is bound to the address the SDK resolved: reading its bind text gives it back. */
  lemma {:induction false} BoundWhereResolved(config: SpawnConfig)
    requires config.Valid() && SpawnArguments(config).Some? && Cli.Parse(SpawnArguments(config).value).Ok?
    ensures SocketAddr.Parse(Cli.Parse(SpawnArguments(config).value).value.bindAddr) == Endpoint.BindAddr(config.endpoint)
  {
    hide Endpoint.BindAddr, SocketAddr.Print, SocketAddr.Parse, SpawnArguments, Cli.Parse;
    LineIsReadBack(config);
    BindAddrIsValid(config.endpoint);
    SocketAddr.RoundTrip(Endpoint.BindAddr(config.endpoint).value);
  }

  // ----- port zero

  /** Beforehand, from the configuration alone: the line is accepted if and only if port zero has not slipped through,
      the idle timeout is at least the minimum uptime and the lease time is positive. */
  lemma AcceptedExactly(config: SpawnConfig)
    requires config.Valid() && SpawnArguments(config).Some?
    ensures Cli.Parse(SpawnArguments(config).value).Ok? <==>
              !Endpoint.PassesPortZero(config.endpoint) && config.minimumUptime <= config.idleTimeout && config.leaseTtl > 0
  {
    hide Endpoint.BindAddr, SpawnArguments, Cli.Parse, Endpoint.PassesPortZero;
    LineIsReadBack(config);
    Endpoint.PortZeroExactly(config.endpoint);
  }

  /** Four spellings of port zero. The SDK refuses only the last. */
  lemma PortZeroIsPassedOn()
    ensures Endpoint.PassesPortZero(":0") && Endpoint.PassesPortZero("0") && Endpoint.PassesPortZero("localhost:0")
    ensures !Endpoint.PassesPortZero("0.0.0.0:0")
    ensures Endpoint.BindAddr(":0").Some? && Endpoint.BindAddr("0").Some? && Endpoint.BindAddr("localhost:0").Some?
    ensures Endpoint.BindAddr("0.0.0.0:0").None?
  {
    hide Endpoint.BindAddr, Endpoint.PassesPortZero, Trim;
    ZeroPassed(":0");
    ZeroPassed("0");
    ZeroPassed("localhost:0");
    ZeroRefused();
  }

  lemma ZeroPassed(endpoint: string)
    requires endpoint == ":0" || endpoint == "0" || endpoint == "localhost:0"
    ensures Endpoint.PassesPortZero(endpoint) && Endpoint.BindAddr(endpoint).Some?
  {
    hide Endpoint.BindAddr;
    TrimmedStays(endpoint);
    if endpoint == "localhost:0" {
      assert !IsDigit(endpoint[0]);
      Endpoint.PrefixDiffers(endpoint, Endpoint.HTTP, 0);
      Endpoint.PrefixDiffers(endpoint, Endpoint.HTTPS, 0);
      assert endpoint[|Endpoint.LOCALHOST|..] == "0";
    }
    Endpoint.PortZeroExactly(endpoint);
  }

  lemma ZeroRefused()
    ensures !Endpoint.PassesPortZero("0.0.0.0:0") && Endpoint.BindAddr("0.0.0.0:0").None?
  {
    hide Trim, Endpoint.NormalizeHttp, SocketAddr.Parse, SocketAddr.PrintHost;
    var endpoint, zero := "0.0.0.0:0", SocketAddr.Addr(SocketAddr.ANY, 0);
    SocketAddr.LoopbackText();
    assert SocketAddr.Print(zero) == endpoint;
    SocketAddr.RoundTrip(zero);
    TrimmedStays(endpoint);
    assert !IsDigit(endpoint[1]);
    Endpoint.PrefixDiffers(endpoint, Endpoint.HTTP, 0);
    Endpoint.PrefixDiffers(endpoint, Endpoint.HTTPS, 0);
    Endpoint.PrefixDiffers(endpoint, Endpoint.LOCALHOST, 0);
  }
}
