/** The controller's command line: the parser of its start-up arguments. */
module Cli {
  import opened Wrappers
  import opened Text
  import SocketAddr

  const U64_MAX: nat := 0xFFFF_FFFF_FFFF_FFFF

  datatype Mode = Service | Managed

  datatype ServerConfig = ServerConfig(bindAddr: string, mode: Mode, minimumUptime: nat, idleTimeout: nat, leaseTtl: nat)

  const DEFAULT := ServerConfig("127.0.0.1:19801", Managed, 300, 900, 120)

  datatype Flag = Bind | ModeFlag | MinimumUptime | IdleTimeout | LeaseTtl {
    function Name(): string {
      match this
      case Bind => "--bind"
      case ModeFlag => "--mode"
      case MinimumUptime => "--minimum-uptime-secs"
      case IdleTimeout => "--idle-timeout-secs"
      case LeaseTtl => "--default-lease-ttl-secs"
    }
  }

  datatype CliError =
    | Help
    | Unsupported(argument: string)
    | MissingValue(flag: Flag)
    | BadMode(value: string)
    | BadNumber(flag: Flag, value: string)
    | EmptyBind
    | BadBind(value: string)
    | ZeroPort
    | IdleBelowUptime
    | ZeroTtl

  type Parsed = Result<ServerConfig, CliError>

  // ----- one flag

  function AsciiLower(c: char): char {
    if 'A' <= c <= 'Z' then (c as int - 'A' as int + 'a' as int) as char else c
  }

  function Lower(s: string): string {
    seq(|s|, i requires 0 <= i < |s| => AsciiLower(s[i]))
  }

  function ParseMode(value: string): Option<Mode> {
    var name := Lower(Trim(value));
    if name == "service" then Some(Service) else if name == "managed" then Some(Managed) else None
  }

  function FlagOf(argument: string): Option<Flag> {
    if argument == "--bind" then Some(Bind)
    else if argument == "--mode" then Some(ModeFlag)
    else if argument == "--minimum-uptime-secs" then Some(MinimumUptime)
    else if argument == "--idle-timeout-secs" then Some(IdleTimeout)
    else if argument == "--default-lease-ttl-secs" then Some(LeaseTtl)
    else None
  }

  /** The configuration with one flag set, or why its value is refused. */
  function SetFlag(config: ServerConfig, flag: Flag, value: string): Parsed {
    if Trim(value) == "" then Err(MissingValue(flag))
    else
      match flag
      case Bind => Ok(config.(bindAddr := value))
      case ModeFlag => (match ParseMode(value) case None => Err(BadMode(value)) case Some(m) => Ok(config.(mode := m)))
      case _ =>
        match ParseUnsigned(value, U64_MAX)
        case None => Err(BadNumber(flag, value))
        case Some(n) =>
          Ok(if flag.MinimumUptime? then config.(minimumUptime := n)
             else if flag.IdleTimeout? then config.(idleTimeout := n)
             else config.(leaseTtl := n))
  }

  function ParseFlags(config: ServerConfig, args: seq<string>): Parsed
    decreases |args|
  {
    if args == [] then Ok(config)
    else
      match FlagOf(args[0])
      case None => if args[0] == "--help" || args[0] == "-h" then Err(Help) else Err(Unsupported(args[0]))
      case Some(flag) =>
        if |args| == 1 then Err(MissingValue(flag))
        else
          match SetFlag(config, flag, args[1])
          case Err(e) => Err(e)
          case Ok(next) => ParseFlags(next, args[2..])
  }

  // ----- the whole configuration

  /** The text that is parsed as a socket address; it is also the result. */
  function BindText(value: string): string {
    var t := Trim(value);
    if t != "" && t[0] == ':' then "0.0.0.0" + t
    else if ':' in t then t
    else "127.0.0.1:" + t
  }

  function NormalizeBindAddr(value: string): Result<string, CliError> {
    if Trim(value) == "" then Err(EmptyBind)
    else
      match SocketAddr.Parse(BindText(value))
      case None => Err(BadBind(value))
      case Some(x) => if x.port == 0 then Err(ZeroPort) else Ok(BindText(value))
  }

  function Validate(config: ServerConfig): Parsed {
    if Trim(config.bindAddr) == "" then Err(EmptyBind)
    else if config.idleTimeout < config.minimumUptime then Err(IdleBelowUptime)
    else if config.leaseTtl == 0 then Err(ZeroTtl)
    else Ok(config)
  }

  function Finish(config: ServerConfig): Parsed {
    match NormalizeBindAddr(config.bindAddr)
    case Err(e) => Err(e)
    case Ok(text) => Validate(config.(bindAddr := text))
  }

  function Parse(args: seq<string>): Parsed {
    match ParseFlags(DEFAULT, args) case Err(e) => Err(e) case Ok(config) => Finish(config)
  }

  // ----- the code

  method NextValue(args: seq<string>, position: nat, flag: Flag) returns (r: Result<string, CliError>)
    ensures r == if position < |args| && Trim(args[position]) != "" then Ok(args[position]) else Err(MissingValue(flag))
  {
    if position < |args| && Trim(args[position]) != "" {
      return Ok(args[position]);
    }
    return Err(MissingValue(flag));
  }

  method ParseU64(value: string, flag: Flag) returns (r: Result<nat, CliError>)
    ensures r == match ParseUnsigned(value, U64_MAX) case None => Err(BadNumber(flag, value)) case Some(n) => Ok(n)
  {
    var n := ParseUnsigned(value, U64_MAX);
    r := if n.None? then Err(BadNumber(flag, value)) else Ok(n.value);
  }

  method ParseServerConfig(args: seq<string>) returns (r: Parsed)
    ensures r == Parse(args)
  {
    var config := DEFAULT;
    var i := 0;
    assert args[0..] == args;
    while i < |args|
      invariant 0 <= i <= |args|
      invariant ParseFlags(DEFAULT, args) == ParseFlags(config, args[i..])
      decreases |args| - i
    {
      var argument := args[i];
      assert i + 1 < |args| ==> args[i..][1] == args[i + 1] && args[i..][2..] == args[i + 2..];
      var flag := FlagOf(argument);
      if flag.None? {
        return Err(if argument == "--help" || argument == "-h" then Help else Unsupported(argument));
      }
      var value := NextValue(args, i + 1, flag.value);
      if value.Err? {
        return Err(value.error);
      }
      match flag.value {
        case Bind =>
          config := config.(bindAddr := value.value);
        case ModeFlag =>
          var mode := ParseMode(value.value);
          if mode.None? {
            return Err(BadMode(value.value));
          }
          config := config.(mode := mode.value);
        case MinimumUptime =>
          var n := ParseU64(value.value, MinimumUptime);
          if n.Err? {
            return Err(n.error);
          }
          config := config.(minimumUptime := n.value);
        case IdleTimeout =>
          var n := ParseU64(value.value, IdleTimeout);
          if n.Err? {
            return Err(n.error);
          }
          config := config.(idleTimeout := n.value);
        case LeaseTtl =>
          var n := ParseU64(value.value, LeaseTtl);
          if n.Err? {
            return Err(n.error);
          }
          config := config.(leaseTtl := n.value);
      }
      i := i + 2;
    }
    assert args[i..] == [];
    var bind := NormalizeBindAddr(config.bindAddr);
    if bind.Err? {
      return Err(bind.error);
    }
    config := config.(bindAddr := bind.value);
    r := Validate(config);
  }

  // ----- what is accepted

  lemma BindTextIsTrimmed(value: string)
    requires Trim(value) != ""
    ensures Trimmed(BindText(value)) && BindText(value) != "" && BindText(value)[0] != ':' && ':' in BindText(value)
  {
    TrimIsTrimmed(value);
    var t := Trim(value);
    if t[0] == ':' {
      assert BindText(value)[|"0.0.0.0"|] == ':';
    } else if ':' !in t {
      assert BindText(value)[|"127.0.0.1"|] == ':';
    }
  }

  predicate InRange(config: ServerConfig) {
    config.minimumUptime <= U64_MAX && config.idleTimeout <= U64_MAX && config.leaseTtl <= U64_MAX
  }

  lemma {:induction false} FlagsStayInRange(config: ServerConfig, args: seq<string>)
    requires InRange(config) && ParseFlags(config, args).Ok?
    ensures InRange(ParseFlags(config, args).value)
    decreases |args|
  {
    hide Trim, ParseMode, AllDigits, Value;
    if args != [] {
      FlagsStayInRange(SetFlag(config, FlagOf(args[0]).value, args[1]).value, args[2..]);
    }
  }

  /** What the final checks accept, and what they leave of the configuration. */
  lemma FinishExactly(config: ServerConfig)
    ensures var text := BindText(config.bindAddr);
            && (Finish(config).Ok? <==>
                && Trim(config.bindAddr) != "" && SocketAddr.Parse(text).Some? && SocketAddr.Parse(text).value.port != 0
                && config.minimumUptime <= config.idleTimeout && config.leaseTtl > 0)
            && (Finish(config).Ok? ==> Finish(config).value == config.(bindAddr := text))
  {
    hide Trim, SocketAddr.Parse, BindText;
    if Trim(config.bindAddr) != "" {
      BindTextIsTrimmed(config.bindAddr);
      TrimmedStays(BindText(config.bindAddr));
    }
  }

  /** Every accepted configuration binds a concrete address with a nonzero port, allows shutdown no earlier than the
      minimum uptime, leases for a positive time, and holds durations of 64 bits. */
  lemma {:induction false} AcceptedIsValid(args: seq<string>)
    requires Parse(args).Ok?
    ensures var c := Parse(args).value;
            && SocketAddr.Parse(c.bindAddr).Some? && SocketAddr.Parse(c.bindAddr).value.port != 0
            && c.minimumUptime <= c.idleTimeout && c.leaseTtl > 0 && InRange(c)
  {
    hide Finish, ParseFlags, SocketAddr.Parse, BindText;
    FlagsStayInRange(DEFAULT, args);
    FinishExactly(ParseFlags(DEFAULT, args).value);
  }

  /** Normalising a bind address again changes nothing. */
  lemma {:induction false} BindIsStable(value: string)
    requires NormalizeBindAddr(value).Ok?
    ensures NormalizeBindAddr(NormalizeBindAddr(value).value) == NormalizeBindAddr(value)
  {
    BindTextIsTrimmed(value);
    TrimmedStays(BindText(value));
  }

  /** A port alone means the loopback address, a port after a colon every address. */
  lemma BarePorts(before: string, port: string, after: string)
    requires Blank(before) && Blank(after) && SocketAddr.ParsePort(port).Some?
    ensures var n := SocketAddr.ParsePort(port).value;
            && NormalizeBindAddr(before + port + after) == (if n == 0 then Err(ZeroPort) else Ok("127.0.0.1:" + port))
            && NormalizeBindAddr(before + (":" + port) + after) == (if n == 0 then Err(ZeroPort) else Ok("0.0.0.0:" + port))
  {
    hide SocketAddr.Parse, SocketAddr.ParseHost, Trim, Blank;
    assert IsDigit(port[0]) && IsDigit(port[|port| - 1]);
    assert (":" + port)[|port|] == port[|port| - 1];
    TrimExactly(before, port, after);
    TrimExactly(before, ":" + port, after);
    SocketAddr.LocalHostsParse();
    SocketAddr.ParseHostAndPort("127.0.0.1", port);
    SocketAddr.ParseHostAndPort("0.0.0.0", port);
    assert ':' !in port;
    assert "127.0.0.1:" + port == "127.0.0.1" + ":" + port && "0.0.0.0:" + port == "0.0.0.0" + ":" + port == "0.0.0.0" + (":" + port);
  }

  // ----- the last value of each flag decides

  datatype Setting = Setting(flag: Flag, value: string)

  function Arguments(settings: seq<Setting>): seq<string> {
    if settings == [] then []
    else [settings[0].flag.Name(), settings[0].value] + Arguments(settings[1..])
  }

  function LastValue(settings: seq<Setting>, flag: Flag): Option<string> {
    if settings == [] then None
    else if settings[|settings| - 1].flag == flag then Some(settings[|settings| - 1].value)
    else LastValue(settings[..|settings| - 1], flag)
  }

  predicate Readable(s: Setting) {
    SetFlag(DEFAULT, s.flag, s.value).Ok?
  }

  /** The configuration in which each flag has the value last given for it. */
  function LastOfEach(settings: seq<Setting>): ServerConfig {
    ServerConfig(
      (match LastValue(settings, Bind) case None => DEFAULT.bindAddr case Some(v) => v),
      (match LastValue(settings, ModeFlag)
       case None => DEFAULT.mode case Some(v) => if ParseMode(v).Some? then ParseMode(v).value else DEFAULT.mode),
      NumberOr(LastValue(settings, MinimumUptime), DEFAULT.minimumUptime),
      NumberOr(LastValue(settings, IdleTimeout), DEFAULT.idleTimeout),
      NumberOr(LastValue(settings, LeaseTtl), DEFAULT.leaseTtl))
  }

  function NumberOr(value: Option<string>, default: nat): nat {
    if value.Some? && ParseUnsigned(value.value, U64_MAX).Some? then ParseUnsigned(value.value, U64_MAX).value else default
  }

  lemma ArgumentsSnoc(settings: seq<Setting>, s: Setting)
    ensures Arguments(settings + [s]) == Arguments(settings) + [s.flag.Name(), s.value]
  {
    if settings == [] {
      assert [] + [s] == [s] && [s][1..] == [];
    } else {
      assert (settings + [s])[1..] == settings[1..] + [s];
      ArgumentsSnoc(settings[1..], s);
    }
  }

  lemma FlagOfName(flag: Flag)
    ensures FlagOf(flag.Name()) == Some(flag)
  {
  }

  /** Parsing a list and then one more setting. */
  lemma {:induction false} ParseSnoc(config: ServerConfig, settings: seq<Setting>, s: Setting)
    ensures ParseFlags(config, Arguments(settings + [s]))
            == match ParseFlags(config, Arguments(settings)) case Err(e) => Err(e) case Ok(c) => SetFlag(c, s.flag, s.value)
    decreases |settings|
  {
    FlagOfName(s.flag);
    if settings == [] {
      assert Arguments([s]) == [s.flag.Name(), s.value] by {
        ArgumentsSnoc([], s);
        assert [] + [s] == [s];
      }
      assert [] + [s] == [s];
      assert [s.flag.Name(), s.value][2..] == [];
    } else {
      var first := settings[0];
      FlagOfName(first.flag);
      assert (settings + [s])[0] == first && (settings + [s])[1..] == settings[1..] + [s];
      assert Arguments(settings + [s])[2..] == Arguments(settings[1..] + [s]);
      assert Arguments(settings)[2..] == Arguments(settings[1..]);
      match SetFlag(config, first.flag, first.value)
      case Err(_) =>
      case Ok(next) => ParseSnoc(next, settings[1..], s);
    }
  }

  lemma LastValueSnoc(settings: seq<Setting>, s: Setting, flag: Flag)
    ensures LastValue(settings + [s], flag) == if s.flag == flag then Some(s.value) else LastValue(settings, flag)
  {
    assert (settings + [s])[..|settings|] == settings;
  }

  /** For settings that can each be read, only the last value of each flag matters. */
  lemma {:induction false} LastValueWins(settings: seq<Setting>)
    requires forall s :: s in settings ==> Readable(s)
    ensures ParseFlags(DEFAULT, Arguments(settings)) == Ok(LastOfEach(settings))
  {
    if settings != [] {
      var init, s := settings[..|settings| - 1], settings[|settings| - 1];
      assert settings == init + [s];
      LastValueWins(init);
      ParseSnoc(DEFAULT, init, s);
      assert Readable(s);
      LastValueSnoc(init, s, Bind);
      LastValueSnoc(init, s, ModeFlag);
      LastValueSnoc(init, s, MinimumUptime);
      LastValueSnoc(init, s, IdleTimeout);
      LastValueSnoc(init, s, LeaseTtl);
    }
  }

  /** So reordering distinct flags, or dropping values that are overridden later, changes nothing. */
  lemma {:induction false} OrderDoesNotMatter(xs: seq<Setting>, ys: seq<Setting>)
    requires forall s :: s in xs || s in ys ==> Readable(s)
    requires forall flag :: LastValue(xs, flag) == LastValue(ys, flag)
    ensures Parse(Arguments(xs)) == Parse(Arguments(ys))
  {
    LastValueWins(xs);
    LastValueWins(ys);
  }

  // ----- what stops the parser

  const HELP_FLAGS := {"--help", "-h"}

  predicate NamesFlag(argument: string) {
    exists flag: Flag :: flag.Name() == argument
  }

  predicate UnreadableValue(flag: Flag, value: string) {
    match flag
    case Bind => false
    case ModeFlag => ParseMode(value).None?
    case _ => ParseUnsigned(value, U64_MAX).None?
  }

  /** What a list that starts so is refused with: help, an argument that names no flag, or a flag without a value or with one
      that cannot be read. */
  predicate Stops(rest: seq<string>, e: CliError) {
    && rest != []
    && match e
       case Help => rest[0] in HELP_FLAGS
       case Unsupported(argument) => argument == rest[0] && argument !in HELP_FLAGS && !NamesFlag(argument)
       case MissingValue(flag) => flag.Name() == rest[0] && (|rest| == 1 || Trim(rest[1]) == "")
       case BadMode(value) =>
         ModeFlag.Name() == rest[0] && |rest| > 1 && value == rest[1] && Trim(value) != "" && UnreadableValue(ModeFlag, value)
       case BadNumber(flag, value) =>
         && flag.Name() == rest[0] && |rest| > 1 && value == rest[1] && Trim(value) != ""
         && !flag.ModeFlag? && UnreadableValue(flag, value)
       case _ => false
  }

  lemma NamesFlagExactly(argument: string)
    ensures NamesFlag(argument) <==> FlagOf(argument).Some?
    ensures FlagOf(argument).Some? ==> FlagOf(argument).value.Name() == argument
  {
    assert FlagOf(argument).Some? ==> FlagOf(argument).value.Name() == argument;
    if flag: Flag :| flag.Name() == argument {
      FlagOfName(flag);
    }
  }

  lemma HelpNamesNoFlag(argument: string)
    requires argument in HELP_FLAGS
    ensures FlagOf(argument).None?
  {
    assert |argument| == 6 || |argument| == 2;
    assert |argument| == 6 ==> argument[2] == 'h' && "--bind"[2] == 'b' && "--mode"[2] == 'm';
  }

  /** The parser stops there with that answer, whatever comes after. */
  lemma StopsAtOnce(config: ServerConfig, rest: seq<string>, e: CliError)
    requires Stops(rest, e)
    ensures ParseFlags(config, rest) == Err(e)
  {
    hide FlagOf, Trim, ParseMode;
    NamesFlagExactly(rest[0]);
    match e
    case Help => HelpNamesNoFlag(rest[0]);
    case Unsupported(argument) =>
    case MissingValue(flag) => FlagOfName(flag);
    case BadMode(value) => FlagOfName(ModeFlag);
    case BadNumber(flag, value) => FlagOfName(flag);
  }

  lemma ReadableIsRead(config: ServerConfig, s: Setting, rest: seq<string>)
    requires Readable(s)
    ensures SetFlag(config, s.flag, s.value).Ok?
    ensures ParseFlags(config, [s.flag.Name(), s.value] + rest) == ParseFlags(SetFlag(config, s.flag, s.value).value, rest)
  {
    hide FlagOf, Trim, ParseMode, AllDigits;
    FlagOfName(s.flag);
    assert ([s.flag.Name(), s.value] + rest)[2..] == rest;
  }

  /** Readable settings before it change nothing about that. */
  lemma {:induction false} FirstTroubleDecides(config: ServerConfig, settings: seq<Setting>, rest: seq<string>, e: CliError)
    requires (forall s :: s in settings ==> Readable(s)) && Stops(rest, e)
    ensures ParseFlags(config, Arguments(settings) + rest) == Err(e)
    decreases |settings|
  {
    hide ParseFlags, Readable, SetFlag, Stops;
    if settings == [] {
      assert Arguments(settings) + rest == rest;
      StopsAtOnce(config, rest, e);
    } else {
      var first, more := settings[0], Arguments(settings[1..]) + rest;
      ReadableIsRead(config, first, more);
      assert Arguments(settings) + rest == [first.flag.Name(), first.value] + more;
      FirstTroubleDecides(SetFlag(config, first.flag, first.value).value, settings[1..], rest, e);
    }
  }

  /** Every list consists of readable settings, and of something that stops the parser unless it ends there. */
  lemma {:induction false} EveryListIsRead(args: seq<string>) returns (settings: seq<Setting>, rest: seq<string>, e: CliError)
    ensures args == Arguments(settings) + rest && forall s :: s in settings ==> Readable(s)
    ensures rest == [] || Stops(rest, e)
    decreases |args|
  {
    hide FlagOf, Trim, ParseMode, AllDigits;
    settings, rest, e := [], args, Help;
    if args == [] {
      return;
    }
    NamesFlagExactly(args[0]);
    match FlagOf(args[0])
    case None => e := if args[0] in HELP_FLAGS then Help else Unsupported(args[0]);
    case Some(flag) =>
      if |args| == 1 {
        e := MissingValue(flag);
      } else {
        match SetFlag(DEFAULT, flag, args[1])
        case Err(error) => e := error;
        case Ok(_) =>
          settings, rest, e := EveryListIsRead(args[2..]);
          settings := [Setting(flag, args[1])] + settings;
          assert args == [args[0], args[1]] + args[2..];
      }
  }

  /** The loop accepts exactly the lists of readable settings, and all it accepts is the configuration of their last values. */
  lemma FlagsAcceptedExactly(args: seq<string>)
    ensures ParseFlags(DEFAULT, args).Ok? <==> exists settings :: (forall s :: s in settings ==> Readable(s)) && args == Arguments(settings)
  {
    hide ParseFlags, Readable, Stops;
    var settings, rest, e := EveryListIsRead(args);
    if rest == [] {
      assert args == Arguments(settings);
      LastValueWins(settings);
    } else {
      FirstTroubleDecides(DEFAULT, settings, rest, e);
    }
    if ok :| (forall s :: s in ok ==> Readable(s)) && args == Arguments(ok) {
      LastValueWins(ok);
    }
  }

  /** An argument in a flag's place that is neither a flag nor a call for help is refused by name. */
  lemma UnknownArgumentIsRefused(settings: seq<Setting>, argument: string, rest: seq<string>)
    requires forall s :: s in settings ==> Readable(s)
    requires argument !in {"--bind", "--mode", "--minimum-uptime-secs", "--idle-timeout-secs", "--default-lease-ttl-secs"}
    requires argument !in {"--help", "-h"}
    ensures Parse(Arguments(settings) + [argument] + rest) == Err(Unsupported(argument))
  {
    hide ParseFlags, Readable;
    NamesFlagExactly(argument);
    FirstTroubleDecides(DEFAULT, settings, [argument] + rest, Unsupported(argument));
    assert Arguments(settings) + [argument] + rest == Arguments(settings) + ([argument] + rest);
  }

  // ----- the flags by name

  lemma DefaultPort()
    ensures SocketAddr.ParsePort("19801") == Some(19801)
  {
    assert Value("1") == 1 && "19"[..1] == "1";
    assert Value("19") == 19 && "198"[..2] == "19";
    assert Value("198") == 198 && "1980"[..3] == "198";
    assert Value("1980") == 1980 && "19801"[..4] == "1980";
  }

  /** Without arguments the controller binds the loopback address on port 19801 and is managed, with an uptime of five
      minutes, an idle time of fifteen and leases of two. */
  lemma NoArguments()
    ensures Parse([]) == Ok(ServerConfig("127.0.0.1:19801", Managed, 5 * 60, 15 * 60, 2 * 60))
    ensures SocketAddr.Parse("127.0.0.1:19801") == Some(SocketAddr.Addr(SocketAddr.LOOPBACK, 19801))
  {
    hide SocketAddr.Parse, SocketAddr.ParseHost, SocketAddr.ParsePort, Finish;
    DefaultPort();
    SocketAddr.LocalHostsParse();
    SocketAddr.ParseHostAndPort("127.0.0.1", "19801");
    assert "127.0.0.1" + ":" + "19801" == "127.0.0.1:19801";
    FinishExactly(DEFAULT);
    TrimmedStays("127.0.0.1:19801");
    assert "127.0.0.1:19801"[9] == ':';
  }

  /** Each flag sets the field it is named after. */
  lemma FlagsByName(value: string)
    ensures ParseFlags(DEFAULT, ["--bind", value]) == if Trim(value) == "" then Err(MissingValue(Bind)) else Ok(DEFAULT.(bindAddr := value))
    ensures Trim(value) != "" && ParseMode(value).Some? ==>
              ParseFlags(DEFAULT, ["--mode", value]) == Ok(DEFAULT.(mode := ParseMode(value).value))
    ensures Trim(value) != "" && ParseUnsigned(value, U64_MAX).Some? ==>
              var n := ParseUnsigned(value, U64_MAX).value;
              && ParseFlags(DEFAULT, ["--minimum-uptime-secs", value]) == Ok(DEFAULT.(minimumUptime := n))
              && ParseFlags(DEFAULT, ["--idle-timeout-secs", value]) == Ok(DEFAULT.(idleTimeout := n))
              && ParseFlags(DEFAULT, ["--default-lease-ttl-secs", value]) == Ok(DEFAULT.(leaseTtl := n))
  {
    hide Trim, ParseMode, AllDigits;
    assert ["--bind", value][2..] == ["--mode", value][2..] == [];
    assert ["--minimum-uptime-secs", value][2..] == ["--idle-timeout-secs", value][2..] == ["--default-lease-ttl-secs", value][2..] == [];
    FlagOfName(Bind);
    FlagOfName(ModeFlag);
    FlagOfName(MinimumUptime);
    FlagOfName(IdleTimeout);
    FlagOfName(LeaseTtl);
  }

  /** The name, its letters in either case. */
  predicate Spells(text: string, name: string) {
    |text| == |name| && forall i :: 0 <= i < |name| ==> text[i] == name[i] || text[i] as int + 32 == name[i] as int
  }

  lemma LowerSpells(text: string, name: string)
    requires forall i :: 0 <= i < |name| ==> 'a' <= name[i] <= 'z'
    ensures Lower(text) == name <==> Spells(text, name)
  {
    assert |Lower(text)| == |text|;
    if Lower(text) == name {
      assert forall i :: 0 <= i < |text| ==> AsciiLower(text[i]) == name[i];
    }
  }

  lemma ModeExactly(value: string, mode: Mode)
    ensures ParseMode(value) == Some(mode) <==> Spells(Trim(value), if mode.Service? then "service" else "managed")
  {
    hide Lower, Spells;
    LowerSpells(Trim(value), "service");
    LowerSpells(Trim(value), "managed");
    assert "service"[0] != "managed"[0];
  }
}
