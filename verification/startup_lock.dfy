/** The startup lock: many client processes, one lock file, one clock.

    Every process runs the loop of `ensure_ready`. Creating the file is atomic; testing the age of an existing
    file and removing it are two separate steps. A connection attempt ends at any moment up to the connect
    timeout, a sleep lasts exactly the retry interval, and everything else takes no time. Times are milliseconds. */
module StartupLock {
  import opened Wrappers

  type Pid = nat

  datatype Config = Config(autoSpawn: bool, startupTimeoutSecs: nat, connectTimeoutSecs: nat, retryIntervalMs: nat) {
    function Startup(): nat { startupTimeoutSecs * 1000 }

    function Connect(): nat { connectTimeoutSecs * 1000 }

    /** The retry interval is never shorter than 50 ms. */
    function Retry(): (r: nat)
      ensures r >= 50 && r >= retryIntervalMs && (r == 50 || r == retryIntervalMs)
    {
      if retryIntervalMs < 50 then 50 else retryIntervalMs
    }

    /** A lock this old is judged stale. */
    function StaleAfter(): (r: nat)
      ensures r >= 30_000 && r >= 2 * Startup() && (r == 30_000 || r == 2 * Startup())
    {
      (if startupTimeoutSecs < 15 then 15 else startupTimeoutSecs) * 2 * 1000
    }
  }

  datatype Pc =
    | Outside
    | Probing(until: nat)          // first connection attempt, before the loop
    | Connecting(until: nat)       // connection attempt at the head of the loop
    | Creating(attempt: nat)       // create the lock file, if there is none
    | Checking(attempt: nat)       // the file was there: how old is it?
    | Reclaiming(attempt: nat)     // judged stale: remove it
    | Confirming(until: nat)       // connection attempt just after taking the lock
    | Spawning
    | AtDeadline
    | Sleeping(until: nat)
    | Leaving                      // returning, which drops the guard

  /** `guard` holds the moment the process created the lock file, while it has the guard. */
  datatype Proc = Proc(pc: Pc, guard: Option<nat>, spawned: bool, deadline: nat)

  const IDLE := Proc(Outside, None, false, 0)

  /** `lock` is the modification time of the lock file while it exists. */
  datatype System = System(now: nat, lock: Option<nat>, procs: map<Pid, Proc>)

  const BOOT := System(0, None, map[])

  /** Time passes, or a process takes a step; `ok` is the outcome of an attempt that may fail. */
  datatype Choice = Tick(ms: nat) | Act(pid: Pid, ok: bool)

  function At(sys: System, p: Pid): Proc {
    if p in sys.procs then sys.procs[p] else IDLE
  }

  /** Whether a process can stay where it is until time `t`. */
  predicate Waits(pc: Pc, t: nat) {
    match pc
    case Outside => true
    case Probing(until) => t <= until
    case Connecting(until) => t <= until
    case Confirming(until) => t <= until
    case Sleeping(until) => t <= until
    case _ => false
  }

  ghost predicate MayTick(sys: System, ms: nat) {
    forall p :: p in sys.procs ==> Waits(sys.procs[p].pc, sys.now + ms)
  }

  /** Where a process goes next, given the clock, the lock file it sees and the outcome of its attempt. */
  function Local(cfg: Config, me: Proc, now: nat, lock: Option<nat>, ok: bool): Proc {
    match me.pc
    case Outside => Proc(Probing(now + cfg.Connect()), None, false, 0)
    case Probing(_) =>
      if ok || !cfg.autoSpawn then me.(pc := Outside)
      else me.(pc := Connecting(now + cfg.Connect()), deadline := now + cfg.Startup())
    case Connecting(_) => me.(pc := if ok then Leaving else if me.guard.None? then Creating(0) else Spawning)
    case Creating(k) =>
      if !ok then me.(pc := Leaving)
      else if lock.Some? then me.(pc := Checking(k))
      else me.(pc := Confirming(now + cfg.Connect()), guard := Some(now))
    case Checking(k) => me.(pc := if lock.Some? && now - lock.value >= cfg.StaleAfter() then Reclaiming(k) else Spawning)
    case Reclaiming(k) => me.(pc := if k + 1 < 2 then Creating(k + 1) else Spawning)
    case Confirming(_) => me.(pc := if ok then Leaving else Spawning)
    case Spawning =>
      if me.guard.None? || me.spawned then me.(pc := AtDeadline)
      else if ok then me.(pc := AtDeadline, spawned := true) else me.(pc := Leaving)
    case AtDeadline => me.(pc := if now >= me.deadline then Leaving else Sleeping(now + cfg.Retry()))
    case Sleeping(until) => if now < until then me else me.(pc := Connecting(now + cfg.Connect()))
    case Leaving => me.(pc := Outside, guard := None)
  }

  /** The lock file after that step. Removal does not ask whose file it is. */
  function LockAfter(me: Proc, now: nat, lock: Option<nat>, ok: bool): Option<nat> {
    match me.pc
    case Creating(_) => if ok && lock.None? then Some(now) else lock
    case Reclaiming(_) => None
    case Leaving => if me.guard.Some? then None else lock
    case _ => lock
  }

  function Act1(cfg: Config, sys: System, p: Pid, ok: bool): System {
    var me := At(sys, p);
    System(sys.now, LockAfter(me, sys.now, sys.lock, ok), sys.procs[p := Local(cfg, me, sys.now, sys.lock, ok)])
  }

  ghost function Step(cfg: Config, sys: System, c: Choice): System {
    match c
    case Tick(ms) => if MayTick(sys, ms) then sys.(now := sys.now + ms) else sys
    case Act(p, ok) => Act1(cfg, sys, p, ok)
  }

  ghost function Run(cfg: Config, choices: seq<Choice>): System {
    if choices == [] then BOOT else Step(cfg, Run(cfg, choices[..|choices| - 1]), choices[|choices| - 1])
  }

  // ----- safety

  predicate Holds(sys: System, p: Pid) {
    p in sys.procs && sys.procs[p].guard.Some?
  }

  /** At most one process holds a guard, the file exists exactly while one does and is as old as the hold, every
      hold is younger than the stale age, and nobody has judged a lock stale. */
  ghost predicate Safe(cfg: Config, sys: System) {
    && (forall p, q :: Holds(sys, p) && Holds(sys, q) ==> p == q)
    && (sys.lock.Some? <==> exists p :: Holds(sys, p))
    && (forall p :: Holds(sys, p) ==> sys.lock == sys.procs[p].guard && sys.lock.value <= sys.now < sys.lock.value + cfg.StaleAfter())
    && (forall p :: p in sys.procs ==> !sys.procs[p].pc.Reclaiming?)
  }

  /** The latest moment of a hold at which the deadline test can still send the holder to sleep, counted from its
      beginning. A holder that sleeps at least as long as the startup timeout does so at most once. */
  function LastSleepAfter(cfg: Config): nat
    requires cfg.Startup() > 0
  {
    if cfg.Retry() < cfg.Startup() || cfg.Startup() <= cfg.Connect() then cfg.Startup() - 1 else cfg.Connect()
  }

  /** No hold lasts longer: at most a sleep just before the deadline and one whole connection attempt after it. With no
      startup timeout there is no sleep, only the attempt right after taking the lock. */
  function LongestHold(cfg: Config): nat {
    if cfg.Startup() == 0 then cfg.Connect() else LastSleepAfter(cfg) + cfg.Retry() + cfg.Connect()
  }

  /** Holds end before they look stale, or there are none because this SDK never spawns. */
  predicate HoldsAreShort(cfg: Config) {
    cfg.autoSpawn ==> LongestHold(cfg) < cfg.StaleAfter()
  }

  /** A sum that is easier to check; for retry intervals below the startup timeout it is the same condition. */
  predicate Timely(cfg: Config) {
    cfg.Startup() + cfg.Retry() + cfg.Connect() <= cfg.StaleAfter()
  }

  lemma TimelyHoldsAreShort(cfg: Config)
    ensures Timely(cfg) ==> HoldsAreShort(cfg)
    ensures cfg.autoSpawn && cfg.Retry() < cfg.Startup() ==> (Timely(cfg) <==> HoldsAreShort(cfg))
  {
  }

  /** The default timeouts, and all that wait this little between two looks at the deadline, are timely. */
  lemma ShortWaitsAreTimely(cfg: Config)
    requires cfg.Retry() + cfg.Connect() <= cfg.Startup() || cfg.Retry() + cfg.Connect() <= 15000
    ensures Timely(cfg)
  {
  }

  predicate Urgent(pc: Pc) {
    pc.Creating? || pc.Checking? || pc.Reclaiming? || pc.Spawning? || pc.AtDeadline? || pc.Leaving?
  }

  /** How late a holder can be: before its first sleep, or after one. */
  predicate HolderOnTime(cfg: Config, proc: Proc, now: nat)
    requires proc.guard.Some?
  {
    var since := proc.guard.value;
    && since <= now && proc.deadline <= since + cfg.Startup()
    && match proc.pc
       case Confirming(until) => until <= since + cfg.Connect()
       case Sleeping(until) => cfg.Startup() > 0 && since + cfg.Retry() <= until <= since + LastSleepAfter(cfg) + cfg.Retry()
       case Connecting(until) => cfg.Startup() > 0 && since + cfg.Retry() <= now && until <= since + LongestHold(cfg)
       case Spawning => now <= since + LongestHold(cfg) && (now <= since + cfg.Connect() || since + cfg.Retry() <= now)
       case AtDeadline => now <= since + LongestHold(cfg) && (now <= since + cfg.Connect() || since + cfg.Retry() <= now)
       case Leaving => now <= since + LongestHold(cfg)
       case _ => false
  }

  /** How late the process can still be at its present point. */
  predicate OnTime(cfg: Config, proc: Proc, now: nat) {
    && (Waits(proc.pc, now) || Urgent(proc.pc))
    && (!proc.pc.Outside? && !proc.pc.Probing? ==> proc.deadline <= now + cfg.Startup())
    && (proc.guard.Some? ==> HolderOnTime(cfg, proc, now))
  }

  ghost predicate Inv(cfg: Config, sys: System) {
    Safe(cfg, sys) && forall p :: p in sys.procs ==> OnTime(cfg, sys.procs[p], sys.now)
  }

  lemma OnTimeIsYoung(cfg: Config, proc: Proc, now: nat)
    requires LongestHold(cfg) < cfg.StaleAfter() && OnTime(cfg, proc, now) && proc.guard.Some?
    ensures proc.guard.value <= now < proc.guard.value + cfg.StaleAfter()
  {
  }

  lemma TickKeepsInv(cfg: Config, sys: System, ms: nat)
    requires LongestHold(cfg) < cfg.StaleAfter() && Inv(cfg, sys) && MayTick(sys, ms)
    ensures Inv(cfg, sys.(now := sys.now + ms))
  {
    var next := sys.(now := sys.now + ms);
    forall p | p in next.procs
      ensures OnTime(cfg, next.procs[p], next.now)
    {
      assert Waits(sys.procs[p].pc, sys.now + ms);
      assert OnTime(cfg, sys.procs[p], sys.now);
    }
    forall p | Holds(next, p)
      ensures next.lock == next.procs[p].guard && next.lock.value <= next.now < next.lock.value + cfg.StaleAfter()
    {
      assert Holds(sys, p);
      OnTimeIsYoung(cfg, next.procs[p], next.now);
    }
    forall p
      ensures Holds(next, p) == Holds(sys, p)
    {
    }
  }

  /** One step of one process keeps it on time, unless it judges a lock stale. */
  lemma LocalIsOnTime(cfg: Config, me: Proc, now: nat, lock: Option<nat>, ok: bool)
    requires OnTime(cfg, me, now) && !me.pc.Reclaiming?
    ensures OnTime(cfg, Local(cfg, me, now, lock, ok), now)
  {
  }

  lemma ActIsOnTime(cfg: Config, sys: System, p: Pid, ok: bool)
    requires LongestHold(cfg) < cfg.StaleAfter() && Inv(cfg, sys)
    ensures var next := Act1(cfg, sys, p, ok);
            && (p in next.procs || next == sys)
            && (p in next.procs ==> OnTime(cfg, next.procs[p], sys.now) && !next.procs[p].pc.Reclaiming?)
  {
    hide OnTime, LongestHold;
    assert OnTime(cfg, IDLE, sys.now) by {
      IdleIsOnTime(cfg, sys.now);
    }
    LocalIsOnTime(cfg, At(sys, p), sys.now, sys.lock, ok);
    if At(sys, p).pc.Checking? && sys.lock.Some? {
      var q :| Holds(sys, q);
    }
  }

  lemma IdleIsOnTime(cfg: Config, now: nat)
    ensures OnTime(cfg, IDLE, now)
  {
  }

  /** A step by `p` leaves its guard and the file alone, takes a free lock, or releases both. */
  ghost predicate LockMove(sys: System, next: System, p: Pid) {
    && next.now == sys.now
    && next.procs == sys.procs[p := At(next, p)]
    && p in next.procs
    && var before, after := At(sys, p).guard, At(next, p).guard;
       || (after == before && next.lock == sys.lock)
       || (before.None? && sys.lock.None? && after == next.lock == Some(sys.now))
       || (before.Some? && after.None? && next.lock.None?)
  }

  lemma ActMovesLock(cfg: Config, sys: System, p: Pid, ok: bool)
    requires Inv(cfg, sys) && Act1(cfg, sys, p, ok) != sys
    ensures LockMove(sys, Act1(cfg, sys, p, ok), p)
  {
    assert p in sys.procs ==> OnTime(cfg, sys.procs[p], sys.now) && !sys.procs[p].pc.Reclaiming?;
  }

  lemma LockMoveKeepsSafe(cfg: Config, sys: System, next: System, p: Pid)
    requires Safe(cfg, sys) && LockMove(sys, next, p) && cfg.StaleAfter() > 0
    requires !At(next, p).pc.Reclaiming?
    requires At(next, p).guard.Some? ==> sys.now < At(next, p).guard.value + cfg.StaleAfter()
    ensures Safe(cfg, next)
  {
    assert forall q :: q != p ==> Holds(next, q) == Holds(sys, q) && (Holds(sys, q) ==> next.procs[q] == sys.procs[q]);
    assert Holds(sys, p) == At(sys, p).guard.Some?;
    if next.lock.Some? && next.lock == sys.lock {
      var q :| Holds(sys, q);
      assert Holds(next, q) || q == p;
    } else if next.lock.Some? {
      assert Holds(next, p);
    } else {
      forall q
        ensures !Holds(next, q)
      {
        assert Holds(sys, q) ==> sys.lock.Some?;
      }
    }
  }

  lemma ActKeepsInv(cfg: Config, sys: System, p: Pid, ok: bool)
    requires LongestHold(cfg) < cfg.StaleAfter() && Inv(cfg, sys)
    ensures Inv(cfg, Act1(cfg, sys, p, ok))
  {
    var next := Act1(cfg, sys, p, ok);
    if next != sys {
      ActMovesLock(cfg, sys, p, ok);
      ActIsOnTime(cfg, sys, p, ok);
      if At(next, p).guard.Some? {
        OnTimeIsYoung(cfg, next.procs[p], sys.now);
      }
      LockMoveKeepsSafe(cfg, sys, next, p);
      forall q | q in next.procs
        ensures OnTime(cfg, next.procs[q], next.now)
      {
        assert q != p ==> next.procs[q] == sys.procs[q];
      }
    }
  }

  lemma BootKeepsInv(cfg: Config)
    ensures Inv(cfg, BOOT)
  {
  }

  lemma {:induction false} ShortHoldsKeepInv(cfg: Config, choices: seq<Choice>)
    requires LongestHold(cfg) < cfg.StaleAfter()
    ensures Inv(cfg, Run(cfg, choices))
  {
    hide Inv, LongestHold, MayTick, Act1;
    BootKeepsInv(cfg);
    if choices != [] {
      var sys, c := Run(cfg, choices[..|choices| - 1]), choices[|choices| - 1];
      ShortHoldsKeepInv(cfg, choices[..|choices| - 1]);
      match c
      case Tick(ms) =>
        if MayTick(sys, ms) {
          TickKeepsInv(cfg, sys, ms);
        }
      case Act(p, ok) => ActKeepsInv(cfg, sys, p, ok);
    }
  }

  /** Without automatic spawning nobody comes as far as the lock. */
  lemma {:induction false} NobodyLocks(cfg: Config, choices: seq<Choice>)
    requires !cfg.autoSpawn
    ensures var sys := Run(cfg, choices);
            sys.lock.None? && forall p :: p in sys.procs ==> sys.procs[p].guard.None? && (sys.procs[p].pc.Outside? || sys.procs[p].pc.Probing?)
  {
    if choices != [] {
      NobodyLocks(cfg, choices[..|choices| - 1]);
    }
  }

  /** Main result. With such timeouts, in every interleaving of any number of processes and any passage of time:
      mutual exclusion, the lock file exists exactly while held, no held lock is ever judged stale. */
  lemma {:induction false} LockIsSafe(cfg: Config, choices: seq<Choice>)
    requires HoldsAreShort(cfg)
    ensures Safe(cfg, Run(cfg, choices))
  {
    if cfg.autoSpawn {
      ShortHoldsKeepInv(cfg, choices);
    } else {
      NobodyLocks(cfg, choices);
    }
  }

  // ----- a lock left behind

  /** Process `p` takes so many steps alone, and nothing it tries fails. */
  function Steps(cfg: Config, sys: System, p: Pid, n: nat): System {
    if n == 0 then sys else Act1(cfg, Steps(cfg, sys, p, n - 1), p, true)
  }

  lemma StepsFromHere(cfg: Config, sys: System, p: Pid)
    ensures Steps(cfg, sys, p, 2) == Act1(cfg, Act1(cfg, sys, p, true), p, true)
    ensures Steps(cfg, sys, p, 4) == Act1(cfg, Act1(cfg, Steps(cfg, sys, p, 2), p, true), p, true)
  {
    hide Act1;
    assert Steps(cfg, sys, p, 1) == Act1(cfg, Steps(cfg, sys, p, 0), p, true);
    assert Steps(cfg, sys, p, 3) == Act1(cfg, Steps(cfg, sys, p, 2), p, true);
  }

  /** A file that nobody removes is reclaimed by the next process that comes to it, exactly when it is as old as twice the
      larger of the startup timeout and 15 seconds; a younger one is left alone. */
  lemma OldLockIsReclaimed(cfg: Config, sys: System, p: Pid)
    requires p in sys.procs && sys.procs[p].pc == Creating(0) && sys.procs[p].guard.None?
    requires sys.lock.Some? && sys.lock.value <= sys.now
    ensures var age, me := sys.now - sys.lock.value, sys.procs[p];
            if age >= 30_000 && age >= 2000 * cfg.startupTimeoutSecs then
              && Steps(cfg, sys, p, 4).lock == Some(sys.now)
              && At(Steps(cfg, sys, p, 4), p) == me.(pc := Confirming(sys.now + cfg.Connect()), guard := Some(sys.now))
            else
              && Steps(cfg, sys, p, 2).lock == sys.lock
              && At(Steps(cfg, sys, p, 2), p) == me.(pc := Spawning)
  {
    var me := sys.procs[p];
    var s1 := Act1(cfg, sys, p, true);
    var s2 := Act1(cfg, s1, p, true);
    var s3 := Act1(cfg, s2, p, true);
    StepsFromHere(cfg, sys, p);
    assert At(s1, p) == me.(pc := Checking(0)) && s1.lock == sys.lock;
    if sys.now - sys.lock.value >= cfg.StaleAfter() {
      assert At(s2, p) == me.(pc := Reclaiming(0));
      assert At(s3, p) == me.(pc := Creating(1)) && s3.lock.None?;
    }
  }

  // ----- the bound is exact

  lemma Then(cfg: Config, choices: seq<Choice>, c: Choice) returns (longer: seq<Choice>)
    ensures longer == choices + [c]
    ensures Run(cfg, longer) == Step(cfg, Run(cfg, choices), c)
  {
    longer := choices + [c];
    assert longer[..|choices|] == choices;
  }

  /** Process 0 takes the lock at time 0. */
  lemma FirstHold(cfg: Config) returns (choices: seq<Choice>)
    requires cfg.autoSpawn
    ensures Run(cfg, choices) == System(0, Some(0), map[0 := Proc(Confirming(cfg.Connect()), Some(0), false, cfg.Startup())])
  {
    choices := [];
    choices := Then(cfg, choices, Act(0, false));
    choices := Then(cfg, choices, Act(0, false));
    choices := Then(cfg, choices, Act(0, false));
    assert Run(cfg, choices) == System(0, None, map[0 := Proc(Creating(0), None, false, cfg.Startup())]);
    choices := Then(cfg, choices, Act(0, true));
  }

  /** It finds no controller, spawns one and goes to sleep. */
  lemma FirstSleep(cfg: Config, wait: nat) returns (choices: seq<Choice>)
    requires cfg.autoSpawn && wait < cfg.Startup() && wait <= cfg.Connect()
    ensures Run(cfg, choices) == System(wait, Some(0), map[0 := Proc(Sleeping(wait + cfg.Retry()), Some(0), true, cfg.Startup())])
  {
    choices := FirstHold(cfg);
    choices := Then(cfg, choices, Tick(wait));
    choices := Then(cfg, choices, Act(0, false));
    choices := Then(cfg, choices, Act(0, true));
    assert Run(cfg, choices) == System(wait, Some(0), map[0 := Proc(AtDeadline, Some(0), true, cfg.Startup())]);
    choices := Then(cfg, choices, Act(0, false));
  }

  /** It wakes once and passes the deadline test again, one millisecond early. */
  lemma SecondSleep(cfg: Config) returns (choices: seq<Choice>)
    requires cfg.autoSpawn && cfg.Retry() < cfg.Startup() <= cfg.Retry() + cfg.Connect() + 1
    ensures Run(cfg, choices) == System(cfg.Startup() - 1, Some(0),
              map[0 := Proc(Sleeping(cfg.Startup() - 1 + cfg.Retry()), Some(0), true, cfg.Startup())])
  {
    var startup, retry, connect := cfg.Startup(), cfg.Retry(), cfg.Connect();
    choices := FirstSleep(cfg, 0);
    choices := Then(cfg, choices, Tick(retry));
    choices := Then(cfg, choices, Act(0, false));
    assert Run(cfg, choices) == System(retry, Some(0), map[0 := Proc(Connecting(retry + connect), Some(0), true, startup)]);
    choices := Then(cfg, choices, Tick(startup - 1 - retry));
    choices := Then(cfg, choices, Act(0, false));
    assert Run(cfg, choices) == System(startup - 1, Some(0), map[0 := Proc(Spawning, Some(0), true, startup)]);
    choices := Then(cfg, choices, Act(0, false));
    choices := Then(cfg, choices, Act(0, false));
  }

  /** It goes to sleep as late as it can. */
  lemma LastSleep(cfg: Config) returns (choices: seq<Choice>)
    requires cfg.autoSpawn && cfg.Startup() > 0 && !HoldsAreShort(cfg)
    ensures var late := LastSleepAfter(cfg);
            Run(cfg, choices) == System(late, Some(0), map[0 := Proc(Sleeping(late + cfg.Retry()), Some(0), true, cfg.Startup())])
  {
    hide Run;
    if LastSleepAfter(cfg) <= cfg.Connect() {
      choices := FirstSleep(cfg, LastSleepAfter(cfg));
    } else {
      choices := SecondSleep(cfg);
    }
  }

  /** Time passes up to the stale age while process 0, the only one, waits with the guard it took at time 0. */
  lemma WaitUntilStale(cfg: Config, choices: seq<Choice>, now: nat, proc: Proc) returns (longer: seq<Choice>)
    requires Run(cfg, choices) == System(now, Some(0), map[0 := proc])
    requires now <= cfg.StaleAfter() && Waits(proc.pc, cfg.StaleAfter())
    ensures Run(cfg, longer) == System(cfg.StaleAfter(), Some(0), map[0 := proc])
  {
    hide Run;
    longer := Then(cfg, choices, Tick(cfg.StaleAfter() - now));
  }

  lemma AfterLastSleep(cfg: Config) returns (choices: seq<Choice>)
    requires cfg.autoSpawn && cfg.Startup() > 0 && !HoldsAreShort(cfg)
    ensures var late := LastSleepAfter(cfg) + cfg.Retry();
            Run(cfg, choices) == System(late, Some(0), map[0 := Proc(Connecting(late + cfg.Connect()), Some(0), true, cfg.Startup())])
  {
    hide Run, HoldsAreShort, LastSleepAfter;
    choices := LastSleep(cfg);
    choices := Then(cfg, choices, Tick(cfg.Retry()));
    choices := Then(cfg, choices, Act(0, false));
  }

  /** The lock reaches the stale age while process 0 waits: for the attempt after taking it, in its last sleep, or for
      the attempt after that sleep. */
  lemma LongHold(cfg: Config) returns (choices: seq<Choice>, proc: Proc)
    requires !HoldsAreShort(cfg)
    ensures Run(cfg, choices) == System(cfg.StaleAfter(), Some(0), map[0 := proc]) && proc.guard == Some(0)
  {
    hide Run;
    if cfg.Startup() == 0 {
      proc := Proc(Confirming(cfg.Connect()), Some(0), false, 0);
      choices := FirstHold(cfg);
      choices := WaitUntilStale(cfg, choices, 0, proc);
    } else {
      var late := LastSleepAfter(cfg);
      if cfg.StaleAfter() <= late + cfg.Retry() {
        proc := Proc(Sleeping(late + cfg.Retry()), Some(0), true, cfg.Startup());
        choices := LastSleep(cfg);
        choices := WaitUntilStale(cfg, choices, late, proc);
      } else {
        proc := Proc(Connecting(late + cfg.Retry() + cfg.Connect()), Some(0), true, cfg.Startup());
        choices := AfterLastSleep(cfg);
        choices := WaitUntilStale(cfg, choices, late + cfg.Retry(), proc);
      }
    }
  }

  /** Process 1 then judges the held lock stale, removes it and takes the lock as well. */
  lemma SecondHolder(cfg: Config) returns (choices: seq<Choice>)
    requires !HoldsAreShort(cfg)
    ensures Holds(Run(cfg, choices), 0) && Holds(Run(cfg, choices), 1)
  {
    var proc: Proc;
    choices, proc := LongHold(cfg);
    choices := Then(cfg, choices, Act(1, false));
    choices := Then(cfg, choices, Act(1, false));
    choices := Then(cfg, choices, Act(1, false));
    assert At(Run(cfg, choices), 1).pc == Creating(0);
    choices := Then(cfg, choices, Act(1, true));
    choices := Then(cfg, choices, Act(1, false));
    assert At(Run(cfg, choices), 1).pc == Reclaiming(0);
    choices := Then(cfg, choices, Act(1, false));
    choices := Then(cfg, choices, Act(1, true));
  }

  ghost predicate Exclusive(sys: System) {
    forall p, q :: Holds(sys, p) && Holds(sys, q) ==> p == q
  }

  /** For every configuration: the lock is safe in all runs exactly when holds are short, and mutual exclusion alone
      already needs as much. */
  lemma SafeExactlyWhenHoldsAreShort(cfg: Config)
    ensures HoldsAreShort(cfg) <==> forall choices :: Safe(cfg, Run(cfg, choices))
    ensures HoldsAreShort(cfg) <==> forall choices :: Exclusive(Run(cfg, choices))
  {
    if HoldsAreShort(cfg) {
      forall choices
        ensures Safe(cfg, Run(cfg, choices)) && Exclusive(Run(cfg, choices))
      {
        LockIsSafe(cfg, choices);
      }
    } else {
      var choices := SecondHolder(cfg);
      assert !Safe(cfg, Run(cfg, choices)) && !Exclusive(Run(cfg, choices));
    }
  }
}
