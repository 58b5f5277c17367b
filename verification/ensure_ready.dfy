/** `ensure_ready` as the program it is: a loop with a guard and a spawn-attempted flag.

    Its surroundings are one `Site`: a clock, the lock file that other processes also change, connection attempts.
    The site carries the process as the protocol of module `StartupLock` knows it, and each primitive may be used
    only where the protocol has it, so the loop is checked to walk exactly the protocol's control flow. */
module EnsureReady {
  import opened Wrappers
  import opened StartupLock

  datatype Creation = Created | AlreadyExists | IoError

  class Site {
    const cfg: Config
    var now: nat
    var lock: Option<nat>
    var spawns: nat
    ghost var me: Proc
    ghost var attempts: seq<bool>       // how each connection attempt went
    ghost var firstEnded: nat           // when the first of them ended
    ghost var lockFailed: bool
    ghost var spawnFailed: bool

    constructor (cfg: Config, now: nat, lock: Option<nat>)
      ensures this.cfg == cfg && this.now == now && this.lock == lock && spawns == 0 && me == IDLE
    {
      this.cfg, this.now, this.lock, spawns, me := cfg, now, lock, 0, IDLE;
      attempts, firstEnded, lockFailed, spawnFailed := [], now, false, false;
    }

    /** The latest attempt reached a controller. */
    ghost predicate Reached()
      reads this
    {
      attempts != [] && attempts[|attempts| - 1]
    }

    /** Other processes change the lock file whenever they like. */
    method Others()
      modifies `lock
    {
      var found: Option<nat> :| found.None? || found.value <= now;
      lock := found;
    }

    /** The record of attempts and failures is that of one call. */
    ghost method Enter()
      requires me.pc.Outside?
      modifies `me, `attempts, `lockFailed, `spawnFailed
      ensures me == Local(cfg, old(me), now, lock, false)
      ensures attempts == [] && !lockFailed && !spawnFailed
    {
      attempts, lockFailed, spawnFailed := [], false, false;
      me := Local(cfg, me, now, lock, false);
    }

    method TryConnect() returns (ok: bool)
      requires (me.pc.Probing? || me.pc.Connecting? || me.pc.Confirming?) && me.pc.until == now + cfg.Connect()
      modifies `now, `lock, `me, `attempts, `firstEnded
      ensures old(now) <= now <= old(now) + cfg.Connect()
      ensures attempts == old(attempts) + [ok] && firstEnded == if old(attempts) == [] then now else old(firstEnded)
      ensures me == match old(me.pc)
                    case Probing(_) =>
                      if ok || !cfg.autoSpawn then old(me).(pc := Outside)
                      else old(me).(pc := Connecting(now + cfg.Connect()), deadline := now + cfg.Startup())
                    case Connecting(_) => old(me).(pc := if ok then Leaving else if old(me.guard).None? then Creating(0) else Spawning)
                    case _ => old(me).(pc := if ok then Leaving else Spawning)
    {
      var takes: nat :| takes <= cfg.Connect();
      now := now + takes;
      Others();
      ok := *;
      me := Local(cfg, me, now, lock, ok);
      firstEnded := if attempts == [] then now else firstEnded;
      attempts := attempts + [ok];
    }

    /** Atomic create-new of the lock file. */
    method CreateNew() returns (r: Creation)
      requires me.pc.Creating?
      modifies `lock, `me, `lockFailed
      ensures lockFailed == (old(lockFailed) || r.IoError?)
      ensures me == Local(cfg, old(me), now, if r.AlreadyExists? then lock else None, !r.IoError?)
      ensures r.AlreadyExists? ==> lock.Some?
    {
      Others();
      var fails: bool := *;
      r := if fails then IoError else if lock.Some? then AlreadyExists else Created;
      me := Local(cfg, me, now, lock, !fails);
      lockFailed := lockFailed || fails;
      if r.Created? {
        lock := Some(now);
      }
    }

    method LockIsStale() returns (stale: bool)
      requires me.pc.Checking?
      modifies `lock, `me
      ensures me == old(me).(pc := if stale then Reclaiming(old(me.pc.attempt)) else Spawning)
    {
      Others();
      stale := lock.Some? && now - lock.value >= cfg.StaleAfter();
      me := Local(cfg, me, now, lock, true);
    }

    method RemoveLock()
      requires me.pc.Reclaiming?
      modifies `lock, `me
      ensures me == Local(cfg, old(me), now, lock, true)
    {
      lock := None;
      me := Local(cfg, me, now, lock, true);
    }

    /** Starting a controller process takes the guard. */
    method SpawnController() returns (ok: bool)
      requires me.pc.Spawning? && me.guard.Some? && !me.spawned
      modifies `spawns, `me, `spawnFailed
      ensures spawns == old(spawns) + 1 && spawnFailed == (old(spawnFailed) || !ok)
      ensures me == if ok then old(me).(pc := AtDeadline, spawned := true) else old(me).(pc := Leaving)
    {
      ok := *;
      spawns := spawns + 1;
      spawnFailed := spawnFailed || !ok;
      me := Local(cfg, me, now, lock, ok);
    }

    ghost method SkipSpawn()
      requires me.pc.Spawning? && (me.guard.None? || me.spawned)
      modifies `me
      ensures me == old(me).(pc := AtDeadline)
    {
      me := Local(cfg, me, now, lock, true);
    }

    method DeadlinePassed(deadline: nat) returns (late: bool)
      requires me.pc.AtDeadline? && deadline == me.deadline
      modifies `me
      ensures late == (now >= deadline)
      ensures me == old(me).(pc := if late then Leaving else Sleeping(now + cfg.Retry()))
    {
      late := now >= deadline;
      me := Local(cfg, me, now, lock, true);
    }

    method Sleep(ms: nat)
      requires me.pc.Sleeping? && me.pc.until == now + ms
      modifies `now, `lock, `me
      ensures now == old(now) + ms
      ensures me == old(me).(pc := Connecting(now + cfg.Connect()))
    {
      now := now + ms;
      Others();
      me := Local(cfg, me, now, lock, true);
    }

    /** Returning drops the guard, which removes the file. */
    method DropGuard(held: bool)
      requires me.pc.Leaving? && held == me.guard.Some?
      modifies `lock, `me
      ensures me.pc.Outside? && me.guard.None?
      ensures old(me.guard.Some?) ==> lock.None?
    {
      lock := if held then None else lock;
      me := Local(cfg, me, now, lock, true);
    }
  }

  /** `Ok(true)` is a guard, `Ok(false)` none. */
  method TryAcquireStartupGuard(site: Site) returns (r: Result<bool, ()>)
    requires site.me.pc == Creating(0) && site.me.guard.None?
    modifies site`lock, site`me, site`lockFailed
    ensures site.lockFailed == (old(site.lockFailed) || r.Err?)
    ensures site.me == match r
                       case Ok(true) => old(site.me).(pc := Confirming(site.now + site.cfg.Connect()), guard := Some(site.now))
                       case Ok(false) => old(site.me).(pc := Spawning)
                       case Err(_) => old(site.me).(pc := Leaving)
  {
    for attempt := 0 to 2
      invariant site.me == old(site.me).(pc := if attempt < 2 then Creating(attempt) else Spawning)
      invariant site.lockFailed == old(site.lockFailed)
    {
      var created := site.CreateNew();
      match created {
        case Created => return Ok(true);
        case IoError => return Err(());
        case AlreadyExists =>
          var stale := site.LockIsStale();
          if !stale {
            return Ok(false);
          }
          site.RemoveLock();
      }
    }
    return Ok(false);
  }

  /** Tries for the guard and, holding it, once more for a connection. `done` means that `ensure_ready` returns. */
  method AcquireAndConfirm(site: Site) returns (guard: bool, done: bool, ok: bool)
    requires site.me.pc == Creating(0) && site.me.guard.None?
    modifies site`now, site`lock, site`me, site`attempts, site`firstEnded, site`lockFailed
    ensures old(site.now) <= site.now <= old(site.now) + site.cfg.Connect()
    ensures if done && ok then site.attempts == old(site.attempts) + [true]
            else site.attempts == old(site.attempts) || site.attempts == old(site.attempts) + [false]
    ensures old(site.attempts) != [] ==> site.firstEnded == old(site.firstEnded)
    ensures site.lockFailed == (old(site.lockFailed) || (done && !ok))
    ensures if done then site.me.pc.Outside? && site.me.guard.None?
            else !ok && site.me == old(site.me).(pc := Spawning, guard := site.me.guard) && site.me.guard.Some? == guard
  {
    guard, done, ok := false, false, false;
    var acquired := TryAcquireStartupGuard(site);
    if acquired.Err? {
      site.DropGuard(false);
      done := true;
    } else if acquired.value {
      guard := true;
      ok := site.TryConnect();
      if ok {
        site.DropGuard(true);
        done := true;
      }
    }
  }

  /** Spawns when this process holds the guard and has not tried before. */
  method SpawnOnce(site: Site, guard: bool, spawnAttempted: bool) returns (attempted: bool, done: bool)
    requires site.me.pc.Spawning? && site.me.guard.Some? == guard && site.me.spawned == spawnAttempted
    modifies site`spawns, site`lock, site`me, site`spawnFailed
    ensures site.spawnFailed == (old(site.spawnFailed) || done)
    ensures site.spawns == old(site.spawns) + (if guard && !spawnAttempted then 1 else 0)
    ensures attempted == (spawnAttempted || guard)
    ensures if done then guard && !spawnAttempted && site.me.pc.Outside? && site.me.guard.None?
            else site.me == old(site.me).(pc := AtDeadline, spawned := attempted)
  {
    attempted, done := spawnAttempted || guard, false;
    if guard && !spawnAttempted {
      var spawned := site.SpawnController();
      if !spawned {
        site.DropGuard(guard);
        done := true;
      }
    } else {
      site.SkipSpawn();
    }
  }

  function CeilDiv(a: nat, b: nat): nat
    requires b > 0
  {
    (a + b - 1) / b
  }

  /** `n` steps of the same length. */
  function Total(n: nat, step: nat): nat {
    if n == 0 then 0 else Total(n - 1, step) + step
  }

  lemma {:induction false} TotalIsProduct(n: nat, step: nat)
    ensures Total(n, step) == n * step
  {
    if n > 0 {
      TotalIsProduct(n - 1, step);
    }
  }

  lemma MulCancels(x: int, y: int, b: nat)
    requires b > 0 && x * b < y * b
    ensures x < y
  {
  }

  lemma FewerThanCeil(k: nat, a: nat, b: nat)
    requires b > 0 && Total(k, b) < a
    ensures k < CeilDiv(a, b)
  {
    TotalIsProduct(k, b);
    var q := (a + b - 1) / b;
    assert a + b - 1 == q * b + (a + b - 1) % b;
    assert (k + 1) * b == k * b + b && (q + 1) * b == q * b + b;
    MulCancels(k + 1, q + 1, b);
  }

  /** The body of the loop up to its sleep. `done` means that `ensure_ready` returns. */
  method OneRound(site: Site, deadline: nat, guard: bool, spawnAttempted: bool)
    returns (held: bool, attempted: bool, done: bool, ok: bool)
    requires site.me.pc == Connecting(site.now + site.cfg.Connect()) && site.me.deadline == deadline
    requires site.me.guard.Some? == guard && site.me.spawned == spawnAttempted
    requires site.attempts != [] && !site.lockFailed && !site.spawnFailed
    modifies site
    ensures old(site.now) <= site.now && site.firstEnded == old(site.firstEnded)
    ensures site.now <= old(site.now) + 2 * site.cfg.Connect()
    ensures site.spawns == old(site.spawns) + if attempted && !spawnAttempted then 1 else 0
    ensures spawnAttempted ==> attempted
    ensures site.attempts != [] && (ok <==> site.Reached())
    ensures done ==> site.me.pc.Outside? && site.me.guard.None?
    ensures done && !ok ==> site.lockFailed || site.spawnFailed || site.now >= deadline
    ensures !done ==> !ok && !site.lockFailed && !site.spawnFailed && site.now < deadline
    ensures !done ==> site.me.pc == Sleeping(site.now + site.cfg.Retry()) && site.me.deadline == deadline
    ensures !done ==> site.me.guard.Some? == held && site.me.spawned == attempted
  {
    held, attempted, done := guard, spawnAttempted, false;
    ok := site.TryConnect();
    if ok {
      site.DropGuard(held);
      done := true;
      return;
    }

    if !held {
      held, done, ok := AcquireAndConfirm(site);
      if done {
        return;
      }
    }

    attempted, done := SpawnOnce(site, held, attempted);
    if done {
      return;
    }

    done := site.DeadlinePassed(deadline);
    if done {
      site.DropGuard(held);
    }
  }

  /** `rounds` counts the iterations of the loop. The answer is that of the last connection attempt, made by this call; it
      is given up on only without automatic spawning, after a failure of the lock or of the spawning, or when the startup
      timeout has passed since the first attempt ended. The loop ends within the stated number of iterations and time,
      spawns at most once, and leaves no guard behind; that it spawns only under a guard is the precondition of
      `SpawnController`. */
  method EnsureReady(site: Site) returns (ok: bool, rounds: nat)
    requires site.me.pc.Outside?
    modifies site
    ensures ok <==> site.Reached()
    ensures !ok ==> !site.cfg.autoSpawn || site.lockFailed || site.spawnFailed || site.now >= site.firstEnded + site.cfg.Startup()
    ensures site.me.pc.Outside? && site.me.guard.None?
    ensures rounds <= CeilDiv(site.cfg.Startup(), site.cfg.Retry()) + 1
    ensures site.spawns <= old(site.spawns) + 1
    ensures site.now <= old(site.now) + site.cfg.Startup() + site.cfg.Retry() + 3 * site.cfg.Connect()
  {
    hide CeilDiv;
    rounds := 0;
    site.Enter();
    ok := site.TryConnect();
    if ok || !site.cfg.autoSpawn {
      return;
    }

    assert CeilDiv(site.cfg.Startup(), site.cfg.Retry()) >= 0;
    var start, startup, retry := site.now, site.cfg.Startup(), site.cfg.Retry();
    var deadline := start + startup;
    var guard, spawnAttempted := false, false;
    while true
      invariant site.me.pc == Connecting(site.now + site.cfg.Connect())
      invariant site.me.deadline == deadline && site.me.guard.Some? == guard && site.me.spawned == spawnAttempted
      invariant site.attempts != [] && !site.Reached() && !site.lockFailed && !site.spawnFailed && site.firstEnded == start
      invariant site.spawns == old(site.spawns) + if spawnAttempted then 1 else 0
      invariant start + Total(rounds, retry) <= site.now
      invariant site.now < deadline + retry
      invariant rounds <= CeilDiv(startup, retry)
      decreases CeilDiv(startup, retry) + 1 - rounds
    {
      rounds := rounds + 1;
      var done: bool;
      guard, spawnAttempted, done, ok := OneRound(site, deadline, guard, spawnAttempted);
      if done {
        return;
      }

      FewerThanCeil(rounds - 1, startup, retry);
      site.Sleep(retry);
    }
  }
}
