/** The FFI handle registry: any number of threads create, use and free client handles.

    A handle is a small allocated shell whose address is the pointer given out, plus the resources behind a
    per-handle mutex. The registry maps addresses to handles under its own lock. Each step is what a thread does
    between two points where another thread can intervene. The allocator may reissue any address it has back. */
module HandleRegistry {
  import opened Wrappers

  type Tid = nat
  type Addr = nat
  type Handle = nat

  const NULL: Addr := 0

  datatype Request = Create | Use(addr: Addr) | Free(addr: Addr)

  datatype Outcome = Nothing | Created(addr: Addr) | Refused | Served | Freed

  datatype Pc =
    | Idle(last: Outcome)
    | CreateLocked                       // registry lock held
    | CreateInserting(h: Handle)         // shell allocated, not yet in the registry
    | UseLocked(addr: Addr)
    | UseWaiting(h: Handle)              // the entry is cloned, its mutex not yet held
    | UseInside(h: Handle)               // mutex held, resources not yet looked at
    | UseRunning(h: Handle)              // the operation runs
    | FreeLocked(addr: Addr)
    | FreeWaiting(addr: Addr, h: Handle) // removed from the registry
    | FreeTaking(addr: Addr, h: Handle)  // mutex held
    | FreeShutting(addr: Addr, h: Handle)
    | FreeDropping(addr: Addr, h: Handle)
    | FreeUnlocking(h: Handle)

  datatype Stage = Inserting | Live | Freeing | Gone

  /** `present` says whether the resources are still behind the mutex; `releases` and `shutdowns` count how often
      the shell was dropped and the client shut down. */
  datatype Entry = Entry(shell: Addr, stage: Stage, worker: Tid, present: bool, owner: Option<Tid>, releases: nat, shutdowns: nat)

  /** `handles` lists every handle ever made; a handle is its index. `heap` maps every allocated shell to its handle. */
  datatype System = System(
    threads: map<Tid, Pc>, lock: Option<Tid>, registry: map<Addr, Handle>, heap: map<Addr, Handle>, handles: seq<Entry>)

  const BOOT := System(map[], None, map[], map[], [])

  /** The scheduler's choice: the thread, what it asks for if idle, the address the allocator would return. */
  datatype Move = Move(tid: Tid, request: Request, offered: Addr)

  function At(sys: System, t: Tid): Pc {
    if t in sys.threads then sys.threads[t] else Idle(Nothing)
  }

  function Goto(sys: System, t: Tid, pc: Pc): System {
    sys.(threads := sys.threads[t := pc])
  }

  function SetEntry(sys: System, h: Handle, e: Entry): System {
    if h < |sys.handles| then sys.(handles := sys.handles[h := e]) else sys
  }

  function EntryOf(sys: System, h: Handle): Entry {
    if h < |sys.handles| then sys.handles[h] else Entry(NULL, Gone, 0, false, None, 0, 0)
  }

  /** Takes the registry lock for the request, if it is free. A null pointer is turned away before any locking. */
  function StartRequest(sys: System, m: Move): System {
    if m.request == Use(NULL) then Goto(sys, m.tid, Idle(Refused))
    else if m.request == Free(NULL) then Goto(sys, m.tid, Idle(Nothing))
    else if sys.lock.Some? then sys
    else Goto(sys.(lock := Some(m.tid)), m.tid, FirstPc(m.request))
  }

  function FirstPc(r: Request): Pc {
    match r
    case Create => CreateLocked
    case Use(a) => UseLocked(a)
    case Free(a) => FreeLocked(a)
  }

  function Allocate(sys: System, m: Move): System {
    if m.offered == NULL || m.offered in sys.heap.Keys then sys
    else
      var h := |sys.handles|;
      Goto(sys.(heap := sys.heap[m.offered := h],
                handles := sys.handles + [Entry(m.offered, Inserting, m.tid, true, None, 0, 0)]),
           m.tid, CreateInserting(h))
  }

  function Insert(sys: System, t: Tid, h: Handle): System {
    var e := EntryOf(sys, h);
    Goto(SetEntry(sys.(registry := sys.registry[e.shell := h], lock := None), h, e.(stage := Live)), t, Idle(Created(e.shell)))
  }

  function LookUp(sys: System, t: Tid, a: Addr): System {
    Goto(sys.(lock := None), t, if a in sys.registry then UseWaiting(sys.registry[a]) else Idle(Refused))
  }

  function Remove(sys: System, t: Tid, a: Addr): System {
    if a !in sys.registry then Goto(sys.(lock := None), t, Idle(Nothing))
    else
      var h := sys.registry[a];
      Goto(SetEntry(sys.(registry := sys.registry - {a}, lock := None), h, EntryOf(sys, h).(stage := Freeing, worker := t)),
           t, FreeWaiting(a, h))
  }

  /** Waits for the handle's mutex. */
  function LockHandle(sys: System, t: Tid, h: Handle, next: Pc): System {
    var e := EntryOf(sys, h);
    if e.owner.Some? then sys else Goto(SetEntry(sys, h, e.(owner := Some(t))), t, next)
  }

  function UnlockHandle(sys: System, t: Tid, h: Handle, outcome: Outcome): System {
    Goto(SetEntry(sys, h, EntryOf(sys, h).(owner := None)), t, Idle(outcome))
  }

  /** Gives the shell back to the allocator. */
  function Drop(sys: System, t: Tid, a: Addr, h: Handle): System {
    var e := EntryOf(sys, h);
    Goto(SetEntry(sys.(heap := sys.heap - {a}), h, e.(stage := Gone, releases := e.releases + 1)), t, FreeUnlocking(h))
  }

  function Step(sys: System, m: Move): System {
    var t := m.tid;
    match At(sys, t)
    case Idle(_) => StartRequest(sys, m)
    case CreateLocked => Allocate(sys, m)
    case CreateInserting(h) => Insert(sys, t, h)
    case UseLocked(a) => LookUp(sys, t, a)
    case UseWaiting(h) => LockHandle(sys, t, h, UseInside(h))
    case UseInside(h) => if EntryOf(sys, h).present then Goto(sys, t, UseRunning(h)) else UnlockHandle(sys, t, h, Refused)
    case UseRunning(h) => UnlockHandle(sys, t, h, Served)
    case FreeLocked(a) => Remove(sys, t, a)
    case FreeWaiting(a, h) => LockHandle(sys, t, h, FreeTaking(a, h))
    case FreeTaking(a, h) =>
      if EntryOf(sys, h).present then Goto(SetEntry(sys, h, EntryOf(sys, h).(present := false)), t, FreeShutting(a, h))
      else Goto(sys, t, FreeDropping(a, h))
    case FreeShutting(a, h) =>
      Goto(SetEntry(sys, h, EntryOf(sys, h).(shutdowns := EntryOf(sys, h).shutdowns + 1)), t, FreeDropping(a, h))
    case FreeDropping(a, h) => Drop(sys, t, a, h)
    case FreeUnlocking(h) => UnlockHandle(sys, t, h, Freed)
  }

  function Run(moves: seq<Move>): System {
    if moves == [] then BOOT else Step(Run(moves[..|moves| - 1]), moves[|moves| - 1])
  }

  // ----- the invariant

  predicate HoldsRegistry(pc: Pc) {
    pc.CreateLocked? || pc.CreateInserting? || pc.UseLocked? || pc.FreeLocked?
  }

  predicate FreesHandle(pc: Pc) {
    pc.FreeWaiting? || pc.FreeTaking? || pc.FreeShutting? || pc.FreeDropping?
  }

  predicate HoldsMutex(pc: Pc) {
    pc.UseInside? || pc.UseRunning? || pc.FreeTaking? || pc.FreeShutting? || pc.FreeDropping? || pc.FreeUnlocking?
  }

  /** What a thread's position says about the handle it works on. */
  predicate ThreadOk(sys: System, t: Tid, pc: Pc) {
    && (HoldsRegistry(pc) <==> sys.lock == Some(t))
    && (pc.CreateInserting? || pc.UseWaiting? || FreesHandle(pc) || HoldsMutex(pc) ==> pc.h < |sys.handles|)
    && (pc.CreateInserting? ==> sys.handles[pc.h].stage.Inserting? && sys.handles[pc.h].worker == t)
    && (FreesHandle(pc) ==> var e := sys.handles[pc.h]; e.stage.Freeing? && e.worker == t && e.shell == pc.addr)
    && (HoldsMutex(pc) ==> sys.handles[pc.h].owner == Some(t))
    && (pc.UseRunning? ==> sys.handles[pc.h].present)
    && (pc.FreeWaiting? || pc.FreeTaking? ==> sys.handles[pc.h].present)
    && (pc.FreeShutting? ==> !sys.handles[pc.h].present && sys.handles[pc.h].shutdowns == 0)
    && (pc.FreeDropping? ==> !sys.handles[pc.h].present && sys.handles[pc.h].shutdowns == 1)
  }

  /** What a handle's record says about the registry, the allocator and the threads. */
  predicate EntryOk(sys: System, h: Handle, e: Entry) {
    && (e.owner.Some? ==> var pc := At(sys, e.owner.value); HoldsMutex(pc) && pc.h == h)
    && (e.stage.Inserting? ==> At(sys, e.worker) == CreateInserting(h) && e.present)
    && (e.stage.Live? <==> e.shell in sys.registry && sys.registry[e.shell] == h)
    && (e.stage.Live? ==> e.present)
    && (e.stage.Freeing? ==> FreesHandle(At(sys, e.worker)) && At(sys, e.worker).h == h)
    && (e.stage.Gone? ==> !e.present && e.shutdowns == 1)
    && (!e.stage.Gone? ==> e.shell in sys.heap && sys.heap[e.shell] == h)
    && e.releases == (if e.stage.Gone? then 1 else 0)
    && e.shutdowns <= (if e.present then 0 else 1)
    && e.shell != NULL
  }

  predicate ThreadAt(sys: System, t: Tid) {
    t in sys.threads && ThreadOk(sys, t, sys.threads[t])
  }

  predicate EntryAt(sys: System, h: Handle) {
    h < |sys.handles| && EntryOk(sys, h, sys.handles[h])
  }

  predicate RegisteredAt(sys: System, a: Addr) {
    a in sys.registry && sys.registry[a] < |sys.handles| && sys.handles[sys.registry[a]].shell == a
  }

  predicate AllocatedAt(sys: System, a: Addr) {
    a in sys.heap && sys.heap[a] < |sys.handles| && sys.handles[sys.heap[a]].shell == a && !sys.handles[sys.heap[a]].stage.Gone?
  }

  ghost predicate Inv(sys: System) {
    && (forall t {:trigger ThreadAt(sys, t)} :: t in sys.threads ==> ThreadAt(sys, t))
    && (forall h: Handle {:trigger EntryAt(sys, h)} :: h < |sys.handles| ==> EntryAt(sys, h))
    && (forall a {:trigger RegisteredAt(sys, a)} :: a in sys.registry ==> RegisteredAt(sys, a))
    && (forall a {:trigger AllocatedAt(sys, a)} :: a in sys.heap ==> AllocatedAt(sys, a))
    && (sys.lock.Some? ==> sys.lock.value in sys.threads)
  }

  // ----- one step disturbs nobody else

  predicate WorksOn(pc: Pc, h: Handle) {
    pc.CreateInserting? || FreesHandle(pc) || HoldsMutex(pc) ==> pc.h == h
  }

  /** What thread `t` may do to the record of one handle. */
  predicate EntryMove(e: Entry, e': Entry, t: Tid) {
    && e'.shell == e.shell
    && ((e'.stage == e.stage && e'.worker == e.worker) || e.worker == t || e.stage.Live?)
    && (e'.owner == e.owner || (e.owner.None? && e'.owner == Some(t)) || (e.owner == Some(t) && e'.owner.None?))
    && ((e'.present == e.present && e'.shutdowns == e.shutdowns) || (e.owner == Some(t) && e.stage.Freeing? && e.worker == t))
  }

  /** A step of `t` that works on handle `h`, or on none if `h` is out of range. */
  ghost predicate Touch(sys: System, sys': System, t: Tid, h: Handle) {
    && sys'.threads == sys.threads[t := At(sys', t)] && t in sys'.threads
    && WorksOn(At(sys, t), h)
    && |sys.handles| <= |sys'.handles|
    && (forall g: Handle :: g < |sys'.handles| && g != h ==> g < |sys.handles| && sys'.handles[g] == sys.handles[g])
    && (h < |sys.handles| ==> EntryMove(sys.handles[h], sys'.handles[h], t))
    && (sys'.lock == sys.lock || (sys.lock.None? && sys'.lock == Some(t)) || (sys.lock == Some(t) && sys'.lock.None?))
    && (if h < |sys'.handles| then
          var a := sys'.handles[h].shell;
          && (|| sys'.registry == sys.registry
              || (sys'.registry == sys.registry[a := h] && h < |sys.handles| && !sys.handles[h].stage.Gone?)
              || (sys'.registry == sys.registry - {a} && a in sys.registry && sys.registry[a] == h))
          && (|| (sys'.heap == sys.heap && h < |sys.handles| && sys'.handles[h].stage.Gone? == sys.handles[h].stage.Gone?)
              || (sys'.heap == sys.heap[a := h] && a !in sys.heap && h == |sys.handles| && !sys'.handles[h].stage.Gone?)
              || (sys'.heap == sys.heap - {a} && a in sys.heap && sys.heap[a] == h))
        else sys'.registry == sys.registry && sys'.heap == sys.heap)
  }

  lemma OtherThread(sys: System, sys': System, t: Tid, h: Handle, u: Tid)
    requires Touch(sys, sys', t, h) && u != t && ThreadAt(sys, u)
    ensures ThreadAt(sys', u)
  {
    var pc := sys.threads[u];
    assert sys'.threads[u] == pc;
    if pc.CreateInserting? || pc.UseWaiting? || FreesHandle(pc) || HoldsMutex(pc) {
      var e, e' := sys.handles[pc.h], sys'.handles[pc.h];
      assert e' == e || (pc.h == h && EntryMove(e, e', t));
      assert HoldsMutex(pc) ==> e'.owner == e.owner && e'.present == e.present && e'.shutdowns == e.shutdowns;
      assert pc.CreateInserting? || FreesHandle(pc) ==> e'.stage == e.stage && e'.worker == e.worker && e'.present == e.present;
    }
  }

  lemma OtherEntry(sys: System, sys': System, t: Tid, h: Handle, g: Handle)
    requires Touch(sys, sys', t, h) && g != h && EntryAt(sys, g)
    requires h < |sys.handles| ==> EntryAt(sys, h)
    ensures EntryAt(sys', g)
  {
    var e := sys.handles[g];
    assert sys'.handles[g] == e;
    if e.owner.Some? {
      assert e.owner.value != t;
      assert At(sys', e.owner.value) == At(sys, e.owner.value);
    }
    if e.stage.Inserting? || e.stage.Freeing? {
      assert e.worker != t;
      assert At(sys', e.worker) == At(sys, e.worker);
    }
    if h < |sys.handles| {
      assert EntryMove(sys.handles[h], sys'.handles[h], t);
      assert !e.stage.Gone? && !sys.handles[h].stage.Gone? ==> e.shell != sys.handles[h].shell;
    }
  }

  lemma OtherRegistered(sys: System, sys': System, t: Tid, h: Handle, a: Addr)
    requires Touch(sys, sys', t, h) && a in sys'.registry
    requires a in sys.registry ==> RegisteredAt(sys, a)
    ensures RegisteredAt(sys', a)
  {
    var g := sys'.registry[a];
    if g != h {
      assert a in sys.registry && sys.registry[a] == g;
      assert sys'.handles[g] == sys.handles[g];
    } else if a in sys.registry && sys.registry[a] == h {
      assert EntryMove(sys.handles[h], sys'.handles[h], t);
    }
  }

  lemma OtherAllocated(sys: System, sys': System, t: Tid, h: Handle, a: Addr)
    requires Touch(sys, sys', t, h) && a in sys'.heap
    requires a in sys.heap ==> AllocatedAt(sys, a)
    ensures AllocatedAt(sys', a)
  {
    var g := sys'.heap[a];
    if g != h {
      assert a in sys.heap && sys.heap[a] == g;
      assert sys'.handles[g] == sys.handles[g];
    } else if a in sys.heap && sys.heap[a] == h {
      assert EntryMove(sys.handles[h], sys'.handles[h], t);
    }
  }

  lemma TouchKeepsInv(sys: System, sys': System, t: Tid, h: Handle)
    requires Inv(sys) && Touch(sys, sys', t, h)
    requires ThreadAt(sys', t)
    requires h < |sys'.handles| ==> EntryAt(sys', h)
    ensures Inv(sys')
  {
    assert h < |sys.handles| ==> EntryAt(sys, h);
    forall u | u in sys'.threads
      ensures ThreadAt(sys', u)
    {
      if u != t {
        assert ThreadAt(sys, u);
        OtherThread(sys, sys', t, h, u);
      }
    }
    forall g: Handle | g < |sys'.handles|
      ensures EntryAt(sys', g)
    {
      if g != h {
        var e := sys'.handles[g];
        assert g < |sys.handles| && sys.handles[g] == e;
        assert EntryAt(sys, g);
        OtherEntry(sys, sys', t, h, g);
      }
    }
    forall a | a in sys'.registry
      ensures RegisteredAt(sys', a)
    {
      assert a in sys.registry ==> RegisteredAt(sys, a);
      OtherRegistered(sys, sys', t, h, a);
    }
    forall a | a in sys'.heap
      ensures AllocatedAt(sys', a)
    {
      assert a in sys.heap ==> AllocatedAt(sys, a);
      OtherAllocated(sys, sys', t, h, a);
    }
  }

  // ----- every step keeps the invariant

  lemma StepKeepsInv(sys: System, m: Move)
    requires Inv(sys)
    ensures Inv(Step(sys, m))
  {
    var t, pc, next := m.tid, At(sys, m.tid), Step(sys, m);
    assert t in sys.threads ==> ThreadAt(sys, t);
    if next != sys {
      var h := if pc.CreateInserting? || FreesHandle(pc) || HoldsMutex(pc) || pc.UseWaiting? then pc.h else |sys.handles|;
      if h < |sys.handles| {
        assert EntryAt(sys, h);
      }
      if pc.FreeLocked? && pc.addr in sys.registry {
        h := sys.registry[pc.addr];
        assert RegisteredAt(sys, pc.addr);
        assert EntryAt(sys, h);
      }
      if m.offered in sys.registry {
        assert RegisteredAt(sys, m.offered);
      }
      if pc.UseLocked? && pc.addr in sys.registry {
        assert RegisteredAt(sys, pc.addr);
      }
      StepTouches(sys, m, h);
      TouchKeepsInv(sys, next, t, h);
    }
  }

  /** The facts one step needs: the moving thread, the handle it works on, and the registry entries it looks at. */
  predicate Context(sys: System, m: Move, h: Handle) {
    && (m.tid in sys.threads ==> ThreadAt(sys, m.tid))
    && (sys.lock == Some(m.tid) ==> m.tid in sys.threads)
    && (h < |sys.handles| ==> EntryAt(sys, h))
    && (m.offered in sys.registry ==> RegisteredAt(sys, m.offered))
    && var pc := At(sys, m.tid);
       if pc.CreateInserting? || FreesHandle(pc) || HoldsMutex(pc) || pc.UseWaiting? then h == pc.h
       else if pc.FreeLocked? && pc.addr in sys.registry then h == sys.registry[pc.addr] && RegisteredAt(sys, pc.addr)
       else h == |sys.handles| && (pc.UseLocked? && pc.addr in sys.registry ==> RegisteredAt(sys, pc.addr))
  }

  ghost predicate Touched(sys: System, next: System, t: Tid, h: Handle) {
    Touch(sys, next, t, h) && ThreadAt(next, t) && (h < |next.handles| ==> EntryAt(next, h))
  }

  lemma StartTouches(sys: System, m: Move, h: Handle)
    requires Step(sys, m) != sys && Context(sys, m, h) && At(sys, m.tid).Idle?
    ensures Touched(sys, Step(sys, m), m.tid, h)
  {
    hide EntryOk, EntryMove;
  }

  lemma AllocateTouches(sys: System, m: Move, h: Handle)
    requires Step(sys, m) != sys && Context(sys, m, h) && At(sys, m.tid).CreateLocked?
    ensures Touched(sys, Step(sys, m), m.tid, h)
  {
  }

  lemma LookUpTouches(sys: System, m: Move, h: Handle)
    requires Step(sys, m) != sys && Context(sys, m, h) && At(sys, m.tid).UseLocked?
    ensures Touched(sys, Step(sys, m), m.tid, h)
  {
    hide EntryOk, EntryMove;
  }

  lemma RemoveTouches(sys: System, m: Move, h: Handle)
    requires Step(sys, m) != sys && Context(sys, m, h) && At(sys, m.tid).FreeLocked?
    ensures Touched(sys, Step(sys, m), m.tid, h)
  {
  }

  lemma InsertTouches(sys: System, m: Move, h: Handle)
    requires Context(sys, m, h) && At(sys, m.tid).CreateInserting?
    ensures Touched(sys, Step(sys, m), m.tid, h)
  {
  }

  lemma UseTouches(sys: System, m: Move, h: Handle)
    requires Step(sys, m) != sys && Context(sys, m, h)
    requires var pc := At(sys, m.tid); pc.UseWaiting? || pc.UseInside?
    ensures Touched(sys, Step(sys, m), m.tid, h)
  {
  }

  lemma UnlockTouches(sys: System, m: Move, h: Handle)
    requires Context(sys, m, h)
    requires var pc := At(sys, m.tid); pc.UseRunning? || pc.FreeUnlocking?
    ensures Touched(sys, Step(sys, m), m.tid, h)
  {
  }

  lemma FreeTouches(sys: System, m: Move, h: Handle)
    requires Step(sys, m) != sys && Context(sys, m, h)
    requires var pc := At(sys, m.tid); pc.FreeWaiting? || pc.FreeTaking? || pc.FreeShutting?
    ensures Touched(sys, Step(sys, m), m.tid, h)
  {
  }

  lemma DropTouches(sys: System, m: Move, h: Handle)
    requires Context(sys, m, h) && At(sys, m.tid).FreeDropping?
    ensures Touched(sys, Step(sys, m), m.tid, h)
  {
  }

  lemma StepTouches(sys: System, m: Move, h: Handle)
    requires Step(sys, m) != sys && Context(sys, m, h)
    ensures Touched(sys, Step(sys, m), m.tid, h)
  {
    var pc := At(sys, m.tid);
    if pc.Idle? {
      StartTouches(sys, m, h);
    } else if pc.CreateLocked? {
      AllocateTouches(sys, m, h);
    } else if pc.CreateInserting? {
      InsertTouches(sys, m, h);
    } else if pc.UseLocked? {
      LookUpTouches(sys, m, h);
    } else if pc.UseWaiting? || pc.UseInside? {
      UseTouches(sys, m, h);
    } else if pc.FreeLocked? {
      RemoveTouches(sys, m, h);
    } else if pc.FreeDropping? {
      DropTouches(sys, m, h);
    } else if pc.UseRunning? || pc.FreeUnlocking? {
      UnlockTouches(sys, m, h);
    } else {
      FreeTouches(sys, m, h);
    }
  }

  lemma {:induction false} RunKeepsInv(moves: seq<Move>)
    ensures Inv(Run(moves))
  {
    if moves != [] {
      RunKeepsInv(moves[..|moves| - 1]);
      StepKeepsInv(Run(moves[..|moves| - 1]), moves[|moves| - 1]);
    }
  }

  lemma RegisteredIsLive(sys: System, a: Addr)
    requires Inv(sys) && a in sys.registry
    ensures var h := sys.registry[a];
            && h < |sys.handles| && sys.handles[h].shell == a && sys.handles[h].stage.Live?
            && a != NULL && a in sys.heap && sys.heap[a] == h
  {
    assert RegisteredAt(sys, a);
    assert EntryAt(sys, sys.registry[a]);
  }

  lemma LiveIsRegistered(sys: System, h: Handle)
    requires Inv(sys) && h < |sys.handles| && sys.handles[h].stage.Live?
    ensures sys.handles[h].shell in sys.registry && sys.registry[sys.handles[h].shell] == h
  {
    assert EntryAt(sys, h);
  }

  lemma StepNeverRestores(sys: System, m: Move, h: Handle)
    requires h < |sys.handles| && !sys.handles[h].present
    ensures h < |Step(sys, m).handles| && !Step(sys, m).handles[h].present
  {
    match At(sys, m.tid)
    case CreateLocked => assert Step(sys, m) == Allocate(sys, m);
    case CreateInserting(g) => assert Step(sys, m) == Insert(sys, m.tid, g);
    case FreeLocked(a) => assert Step(sys, m) == Remove(sys, m.tid, a);
    case FreeDropping(a, g) => assert Step(sys, m) == Drop(sys, m.tid, a, g);
    case _ =>
  }

  // ----- what holds in every interleaving

  /** Every shell is released at most once and every client shut down at most once; an operation runs only on
      resources that are still there, and only under its handle's mutex. */
  lemma ReleasedAtMostOnce(moves: seq<Move>, h: Handle)
    requires h < |Run(moves).handles|
    ensures var sys := Run(moves);
            && sys.handles[h].releases <= 1 && sys.handles[h].shutdowns <= 1
            && (sys.handles[h].releases == 1 ==> sys.handles[h].shutdowns == 1)
            && forall t :: t in sys.threads && sys.threads[t] == UseRunning(h) ==>
                 sys.handles[h].present && sys.handles[h].shutdowns == 0 && sys.handles[h].owner == Some(t)
  {
    var sys := Run(moves);
    RunKeepsInv(moves);
    assert EntryAt(sys, h);
    forall t | t in sys.threads && sys.threads[t] == UseRunning(h)
      ensures sys.handles[h].present && sys.handles[h].owner == Some(t)
    {
      assert ThreadAt(sys, t);
    }
  }

  /** Resources once taken never come back. */
  lemma {:induction false} TakenStaysTaken(moves: seq<Move>, more: seq<Move>, h: Handle)
    requires h < |Run(moves).handles| && !Run(moves).handles[h].present
    ensures h < |Run(moves + more).handles| && !Run(moves + more).handles[h].present
  {
    if more == [] {
      assert moves + more == moves;
    } else {
      assert (moves + more)[..|moves + more| - 1] == moves + more[..|more| - 1];
      TakenStaysTaken(moves, more[..|more| - 1], h);
      StepNeverRestores(Run(moves + more[..|more| - 1]), more[|more| - 1], h);
    }
  }

  /** Every registered pointer is the address of an allocated shell of its own handle, two pointers never share a
      handle, and the shell of a handle being freed is allocated but not registered. */
  ghost predicate Agree(sys: System) {
    && (forall a :: a in sys.registry ==> a != NULL && a in sys.heap && sys.heap[a] == sys.registry[a])
    && (forall a, b :: a in sys.registry && b in sys.registry && sys.registry[a] == sys.registry[b] ==> a == b)
    && (forall h: Handle :: h < |sys.handles| && sys.handles[h].stage.Freeing? ==>
          sys.handles[h].shell in sys.heap && sys.handles[h].shell !in sys.registry)
  }

  lemma FreeingIsUnregistered(sys: System, h: Handle)
    requires Inv(sys) && h < |sys.handles| && sys.handles[h].stage.Freeing?
    ensures sys.handles[h].shell in sys.heap && sys.handles[h].shell !in sys.registry
  {
    assert EntryAt(sys, h);
    if sys.handles[h].shell in sys.registry {
      RegisteredIsLive(sys, sys.handles[h].shell);
    }
  }

  lemma InvMakesAgree(sys: System)
    requires Inv(sys)
    ensures Agree(sys)
  {
    forall a | a in sys.registry
      ensures a != NULL && a in sys.heap && sys.heap[a] == sys.registry[a]
      ensures sys.registry[a] < |sys.handles| && sys.handles[sys.registry[a]].shell == a
    {
      RegisteredIsLive(sys, a);
    }
    forall h: Handle | h < |sys.handles| && sys.handles[h].stage.Freeing?
      ensures sys.handles[h].shell in sys.heap && sys.handles[h].shell !in sys.registry
    {
      FreeingIsUnregistered(sys, h);
    }
  }

  /** Registry and allocator agree in every interleaving. */
  lemma {:induction false} RegistryMatchesAllocator(moves: seq<Move>)
    ensures Agree(Run(moves))
  {
    RunKeepsInv(moves);
    InvMakesAgree(Run(moves));
  }

  /** A new handle never gets the address of a handle that is live or still being freed. */
  lemma NewHandleIsUnaliased(moves: seq<Move>, m: Move, h: Handle)
    requires var sys := Run(moves);
             At(sys, m.tid).CreateLocked? && Step(sys, m) != sys && h < |sys.handles| && sys.handles[h].shell == m.offered
    ensures Run(moves).handles[h].stage.Gone? && Run(moves).handles[h].releases == 1
  {
    RunKeepsInv(moves);
    assert EntryAt(Run(moves), h);
  }

  /** A lookup succeeds exactly for the address of a live handle, and then yields that handle. So a pointer whose
      every handle has been freed, or that never was one, is refused. */
  lemma LookUpIsExact(moves: seq<Move>, m: Move, a: Addr)
    requires At(Run(moves), m.tid) == UseLocked(a)
    ensures var sys, pc := Run(moves), At(Step(Run(moves), m), m.tid);
            && (pc == Idle(Refused) <==> forall h: Handle :: h < |sys.handles| && sys.handles[h].shell == a ==> !sys.handles[h].stage.Live?)
            && (pc != Idle(Refused) ==> pc.UseWaiting? && pc.h < |sys.handles| && sys.handles[pc.h].shell == a && sys.handles[pc.h].stage.Live?)
  {
    var sys := Run(moves);
    RunKeepsInv(moves);
    if a in sys.registry {
      RegisteredIsLive(sys, a);
    }
    forall h: Handle | h < |sys.handles| && sys.handles[h].shell == a && sys.handles[h].stage.Live?
      ensures a in sys.registry
    {
      LiveIsRegistered(sys, h);
    }
  }

  /** The handle has been taken out of the registry for good. */
  predicate Retired(sys: System, h: Handle) {
    h < |sys.handles| && (sys.handles[h].stage.Freeing? || sys.handles[h].stage.Gone?)
  }

  lemma StepKeepsRetired(sys: System, m: Move, h: Handle)
    requires Inv(sys) && Retired(sys, h)
    ensures Retired(Step(sys, m), h) && Step(sys, m).handles[h].shell == sys.handles[h].shell
  {
    hide EntryOk;
    assert m.tid in sys.threads ==> ThreadAt(sys, m.tid);
    match At(sys, m.tid)
    case CreateLocked => assert Step(sys, m) == Allocate(sys, m);
    case CreateInserting(g) => assert Step(sys, m) == Insert(sys, m.tid, g);
    case FreeLocked(a) => assert Step(sys, m) == Remove(sys, m.tid, a);
    case FreeDropping(a, g) => assert Step(sys, m) == Drop(sys, m.tid, a, g);
    case _ =>
  }

  lemma {:induction false} RunKeepsRetired(moves: seq<Move>, more: seq<Move>, h: Handle)
    requires Retired(Run(moves), h)
    ensures Retired(Run(moves + more), h) && Run(moves + more).handles[h].shell == Run(moves).handles[h].shell
  {
    hide Step, Inv;
    if more == [] {
      assert moves + more == moves;
    } else {
      var init := more[..|more| - 1];
      assert (moves + more)[..|moves + more| - 1] == moves + init;
      RunKeepsRetired(moves, init, h);
      RunKeepsInv(moves + init);
      StepKeepsRetired(Run(moves + init), more[|more| - 1], h);
    }
  }

  lemma {:induction false} RunKeepsHandles(moves: seq<Move>, more: seq<Move>)
    ensures |Run(moves).handles| <= |Run(moves + more).handles|
    ensures forall h: Handle :: h < |Run(moves).handles| ==> Run(moves + more).handles[h].shell == Run(moves).handles[h].shell
  {
    hide Step;
    if more == [] {
      assert moves + more == moves;
    } else {
      var init := more[..|more| - 1];
      assert (moves + more)[..|moves + more| - 1] == moves + init;
      RunKeepsHandles(moves, init);
      StepKeepsShells(Run(moves + init), more[|more| - 1]);
    }
  }

  lemma StepKeepsShells(sys: System, m: Move)
    ensures |sys.handles| <= |Step(sys, m).handles|
    ensures forall h: Handle :: h < |sys.handles| ==> Step(sys, m).handles[h].shell == sys.handles[h].shell
  {
    match At(sys, m.tid)
    case CreateLocked => assert Step(sys, m) == Allocate(sys, m);
    case CreateInserting(g) => assert Step(sys, m) == Insert(sys, m.tid, g);
    case FreeLocked(a) => assert Step(sys, m) == Remove(sys, m.tid, a);
    case FreeDropping(a, g) => assert Step(sys, m) == Drop(sys, m.tid, a, g);
    case _ =>
  }

  /** Once a free has unregistered an address, every handle that ever had it is retired. */
  lemma FreeRetires(moves: seq<Move>, free: Move, a: Addr, h: Handle)
    requires At(Run(moves), free.tid) == FreeLocked(a) && a in Run(moves).registry
    requires h < |Run(moves).handles| && Run(moves).handles[h].shell == a
    ensures Retired(Run(moves + [free]), h)
  {
    var sys := Run(moves);
    assert (moves + [free])[..|moves|] == moves;
    RunKeepsInv(moves);
    RegisteredIsLive(sys, a);
    assert EntryAt(sys, h);
    assert Step(sys, free) == Remove(sys, free.tid, a);
  }

  /** Use after free. From the step in which a free unregisters a pointer, through any continuation in which the
      allocator does not hand its address out for a new handle, every use of the pointer is refused. */
  lemma FreedStaysRefused(moves: seq<Move>, free: Move, more: seq<Move>, use: Move, a: Addr)
    requires At(Run(moves), free.tid) == FreeLocked(a) && a in Run(moves).registry
    requires At(Run(moves + [free] + more), use.tid) == UseLocked(a)
    requires forall h: Handle :: |Run(moves).handles| <= h < |Run(moves + [free] + more).handles| ==>
               Run(moves + [free] + more).handles[h].shell != a
    ensures At(Step(Run(moves + [free] + more), use), use.tid) == Idle(Refused)
  {
    hide Step, Run, Inv;
    var sys := Run(moves + [free] + more);
    RunKeepsHandles(moves, [free] + more);
    assert moves + ([free] + more) == moves + [free] + more;
    forall h: Handle | h < |sys.handles| && sys.handles[h].shell == a
      ensures !sys.handles[h].stage.Live?
    {
      FreeRetires(moves, free, a, h);
      RunKeepsRetired(moves + [free], more, h);
    }
    LookUpIsExact(moves + [free] + more, use, a);
  }

  /** Freeing such a pointer again changes nothing but the caller's own progress. */
  lemma {:induction false} SecondFreeIsHarmless(moves: seq<Move>, m: Move, a: Addr)
    requires At(Run(moves), m.tid) == FreeLocked(a)
    requires var sys := Run(moves);
             forall h: Handle :: h < |sys.handles| && sys.handles[h].shell == a ==> !sys.handles[h].stage.Live?
    ensures var sys, next := Run(moves), Step(Run(moves), m);
            At(next, m.tid) == Idle(Nothing) && next.registry == sys.registry && next.heap == sys.heap && next.handles == sys.handles
  {
    var sys := Run(moves);
    RunKeepsInv(moves);
    if a in sys.registry {
      RegisteredIsLive(sys, a);
    }
  }
}
