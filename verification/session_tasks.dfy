/** Many tasks share one client: every interleaving of host operations and renewal ticks.

    Each step is what a task does between two points where another task can run. Only the code from taking the
    initialisation lock to releasing it is mutually exclusive; the operation itself runs outside the lock. */
module SessionTasks {
  import opened Wrappers
  import opened DesiredState
  import opened ControllerModel
  import opened ClientSession

  type TaskId = nat

  datatype Task =
    | Idle
    | Reaching(op: HostOp)                           // the transport connection comes first
    | Waiting(op: HostOp)                            // for the initialisation lock
    | Reading(op: HostOp)                            // the session identifier and the replay flag
    | Renewing(op: HostOp, s: SessionId, pending: bool)
    | Registering(op: HostOp)
    | Replaying(op: HostOp, s: SessionId, todo: seq<Ack>)
    | Ready(op: HostOp)                              // the session is ensured and the lock released
    | Calling(op: HostOp, s: SessionId)              // the identifier is read, the request not yet sent
    | Remembering(ack: Ack)                          // the request is acknowledged, the cache not yet updated
  {
    predicate InSection() {
      Reading? || Renewing? || Registering? || Replaying?
    }
  }

  /** `missing` counts the "not registered" replies to renewals. */
  datatype System = System(tasks: map<TaskId, Task>, lock: Option<TaskId>, state: State, missing: nat)

  const BOOT := System(map[], None, START, 0)

  /** The scheduler's choice: which task runs, the operation it starts if it is idle, and its replay order. */
  datatype Move = Move(task: TaskId, op: HostOp, plan: Plan)

  function At(sys: System, t: TaskId): Task {
    if t in sys.tasks then sys.tasks[t] else Idle
  }

  function Goto(sys: System, t: TaskId, next: Task): System {
    sys.(tasks := sys.tasks[t := next])
  }

  function Leave(sys: System, t: TaskId, next: Task): System {
    Goto(sys.(lock := None), t, next)
  }

  function InWorld(sys: System, w: World): System {
    sys.(state := sys.state.(world := w))
  }

  function WithSession(sys: System, id: Option<SessionId>, pending: bool): System {
    sys.(state := sys.state.(session := Session(id, pending, sys.state.session.cache)))
  }

  function RenewStep(sys: System, m: Move, op: HostOp, s: SessionId, pending: bool, o: Oracle): System {
    var (w, r) := Visit(sys.state.world, o, s);
    var next := InWorld(sys, w);
    match r
    case Ok(_) => if pending then Goto(next, m.task, Replaying(op, s, Requests(m.plan))) else Leave(next, m.task, Ready(op))
    case Err(NotRegistered) =>
      Goto(WithSession(next, None, sys.state.session.pending).(missing := sys.missing + 1), m.task, Registering(op))
    case Err(Failed) => Leave(next, m.task, Idle)
  }

  function RegisterStep(sys: System, m: Move, op: HostOp, o: Oracle): System {
    var (w, r) := Register(sys.state.world, o);
    match r
    case Err(_) => Leave(InWorld(sys, w), m.task, Idle)
    case Ok(s) => Goto(WithSession(InWorld(sys, w), Some(s), true), m.task, Replaying(op, s, Requests(m.plan)))
  }

  function ReplayStep(sys: System, m: Move, op: HostOp, s: SessionId, todo: seq<Ack>, o: Oracle): System {
    if todo == [] then Leave(WithSession(sys, sys.state.session.id, false), m.task, Ready(op))
    else
      var (w, r) := Send(sys.state.world, o, s, todo[0]);
      if r.Err? then Leave(InWorld(sys, w), m.task, Idle)
      else Goto(InWorld(sys, w), m.task, Replaying(op, s, todo[1..]))
  }

  function CallStep(sys: System, t: TaskId, op: HostOp, s: SessionId, o: Oracle): System {
    var w := sys.state.world;
    match op
    case Attach(space) =>
      var (w1, r) := Send(w, o, s, Attached(space));
      Goto(InWorld(sys, w1), t, if r.Ok? then Remembering(Attached(space)) else Idle)
    case Enable(b, q) =>
      var (w1, r) := Send(w, o, s, Enabled(b, q));
      Goto(InWorld(sys, w1), t, if r.Ok? then Remembering(Enabled(b, q)) else Idle)
    case Detach(id) =>
      var (w1, r) := Ask(w, o, s, Detached(id));
      Goto(InWorld(sys, w1), t, if r == Ok(true) then Remembering(Detached(id)) else Idle)
    case Disable(b, k) =>
      var (w1, r) := Ask(w, o, s, Disabled(b, k));
      Goto(InWorld(sys, w1), t, if r == Ok(true) then Remembering(Disabled(b, k)) else Idle)
    case _ => Goto(InWorld(sys, Visit(w, o, s).0), t, Idle)
  }

  /** One step of the chosen task; a task that cannot move leaves the system as it is. */
  function Step(sys: System, m: Move, o: Oracle): System {
    var session := sys.state.session;
    match At(sys, m.task)
    case Idle => if m.op.Shutdown? then sys else Goto(sys, m.task, Reaching(m.op))
    case Reaching(op) =>
      var (w, up) := Reach(sys.state.world, o);
      Goto(InWorld(sys, w), m.task, if up && !(op.Inspect? && session.id.None?) then Waiting(op) else Idle)
    case Waiting(op) => if sys.lock.Some? then sys else Goto(sys.(lock := Some(m.task)), m.task, Reading(op))
    case Reading(op) =>
      Goto(sys, m.task, if session.id.Some? then Renewing(op, session.id.value, session.pending) else Registering(op))
    case Renewing(op, s, pending) => RenewStep(sys, m, op, s, pending, o)
    case Registering(op) => RegisterStep(sys, m, op, o)
    case Replaying(op, s, todo) => ReplayStep(sys, m, op, s, todo, o)
    case Ready(op) =>
      Goto(sys, m.task, if op.Connect? || session.id.None? then Idle else Calling(op, session.id.value))
    case Calling(op, s) => CallStep(sys, m.task, op, s, o)
    case Remembering(a) => Goto(sys.(state := Remember(sys.state, a)), m.task, Idle)
  }

  function Run(moves: seq<Move>, o: Oracle): System {
    if moves == [] then BOOT else Step(Run(moves[..|moves| - 1], o), moves[|moves| - 1], o)
  }

  // ----- at most one session

  function Held(st: State): set<SessionId> {
    if st.session.id.Some? then {st.session.id.value} else {}
  }

  /** A task inside the locked section knows the session identifier. */
  predicate Informed(task: Task, st: State) {
    && (task.Renewing? ==> st.session.id == Some(task.s))
    && (task.Registering? ==> st.session.id == None)
    && (task.Replaying? ==> st.session.id == Some(task.s))
  }

  ghost predicate Consistent(sys: System) {
    && (forall t :: t in sys.tasks ==> (sys.tasks[t].InSection() <==> sys.lock == Some(t)))
    && (sys.lock.Some? ==> sys.lock.value in sys.tasks)
    && (forall t :: t in sys.tasks ==> Informed(sys.tasks[t], sys.state))
    && |sys.state.world.logs| == sys.missing + |Held(sys.state)|
    && sys.state.world.live <= Held(sys.state)
  }

  /** What one task changes: the other tasks stay, and only the locked section changes the session identifier. */
  ghost predicate Moves(sys: System, sys': System, t: TaskId) {
    && sys'.tasks == sys.tasks[t := At(sys', t)]
    && t in sys'.tasks
    && (At(sys', t).InSection() <==> sys'.lock == Some(t))
    && (sys.lock != Some(t) ==> sys'.state.session.id == sys.state.session.id && (sys'.lock == sys.lock || sys.lock == None))
    && (sys.lock == Some(t) ==> sys'.lock == None || sys'.lock == Some(t))
    && (sys'.lock == Some(t) || sys'.lock == sys.lock || sys'.lock == None)
    && Informed(At(sys', t), sys'.state)
    && |sys'.state.world.logs| == sys'.missing + |Held(sys'.state)|
    && sys'.state.world.live <= Held(sys'.state)
  }

  lemma MovesKeepsConsistent(sys: System, sys': System, t: TaskId)
    requires Consistent(sys) && Moves(sys, sys', t)
    ensures Consistent(sys')
  {
    forall u | u in sys'.tasks
      ensures (sys'.tasks[u].InSection() <==> sys'.lock == Some(u)) && Informed(sys'.tasks[u], sys'.state)
    {
      if u != t {
        assert sys'.tasks[u] == sys.tasks[u];
      }
    }
  }

  lemma RenewMoves(sys: System, m: Move, o: Oracle)
    requires Consistent(sys) && At(sys, m.task).Renewing?
    ensures Moves(sys, Step(sys, m, o), m.task)
  {
  }

  lemma RegisterMoves(sys: System, m: Move, o: Oracle)
    requires Consistent(sys) && At(sys, m.task).Registering?
    ensures Moves(sys, Step(sys, m, o), m.task)
  {
  }

  lemma ReplayMoves(sys: System, m: Move, o: Oracle)
    requires Consistent(sys) && At(sys, m.task).Replaying?
    ensures Moves(sys, Step(sys, m, o), m.task)
  {
  }

  lemma CallMoves(sys: System, m: Move, o: Oracle)
    requires Consistent(sys) && At(sys, m.task).Calling?
    ensures Moves(sys, Step(sys, m, o), m.task)
  {
  }

  lemma {:induction false} StepKeepsConsistent(sys: System, m: Move, o: Oracle)
    requires Consistent(sys)
    ensures Consistent(Step(sys, m, o))
  {
    var task := At(sys, m.task);
    if task.Renewing? {
      RenewMoves(sys, m, o);
    } else if task.Registering? {
      RegisterMoves(sys, m, o);
    } else if task.Replaying? {
      ReplayMoves(sys, m, o);
    } else if task.Calling? {
      CallMoves(sys, m, o);
    }
    if Step(sys, m, o) != sys {
      MovesKeepsConsistent(sys, Step(sys, m, o), m.task);
    }
  }

  /** In every interleaving of any number of tasks the client has registered exactly once more than renewals were
      answered "not registered" while it holds a session, and exactly as often while it holds none; the only
      session of its own that can be live is the one it holds; and no two tasks are ever in the locked section. */
  lemma {:induction false} OneSessionAtATime(moves: seq<Move>, o: Oracle)
    ensures var sys := Run(moves, o);
            && |sys.state.world.logs| == sys.missing + |Held(sys.state)|
            && |sys.state.world.logs| <= sys.missing + 1
            && sys.state.world.live <= Held(sys.state)
            && (forall t, u :: t in sys.tasks && u in sys.tasks && sys.tasks[t].InSection() && sys.tasks[u].InSection() ==> t == u)
    ensures Consistent(Run(moves, o))
  {
    if moves != [] {
      OneSessionAtATime(moves[..|moves| - 1], o);
      StepKeepsConsistent(Run(moves[..|moves| - 1], o), moves[|moves| - 1], o);
    }
  }

  /** A renewal that fails for any other reason than a lost session keeps the session and registers nothing, now
      and for as long as no renewal is answered "not registered". */
  lemma {:induction false} NoReregistrationWithoutLoss(moves: seq<Move>, more: seq<Move>, o: Oracle)
    requires Run(moves, o).state.session.id.Some?
    requires Run(moves + more, o).missing == Run(moves, o).missing
    ensures Run(moves + more, o).state.session.id == Run(moves, o).state.session.id
    ensures |Run(moves + more, o).state.world.logs| == |Run(moves, o).state.world.logs|
  {
    hide Step;
    if more == [] {
      assert moves + more == moves;
    } else {
      var init, last := more[..|more| - 1], more[|more| - 1];
      assert (moves + more)[..|moves + more| - 1] == moves + init;
      MissingGrows(moves, init, o);
      OneSessionAtATime(moves + init, o);
      StepNeverForgets(Run(moves + init, o), last, o);
      NoReregistrationWithoutLoss(moves, init, o);
      StepWithoutLoss(Run(moves + init, o), last, o);
    }
  }

  lemma StepWithoutLoss(sys: System, m: Move, o: Oracle)
    requires Consistent(sys) && sys.state.session.id.Some?
    ensures var next := Step(sys, m, o);
            sys.missing <= next.missing &&
            (next.missing == sys.missing ==>
               next.state.session.id == sys.state.session.id && |next.state.world.logs| == |sys.state.world.logs|)
  {
    var task := At(sys, m.task);
    if task.Calling? {
      CallMoves(sys, m, o);
    } else if task.Registering? {
      RegisterMoves(sys, m, o);
    }
  }

  lemma StepNeverForgets(sys: System, m: Move, o: Oracle)
    ensures sys.missing <= Step(sys, m, o).missing
  {
  }

  lemma {:induction false} MissingGrows(moves: seq<Move>, more: seq<Move>, o: Oracle)
    ensures Run(moves, o).missing <= Run(moves + more, o).missing
  {
    if more == [] {
      assert moves + more == moves;
    } else {
      hide Step;
      assert (moves + more)[..|moves + more| - 1] == moves + more[..|more| - 1];
      MissingGrows(moves, more[..|more| - 1], o);
      StepNeverForgets(Run(moves + more[..|more| - 1], o), more[|more| - 1], o);
    }
  }

  // ----- a task left alone does what the sequential client does

  function Solo(sys: System, m: Move, o: Oracle, n: nat): System
    decreases n
  {
    if n == 0 then sys else Solo(Step(sys, m, o), m, o, n - 1)
  }

  lemma {:induction false} SoloReplay(sys: System, m: Move, op: HostOp, s: SessionId, todo: seq<Ack>, o: Oracle) returns (n: nat)
    requires At(sys, m.task) == Replaying(op, s, todo)
    ensures var (w, r) := SendAll(sys.state.world, o, s, todo);
            var end := Solo(sys, m, o, n);
            && At(end, m.task) == (if r.Ok? then Ready(op) else Idle)
            && end.lock.None?
            && end.state == State(if r.Ok? then sys.state.session.(pending := false) else sys.state.session, w)
    decreases |todo|
  {
    var next := Step(sys, m, o);
    if todo == [] || Send(sys.state.world, o, s, todo[0]).1.Err? {
      n := 1;
      assert Solo(sys, m, o, 1) == Solo(next, m, o, 0);
    } else {
      var k := SoloReplay(next, m, op, s, todo[1..], o);
      n := k + 1;
    }
  }

  /** From waiting for a free lock, a task that is not interrupted ends exactly as `EnsureSession` says. */
  lemma SoloTaskEnsures(sys: System, m: Move, op: HostOp, o: Oracle) returns (n: nat)
    requires At(sys, m.task) == Waiting(op) && sys.lock.None?
    ensures var (st, ok) := EnsureSession(sys.state, m.plan, o);
            var end := Solo(sys, m, o, n);
            end.state == st && end.lock.None? && At(end, m.task) == (if ok then Ready(op) else Idle)
  {
    var next := Step(sys, m, o);
    var read := Step(next, m, o);
    var k := SoloRest(read, m, op, o);
    assert Solo(next, m, o, k + 1) == Solo(read, m, o, k);
    n := k + 2;
  }

  /** The same from the point where the session state has been read: without a session. */
  lemma SoloRest(sys: System, m: Move, op: HostOp, o: Oracle) returns (n: nat)
    requires var session := sys.state.session;
             At(sys, m.task) == if session.id.Some? then Renewing(op, session.id.value, session.pending) else Registering(op)
    ensures var (st, ok) := EnsureSession(sys.state, m.plan, o);
            var end := Solo(sys, m, o, n);
            end.state == st && end.lock.None? && At(end, m.task) == (if ok then Ready(op) else Idle)
  {
    if sys.state.session.id.None? {
      n := SoloRegister(sys, m, op, o);
    } else {
      n := SoloRenew(sys, m, op, sys.state.session.id.value, o);
    }
  }

  /** With a session, the renewal decides. It is answered "not registered": */
  lemma SoloLost(sys: System, m: Move, op: HostOp, s: SessionId, o: Oracle) returns (n: nat)
    requires sys.state.session.id == Some(s) && At(sys, m.task) == Renewing(op, s, sys.state.session.pending)
    requires Visit(sys.state.world, o, s).1 == Err(NotRegistered)
    ensures var (st, ok) := EnsureSession(sys.state, m.plan, o);
            var end := Solo(sys, m, o, n);
            end.state == st && end.lock.None? && At(end, m.task) == (if ok then Ready(op) else Idle)
  {
    hide Requests, Recover, SendAll, Send, Register;
    var next := Step(sys, m, o);
    var k := SoloRegister(next, m, op, o);
    n := k + 1;
    assert Solo(sys, m, o, k + 1) == Solo(next, m, o, k);
  }

  /** It succeeds, and a replay is pending: */
  lemma SoloResumes(sys: System, m: Move, op: HostOp, s: SessionId, o: Oracle) returns (n: nat)
    requires sys.state.session.id == Some(s) && At(sys, m.task) == Renewing(op, s, true) && sys.state.session.pending
    requires Visit(sys.state.world, o, s).1.Ok?
    ensures var (st, ok) := EnsureSession(sys.state, m.plan, o);
            var end := Solo(sys, m, o, n);
            end.state == st && end.lock.None? && At(end, m.task) == (if ok then Ready(op) else Idle)
  {
    hide Requests, Recover, SendAll, Send, Register;
    var next := Step(sys, m, o);
    var k := SoloReplay(next, m, op, s, Requests(m.plan), o);
    n := k + 1;
    assert Solo(sys, m, o, k + 1) == Solo(next, m, o, k);
  }

  lemma SoloRenew(sys: System, m: Move, op: HostOp, s: SessionId, o: Oracle) returns (n: nat)
    requires sys.state.session.id == Some(s) && At(sys, m.task) == Renewing(op, s, sys.state.session.pending)
    ensures var (st, ok) := EnsureSession(sys.state, m.plan, o);
            var end := Solo(sys, m, o, n);
            end.state == st && end.lock.None? && At(end, m.task) == (if ok then Ready(op) else Idle)
  {
    hide Requests, Recover, SendAll, Send, Register;
    var renewed := Visit(sys.state.world, o, s).1;
    if renewed == Err(NotRegistered) {
      n := SoloLost(sys, m, op, s, o);
    } else if renewed.Ok? && sys.state.session.pending {
      n := SoloResumes(sys, m, op, s, o);
    } else {
      n := 1;
      assert Solo(sys, m, o, 1) == Solo(Step(sys, m, o), m, o, 0);
    }
  }

  lemma SoloRegister(sys: System, m: Move, op: HostOp, o: Oracle) returns (n: nat)
    requires At(sys, m.task) == Registering(op)
    ensures var (st, ok) := Recover(sys.state, m.plan, o);
            var end := Solo(sys, m, o, n);
            end.state == st && end.lock.None? && At(end, m.task) == (if ok then Ready(op) else Idle)
  {
    var next := Step(sys, m, o);
    var task := At(next, m.task);
    if task.Replaying? {
      var k := SoloReplay(next, m, op, task.s, task.todo, o);
      n := k + 1;
    } else {
      n := 1;
      assert Solo(sys, m, o, 1) == Solo(next, m, o, 0);
    }
  }

  lemma SoloAdds(sys: System, m: Move, o: Oracle, i: nat, j: nat)
    ensures Solo(sys, m, o, i + j) == Solo(Solo(sys, m, o, i), m, o, j)
    decreases i
  {
    hide Step;
    if i > 0 {
      SoloAdds(Step(sys, m, o), m, o, i - 1, j);
    }
  }

  lemma SoloOne(sys: System, m: Move, o: Oracle)
    ensures Solo(sys, m, o, 1) == Step(sys, m, o)
  {
    hide Step;
    assert Solo(sys, m, o, 1) == Solo(Step(sys, m, o), m, o, 0);
  }

  /** Once its session is ensured, a task that is not interrupted ends exactly as `Act` says. */
  lemma SoloTaskActs(sys: System, m: Move, op: HostOp, o: Oracle) returns (n: nat)
    requires At(sys, m.task) == Ready(op) && !op.Shutdown?
    ensures var end := Solo(sys, m, o, n);
            end.state == Act(sys.state, op, o).0 && end.lock == sys.lock && At(end, m.task) == Idle
  {
    var called := Step(sys, m, o);
    SoloOne(sys, m, o);
    n := 1;
    if At(called, m.task).Calling? {
      var done := Step(called, m, o);
      SoloOne(called, m, o);
      SoloAdds(sys, m, o, 1, 1);
      n := 2;
      if At(done, m.task).Remembering? {
        SoloOne(done, m, o);
        SoloAdds(sys, m, o, 2, 1);
        n := 3;
      }
    }
  }

  /** From idle to idle: an operation that is not interrupted ends exactly as `Perform` says. So this machine and the
      sequential client are of the same code. */
  lemma SoloTaskPerforms(sys: System, m: Move, o: Oracle) returns (n: nat)
    requires At(sys, m.task) == Idle && sys.lock.None? && !m.op.Shutdown?
    ensures var end := Solo(sys, m, o, n);
            end.state == Perform(sys.state, m.op, m.plan, o).0 && end.lock.None? && At(end, m.task) == Idle
  {
    hide EnsureSession, Act;
    var reached := Step(Step(sys, m, o), m, o);
    SoloOne(sys, m, o);
    SoloOne(Step(sys, m, o), m, o);
    SoloAdds(sys, m, o, 1, 1);
    n := 2;
    if At(reached, m.task).Waiting? {
      var k := SoloTaskEnsures(reached, m, m.op, o);
      SoloAdds(sys, m, o, 2, k);
      n := 2 + k;
      var ensured := Solo(reached, m, o, k);
      if At(ensured, m.task).Ready? {
        var j := SoloTaskActs(ensured, m, m.op, o);
        SoloAdds(sys, m, o, 2 + k, j);
        n := 2 + k + j;
      }
    }
  }
}
