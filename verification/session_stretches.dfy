/** Stretches of a run in which one task moves without interruption, and where they lead. */
module SessionStretches {
  import opened Wrappers
  import opened DesiredState
  import opened ControllerModel
  import opened ClientSession
  import opened SessionTasks
  import opened SessionCourse

  const NO_PLAN := Plan([], [], [])

  // ----- rules that are easy to check

  /** Three rules that keep a run on course. The last one looks at the order of debts. */
  datatype Rule = NoAckInReplay | NoReplayWhileOwed | PaidInTurn

  ghost predicate Obeys(sys: System, owed: seq<Debt>, m: Move, o: Oracle, rule: Rule) {
    var task, next := At(sys, m.task), At(Step(sys, m, o), m.task);
    match rule
    case NoAckInReplay => next.Remembering? && !task.Remembering? ==> forall t :: !Replays(sys, t)
    case NoReplayWhileOwed => next.Replaying? && !task.Replaying? ==> forall t :: t in sys.tasks ==> !sys.tasks[t].Remembering?
    case PaidInTurn => task.Remembering? ==> owed != [] && owed[0].task == m.task
  }

  ghost predicate RunObeys(moves: seq<Move>, o: Oracle, rule: Rule) {
    moves == [] ||
    (RunObeys(moves[..|moves| - 1], o, rule)
     && Obeys(Run(moves[..|moves| - 1], o), Owed(moves[..|moves| - 1], o), moves[|moves| - 1], o, rule))
  }

  function Holding(id: SessionId, pending: bool, cache: Desired, w: World): State {
    State(Session(Some(id), pending, cache), w)
  }

  // ----- one task moving alone

  /** The step fits and keeps those of the first two rules that may not be broken. */
  ghost predicate StepFits(sys: System, m: Move, o: Oracle, broken: set<Rule>) {
    && Fits(sys, m)
    && (NoAckInReplay !in broken ==> Obeys(sys, [], m, o, NoAckInReplay))
    && (NoReplayWhileOwed !in broken ==> Obeys(sys, [], m, o, NoReplayWhileOwed))
  }

  /** So do the next steps. */
  ghost predicate FitsAll(sys: System, m: Move, o: Oracle, broken: set<Rule>, n: nat)
    decreases n
  {
    n == 0 || (StepFits(sys, m, o, broken) && FitsAll(Step(sys, m, o), m, o, broken, n - 1))
  }

  /** A run that has kept them so far. */
  ghost predicate Clean(moves: seq<Move>, o: Oracle, broken: set<Rule>) {
    && Orderly(moves, o)
    && (NoAckInReplay !in broken ==> RunObeys(moves, o, NoAckInReplay))
    && (NoReplayWhileOwed !in broken ==> RunObeys(moves, o, NoReplayWhileOwed))
  }

  function Repeat(m: Move, n: nat): seq<Move> {
    seq(n, _ => m)
  }

  lemma {:induction false} Play(moves: seq<Move>, m: Move, n: nat, o: Oracle, broken: set<Rule>)
    requires Clean(moves, o, broken) && FitsAll(Run(moves, o), m, o, broken, n)
    ensures Clean(moves + Repeat(m, n), o, broken)
    ensures Run(moves + Repeat(m, n), o) == Solo(Run(moves, o), m, o, n)
    decreases n
  {
    hide Step, Fits;
    if n == 0 {
      assert moves + Repeat(m, 0) == moves;
    } else {
      var longer := moves + [m];
      assert longer[..|moves|] == moves;
      Play(longer, m, n - 1, o, broken);
      assert moves + Repeat(m, n) == longer + Repeat(m, n - 1);
    }
  }

  /** The run so far, one stretch longer. */
  lemma Extend(moves: seq<Move>, m: Move, n: nat, o: Oracle, broken: set<Rule>) returns (longer: seq<Move>)
    requires Clean(moves, o, broken) && FitsAll(Run(moves, o), m, o, broken, n)
    ensures longer == moves + Repeat(m, n)
    ensures Clean(longer, o, broken) && Run(longer, o) == Solo(Run(moves, o), m, o, n)
  {
    Play(moves, m, n, o, broken);
    longer := moves + Repeat(m, n);
  }

  lemma OneStep(sys: System, m: Move, o: Oracle, broken: set<Rule>)
    requires StepFits(sys, m, o, broken)
    ensures FitsAll(sys, m, o, broken, 1) && Solo(sys, m, o, 1) == Step(sys, m, o)
  {
    hide Step, StepFits;
    SoloOne(sys, m, o);
    assert FitsAll(Step(sys, m, o), m, o, broken, 0);
  }

  lemma FitsAdds(sys: System, m: Move, o: Oracle, broken: set<Rule>, i: nat, j: nat)
    requires FitsAll(sys, m, o, broken, i) && FitsAll(Solo(sys, m, o, i), m, o, broken, j)
    ensures FitsAll(sys, m, o, broken, i + j) && Solo(sys, m, o, i + j) == Solo(Solo(sys, m, o, i), m, o, j)
    decreases i
  {
    hide Step, StepFits;
    if i > 0 {
      FitsAdds(Step(sys, m, o), m, o, broken, i - 1, j);
    }
  }

  /** From idle into the locked section. */
  lemma Enter(sys: System, m: Move, o: Oracle, broken: set<Rule>)
    requires At(sys, m.task) == Idle && sys.lock.None? && !m.op.Shutdown? && !m.op.Inspect?
    requires !o(sys.state.world.calls).fails && o(sys.state.world.calls).gone == {}
    ensures FitsAll(sys, m, o, broken, 4)
    ensures var w, session := sys.state.world, sys.state.session;
            Solo(sys, m, o, 4) ==
            System(sys.tasks[m.task := if session.id.Some? then Renewing(m.op, session.id.value, session.pending) else Registering(m.op)],
                   Some(m.task), State(session, w.(calls := w.calls + 1)), sys.missing)
  {
    var t, w, session := m.task, sys.state.world, sys.state.session;
    var s2 := System(sys.tasks[t := Waiting(m.op)], None, State(session, w.(calls := w.calls + 1)), sys.missing);
    assert Step(Step(sys, m, o), m, o) == s2;
    TwoSteps(sys, m, o, broken);
    TwoSteps(s2, m, o, broken);
    FitsAdds(sys, m, o, broken, 2, 2);
  }

  lemma TwoSteps(sys: System, m: Move, o: Oracle, broken: set<Rule>)
    requires StepFits(sys, m, o, broken) && StepFits(Step(sys, m, o), m, o, broken)
    ensures FitsAll(sys, m, o, broken, 2) && Solo(sys, m, o, 2) == Step(Step(sys, m, o), m, o)
  {
    hide Step, StepFits;
    OneStep(sys, m, o, broken);
    OneStep(Step(sys, m, o), m, o, broken);
    FitsAdds(sys, m, o, broken, 1, 1);
  }

  lemma RegisterAlone(sys: System, m: Move, o: Oracle, broken: set<Rule>)
    requires At(sys, m.task) == Registering(m.op) && IsPlan(m.plan, sys.state.session.cache) && !o(sys.state.world.calls).fails
    requires o(sys.state.world.calls).gone == {} && sys.state.world.live == {}
    requires NoReplayWhileOwed in broken || forall t :: t in sys.tasks ==> !sys.tasks[t].Remembering?
    ensures FitsAll(sys, m, o, broken, 1)
    ensures var w, s := sys.state.world, |sys.state.world.logs|;
            Solo(sys, m, o, 1) == System(sys.tasks[m.task := Replaying(m.op, s, Requests(m.plan))], sys.lock,
              Holding(s, true, sys.state.session.cache, World(w.calls + 1, {s}, w.logs + [[]])), sys.missing)
  {
    OneStep(sys, m, o, broken);
  }

  /** The renewal is answered "not registered". */
  lemma LoseAlone(sys: System, m: Move, s: SessionId, pending: bool, o: Oracle, broken: set<Rule>)
    requires At(sys, m.task) == Renewing(m.op, s, pending) && IsPlan(m.plan, sys.state.session.cache)
    requires !o(sys.state.world.calls).fails && o(sys.state.world.calls).gone == {s} == sys.state.world.live
    ensures FitsAll(sys, m, o, broken, 1)
    ensures var w := sys.state.world;
            Solo(sys, m, o, 1) == System(sys.tasks[m.task := Registering(m.op)], sys.lock,
              State(Session(None, sys.state.session.pending, sys.state.session.cache), World(w.calls + 1, {}, w.logs)), sys.missing + 1)
  {
    OneStep(sys, m, o, broken);
  }

  lemma RenewAlone(sys: System, m: Move, s: SessionId, o: Oracle, broken: set<Rule>)
    requires At(sys, m.task) == Renewing(m.op, s, false) && IsPlan(m.plan, sys.state.session.cache)
    requires !o(sys.state.world.calls).fails && o(sys.state.world.calls).gone == {} && s in sys.state.world.live
    ensures FitsAll(sys, m, o, broken, 1)
    ensures var w := sys.state.world;
            Solo(sys, m, o, 1) == System(sys.tasks[m.task := Ready(m.op)], None, State(sys.state.session, w.(calls := w.calls + 1)), sys.missing)
  {
    OneStep(sys, m, o, broken);
  }

  /** One replay request goes through. */
  lemma SendAlone(sys: System, m: Move, s: SessionId, todo: seq<Ack>, o: Oracle, broken: set<Rule>)
    requires At(sys, m.task) == Replaying(m.op, s, todo) && todo != []
    requires !o(sys.state.world.calls).fails && o(sys.state.world.calls).gone == {} && s in sys.state.world.live && s < |sys.state.world.logs|
    ensures FitsAll(sys, m, o, broken, 1)
    ensures var w := sys.state.world;
            Solo(sys, m, o, 1) == System(sys.tasks[m.task := Replaying(m.op, s, todo[1..])], sys.lock,
              State(sys.state.session, World(w.calls + 1, w.live, w.logs[s := w.logs[s] + [todo[0]]])), sys.missing)
  {
    OneStep(sys, m, o, broken);
  }

  lemma FinishAlone(sys: System, m: Move, s: SessionId, o: Oracle, broken: set<Rule>)
    requires At(sys, m.task) == Replaying(m.op, s, []) && sys.state.session.id == Some(s)
    ensures FitsAll(sys, m, o, broken, 1)
    ensures Solo(sys, m, o, 1) == System(sys.tasks[m.task := Ready(m.op)], None,
              Holding(s, false, sys.state.session.cache, sys.state.world), sys.missing)
  {
    OneStep(sys, m, o, broken);
  }

  lemma LeaveAlone(sys: System, m: Move, s: SessionId, o: Oracle, broken: set<Rule>)
    requires At(sys, m.task) == Ready(m.op) && sys.state.session.id == Some(s)
    ensures FitsAll(sys, m, o, broken, 1)
    ensures Solo(sys, m, o, 1) == Goto(sys, m.task, if m.op.Connect? then Idle else Calling(m.op, s))
  {
    OneStep(sys, m, o, broken);
  }

  /** The controller acknowledges the change of an attach or a detach. */
  lemma AckAlone(sys: System, m: Move, s: SessionId, a: Ack, o: Oracle, broken: set<Rule>)
    requires At(sys, m.task) == Calling(m.op, s)
    requires (m.op.Attach? && a == Attached(m.op.space)) || (m.op.Detach? && a == Detached(m.op.spaceId) && o(sys.state.world.calls).answer)
    requires !o(sys.state.world.calls).fails && o(sys.state.world.calls).gone == {} && s in sys.state.world.live && s < |sys.state.world.logs|
    requires NoAckInReplay in broken || forall t :: !Replays(sys, t)
    ensures FitsAll(sys, m, o, broken, 1)
    ensures var w := sys.state.world;
            Solo(sys, m, o, 1) == System(sys.tasks[m.task := Remembering(a)], sys.lock,
              State(sys.state.session, World(w.calls + 1, w.live, w.logs[s := w.logs[s] + [a]])), sys.missing)
  {
    OneStep(sys, m, o, broken);
  }

  lemma RememberAlone(sys: System, m: Move, a: Ack, o: Oracle, broken: set<Rule>)
    requires At(sys, m.task) == Remembering(a)
    ensures FitsAll(sys, m, o, broken, 1)
    ensures Solo(sys, m, o, 1) == Goto(sys.(state := Remember(sys.state, a)), m.task, Idle)
  {
    hide Apply;
    OneStep(sys, m, o, broken);
  }

  lemma ReadAlone(sys: System, m: Move, s: SessionId, o: Oracle, broken: set<Rule>)
    requires At(sys, m.task) == Reading(m.op) && sys.state.session.id == Some(s)
    ensures FitsAll(sys, m, o, broken, 1)
    ensures Solo(sys, m, o, 1) == Goto(sys, m.task, Renewing(m.op, s, sys.state.session.pending))
  {
    OneStep(sys, m, o, broken);
  }

  /** A replay left pending begins again. */
  lemma BeginAlone(sys: System, m: Move, s: SessionId, o: Oracle, broken: set<Rule>)
    requires At(sys, m.task) == Renewing(m.op, s, true) && IsPlan(m.plan, sys.state.session.cache)
    requires !o(sys.state.world.calls).fails && o(sys.state.world.calls).gone == {} && s in sys.state.world.live
    requires NoReplayWhileOwed in broken || forall t :: t in sys.tasks ==> !sys.tasks[t].Remembering?
    ensures FitsAll(sys, m, o, broken, 1)
    ensures var w := sys.state.world;
            Solo(sys, m, o, 1) == System(sys.tasks[m.task := Replaying(m.op, s, Requests(m.plan))], sys.lock,
              State(sys.state.session, w.(calls := w.calls + 1)), sys.missing)
  {
    OneStep(sys, m, o, broken);
  }
}
