/** What being on course means for the run: left to finish, the client ends exact; off course, it ends wrong. */
module SessionCompletion {
  import opened Wrappers
  import opened DesiredState
  import opened DesiredSlots
  import opened ControllerModel
  import opened ClientSession
  import opened SessionTasks
  import opened SessionCourse
  import opened SessionStretches
  import SessionRuns

  const ANY: set<Rule> := {NoAckInReplay, NoReplayWhileOwed, PaidInTurn}

  /** With nothing going wrong, a running replay sends all the rest. */
  lemma {:induction false} FinishReplay(sys: System, m: Move, s: SessionId, todo: seq<Ack>, o: Oracle)
    requires At(sys, m.task) == Replaying(m.op, s, todo) && sys.state.session.id == Some(s)
    requires SessionRuns.Quiet(o, sys.state.world.calls) && s in sys.state.world.live && s < |sys.state.world.logs|
    ensures FitsAll(sys, m, o, ANY, |todo| + 1)
    ensures var end, w := Solo(sys, m, o, |todo| + 1), sys.state.world;
            && end.tasks == sys.tasks[m.task := Ready(m.op)] && end.lock == None
            && end.state == Holding(s, false, sys.state.session.cache, World(w.calls + |todo|, w.live, w.logs[s := w.logs[s] + todo]))
    decreases |todo|
  {
    hide Step, FitsAll, Solo;
    var w := sys.state.world;
    if todo == [] {
      FinishAlone(sys, m, s, o, ANY);
      assert w.logs[s] + [] == w.logs[s];
    } else {
      SendAlone(sys, m, s, todo, o, ANY);
      FinishReplay(Solo(sys, m, o, 1), m, s, todo[1..], o);
      FitsAdds(sys, m, o, ANY, 1, |todo|);
      assert w.logs[s] + [todo[0]] + todo[1..] == w.logs[s] + todo;
    }
  }

  /** Everything owed is remembered, in the order of acknowledgement. */
  lemma {:induction false} PayAll(moves: seq<Move>, owed: seq<Debt>, o: Oracle) returns (longer: seq<Move>)
    requires Clean(moves, o, ANY) && OwedFits(Run(moves, o).tasks, owed)
    ensures Clean(longer, o, ANY) && moves <= longer
    ensures var sys, end := Run(moves, o), Run(longer, o);
            && end.state == State(sys.state.session.(cache := Target(sys.state.session.cache, owed)), sys.state.world)
            && end.lock == sys.lock && end.tasks.Keys == sys.tasks.Keys
            && forall t :: t in end.tasks ==> end.tasks[t] == if sys.tasks[t].Remembering? then Idle else sys.tasks[t]
    decreases |owed|
  {
    hide Step, FitsAll, Solo, Run, Clean, Apply;
    var sys := Run(moves, o);
    if owed == [] {
      longer := moves;
      assert sys.state.session.(cache := Target(sys.state.session.cache, owed)) == sys.state.session;
    } else {
      assert owed[0] in owed;
      var m := Move(owed[0].task, HostOp.Connect, NO_PLAN);
      RememberAlone(sys, m, owed[0].ack, o, ANY);
      var next := Extend(moves, m, 1, o, ANY);
      OwedPaid(sys.tasks, owed, owed[0].task, Idle);
      longer := PayAll(next, owed[1..], o);
      TargetFirst(sys.state.session.cache, owed);
    }
  }

  /** The task that takes an unfinished replay up again: the one in the locked section, or else the next tick. */
  lemma TakeUp(moves: seq<Move>, tick: TaskId, plan: Plan, o: Oracle) returns (longer: seq<Move>, m: Move)
    requires var sys := Run(moves, o);
             && Clean(moves, o, ANY) && Consistent(sys) && AllFit(sys) && IdInRange(sys.state) && IsPlan(plan, sys.state.session.cache)
             && sys.state.session.id.Some? && sys.state.session.pending && sys.state.session.id.value in sys.state.world.live
             && SessionRuns.Quiet(o, sys.state.world.calls) && At(sys, tick) == Idle && forall t :: !Replays(sys, t)
    ensures Clean(longer, o, ANY) && moves <= longer
    ensures var sys, end := Run(moves, o), Run(longer, o);
            && At(end, m.task) == Replaying(m.op, sys.state.session.id.value, Requests(plan))
            && end.state.session == sys.state.session && end.state.world.logs == sys.state.world.logs
            && end.state.world.live == sys.state.world.live && end.state.world.calls >= sys.state.world.calls
            && forall t :: t in end.tasks && t != m.task ==> t in sys.tasks && end.tasks[t] == sys.tasks[t]
  {
    hide Step, FitsAll, Solo, Run, Clean, Requests, IsPlan;
    var sys := Run(moves, o);
    var s := sys.state.session.id.value;
    longer := moves;
    if sys.lock.None? {
      m := Move(tick, HostOp.Connect, plan);
      Enter(sys, m, o, ANY);
      longer := Extend(moves, m, 4, o, ANY);
    } else {
      var t := sys.lock.value;
      assert sys.tasks[t].InSection() && Informed(sys.tasks[t], sys.state) && TaskFits(sys.tasks[t], sys.state);
      assert !Replays(sys, t);
      m := Move(t, sys.tasks[t].op, plan);
      if sys.tasks[t].Reading? {
        ReadAlone(sys, m, s, o, ANY);
        longer := Extend(moves, m, 1, o, ANY);
      }
    }
    var before := longer;
    BeginAlone(Run(before, o), m, s, o, ANY);
    longer := Extend(before, m, 1, o, ANY);
  }

  /** Completing the replay that runs. */
  lemma FinishRunning(moves: seq<Move>, m: Move, s: SessionId, todo: seq<Ack>, o: Oracle) returns (longer: seq<Move>)
    requires var sys := Run(moves, o);
             && Clean(moves, o, ANY) && At(sys, m.task) == Replaying(m.op, s, todo)
             && sys.state.session.id == Some(s) && s in sys.state.world.live && s < |sys.state.world.logs|
             && SessionRuns.Quiet(o, sys.state.world.calls)
    ensures Clean(longer, o, ANY) && moves <= longer
    ensures var sys, end := Run(moves, o), Run(longer, o);
            && end.state.session == Session(Some(s), false, sys.state.session.cache)
            && Told(end.state) == ApplyAll(Told(sys.state), todo)
            && forall t :: t in end.tasks && end.tasks[t].Remembering? ==> t in sys.tasks && end.tasks[t] == sys.tasks[t]
  {
    hide Step, FitsAll, Solo, Run, Clean;
    FinishReplay(Run(moves, o), m, s, todo, o);
    longer := Extend(moves, m, |todo| + 1, o, ANY);
    FoldApplyAll(Run(moves, o).state.world.logs[s], todo);
  }

  lemma SameTold(st: State, st': State)
    requires st'.session.id == st.session.id && st'.world.logs == st.world.logs
    ensures Told(st') == Told(st)
  {
  }

  lemma BaseMeans(moves: seq<Move>, o: Oracle)
    requires Orderly(moves, o)
    ensures var sys := Run(moves, o);
            && Base(sys, Owed(moves, o)) && Consistent(sys) && AllFit(sys) && IdInRange(sys.state)
            && WellKeyed(sys.state.session.cache) && OwedFits(sys.tasks, Owed(moves, o))
  {
    hide Run;
    RunKeepsBase(moves, o);
  }

  lemma NoDebts(moves: seq<Move>, o: Oracle)
    requires OwedFits(Run(moves, o).tasks, Owed(moves, o))
    requires forall t :: t in Run(moves, o).tasks ==> !Run(moves, o).tasks[t].Remembering?
    ensures Owed(moves, o) == []
  {
    hide Run;
    var owed := Owed(moves, o);
    if owed != [] {
      FirstDebt(Run(moves, o).tasks, owed);
    }
  }

  lemma FirstDebt(tasks: map<TaskId, Task>, owed: seq<Debt>)
    requires OwedFits(tasks, owed) && owed != []
    ensures owed[0].task in tasks && tasks[owed[0].task].Remembering?
  {
    assert owed[0] in owed;
  }

  lemma ReplayFacts(sys: System, t: TaskId)
    requires Consistent(sys) && AllFit(sys) && Replays(sys, t)
    ensures sys.state.session.pending && sys.state.session.id == Some(sys.tasks[t].s) && Harmonious(sys.tasks[t].todo)
    ensures forall u :: Replays(sys, u) ==> u == t
  {
    hide Harmonious;
    assert TaskFits(sys.tasks[t], sys.state);
  }

  // What being on course comes to, in each of the three situations of a held session.

  lemma CourseWhenDone(sys: System, owed: seq<Debt>)
    requires AllFit(sys) && sys.state.session.id.Some? && !sys.state.session.pending
    ensures OnCourse(sys, owed) <==> Told(sys.state) == Target(sys.state.session.cache, owed)
  {
    hide Told, Target, Harmonious, ApplyAll;
    assert forall t :: Replays(sys, t) ==> TaskFits(sys.tasks[t], sys.state);
  }

  lemma CourseWhenReplaying(sys: System, owed: seq<Debt>, t: TaskId)
    requires Consistent(sys) && AllFit(sys) && Replays(sys, t)
    ensures OnCourse(sys, owed) <==> ApplyAll(Told(sys.state), sys.tasks[t].todo) == Target(sys.state.session.cache, owed)
  {
    hide Told, Target, Harmonious, ApplyAll, KeysWithin;
    ReplayFacts(sys, t);
    if ApplyAll(Told(sys.state), sys.tasks[t].todo) == Target(sys.state.session.cache, owed) {
      SendingStartsWithin(Told(sys.state), sys.tasks[t].todo, Target(sys.state.session.cache, owed));
    }
  }

  lemma CourseWhenIdle(sys: System, owed: seq<Debt>, plan: Plan)
    requires sys.state.session.id.Some? && sys.state.session.pending && forall t :: !Replays(sys, t)
    requires WellKeyed(Target(sys.state.session.cache, owed)) && IsPlan(plan, Target(sys.state.session.cache, owed))
    ensures OnCourse(sys, owed) <==> ApplyAll(Told(sys.state), Requests(plan)) == Target(sys.state.session.cache, owed)
  {
    hide Told, Target, ApplyAll, Requests, IsPlan, WellKeyed;
    SnapshotExactly(Told(sys.state), plan, Target(sys.state.session.cache, owed), Target(sys.state.session.cache, owed));
  }

  /** From any reachable state with a live session, if nothing more goes wrong: let everything owed be remembered in
      turn, and let the running replay finish, or the pending one be done. Then nothing is owed and nothing pending, and
      the session was told what the cache holds if and only if the state was on course. */
  lemma CompletionExactly(moves: seq<Move>, tick: TaskId, o: Oracle) returns (longer: seq<Move>)
    requires var sys := Run(moves, o);
             && Orderly(moves, o) && sys.state.session.id.Some? && sys.state.session.id.value in sys.state.world.live
             && SessionRuns.Quiet(o, sys.state.world.calls) && At(sys, tick) == Idle
    ensures Orderly(longer, o) && moves <= longer
    ensures var end := Run(longer, o);
            && Owed(longer, o) == [] && end.state.session.id == Run(moves, o).state.session.id && !end.state.session.pending
            && (Told(end.state) == end.state.session.cache <==> OnCourse(Run(moves, o), Owed(moves, o)))
  {
    hide Step, Run, Apply, Base, OnCourse, Told, Target, ApplyAll, OwedFits, Consistent, AllFit, WellKeyed;
    var sys, owed := Run(moves, o), Owed(moves, o);
    BaseMeans(moves, o);
    var paid := PayAll(moves, owed, o);
    BaseMeans(paid, o);
    var mid := Run(paid, o);
    var s := sys.state.session.id.value;
    assert Told(mid.state) == Told(sys.state) by {
      SameTold(sys.state, mid.state);
    }
    assert forall t :: Replays(mid, t) <==> Replays(sys, t);
    if !sys.state.session.pending {
      longer := paid;
      CourseWhenDone(sys, owed);
    } else if exists t :: Replays(sys, t) {
      var t :| Replays(sys, t);
      var task := sys.tasks[t];
      ReplayFacts(sys, t);
      longer := FinishRunning(paid, Move(t, task.op, NO_PLAN), s, task.todo, o);
      CourseWhenReplaying(sys, owed, t);
    } else {
      var plan := SomePlan(mid.state.session.cache);
      var taken, m := TakeUp(paid, tick, plan, o);
      SameTold(mid.state, Run(taken, o).state);
      longer := FinishRunning(taken, m, s, Requests(plan), o);
      CourseWhenIdle(sys, owed, plan);
    }
    BaseMeans(longer, o);
    NoDebts(longer, o);
  }

  // ----- the same run with nothing going wrong from here on

  function Quieted(o: Oracle, from: nat): Oracle {
    (n: nat) => if n < from then o(n) else Verdict({}, false, true)
  }

  /** At most one call, and the adversary asked about that call only. */
  ghost predicate Consults(sys: System, next: System, next': System, same: bool) {
    var calls, calls' := sys.state.world.calls, next.state.world.calls;
    calls <= calls' <= calls + 1 && (calls' == calls || same ==> next' == next)
  }

  lemma CallConsults(sys: System, t: TaskId, op: HostOp, s: SessionId, o: Oracle, o': Oracle)
    ensures Consults(sys, CallStep(sys, t, op, s, o), CallStep(sys, t, op, s, o'), o'(sys.state.world.calls) == o(sys.state.world.calls))
  {
  }

  lemma StepConsults(sys: System, m: Move, o: Oracle, o': Oracle)
    ensures Consults(sys, Step(sys, m, o), Step(sys, m, o'), o'(sys.state.world.calls) == o(sys.state.world.calls))
  {
    hide Apply, Requests, CallStep;
    if At(sys, m.task).Calling? {
      CallConsults(sys, m.task, At(sys, m.task).op, At(sys, m.task).s, o, o');
    }
  }

  lemma {:induction false} SameUntil(moves: seq<Move>, o: Oracle, from: nat)
    requires Run(moves, o).state.world.calls <= from
    ensures Run(moves, Quieted(o, from)) == Run(moves, o) && Owed(moves, Quieted(o, from)) == Owed(moves, o)
    ensures Orderly(moves, o) ==> Orderly(moves, Quieted(o, from))
  {
    if moves != [] {
      hide Step, Fits;
      var init, last := moves[..|moves| - 1], moves[|moves| - 1];
      StepConsults(Run(init, o), last, o, Quieted(o, from));
      SameUntil(init, o, from);
    }
  }

  /** Off course is really off: from any reachable state with a live session that is off course, the same run continued
      with nothing more going wrong ends with nothing owed, nothing pending, and a session that was told something other
      than the cache. From one on course it ends exact. */
  lemma CourseDecides(moves: seq<Move>, tick: TaskId, o: Oracle) returns (longer: seq<Move>, o': Oracle)
    requires var sys := Run(moves, o);
             && Orderly(moves, o) && sys.state.session.id.Some? && sys.state.session.id.value in sys.state.world.live
             && At(sys, tick) == Idle
    ensures Run(moves, o') == Run(moves, o) && Orderly(longer, o') && moves <= longer
    ensures var end := Run(longer, o');
            && Owed(longer, o') == [] && end.state.session.id == Run(moves, o).state.session.id && !end.state.session.pending
            && (Told(end.state) == end.state.session.cache <==> OnCourse(Run(moves, o), Owed(moves, o)))
  {
    hide Run, Owed, Orderly, OnCourse, Told;
    o' := Quieted(o, Run(moves, o).state.world.calls);
    SameUntil(moves, o, Run(moves, o).state.world.calls);
    longer := CompletionExactly(moves, tick, o');
  }
}
