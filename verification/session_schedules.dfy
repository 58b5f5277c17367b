/** Rules under which many tasks recover exactly, and runs that show each of them is needed. */
module SessionSchedules {
  import opened Wrappers
  import opened DesiredState
  import opened DesiredSlots
  import opened ControllerModel
  import opened ClientSession
  import opened SessionTasks
  import opened SessionCourse
  import opened SessionStretches

  // ----- the conditions of a fitting step, spelled out

  /** A change acknowledged in the middle of a replay fits exactly when, for every request still to be sent, it leaves
      that request's slot alone or says the same. Otherwise the replay overwrites it. */
  lemma AckFitsExactly(todo: seq<Ack>, target: Desired, a: Ack)
    requires forall e :: e in todo ==> Cached(e, target)
    ensures (forall e :: e in todo ==> Cached(e, Apply(target, a)))
            <==> forall e :: e in todo ==> IsInsert(e) && EffectOn(a, SlotOf(e)) in {Keep, Set(Some(e))}
  {
    hide Cached, Entry, Apply, EffectOn;
    forall e | e in todo
      ensures IsInsert(e)
      ensures Cached(e, Apply(target, a)) <==> EffectOn(a, SlotOf(e)) == Keep || EffectOn(a, SlotOf(e)) == Set(Some(e))
    {
      CachedEntry(e, target);
      CachedEntry(e, Apply(target, a));
      EntryApply(target, a, SlotOf(e));
    }
  }

  /** A replay into a new session fits exactly when remembering what is owed would change nothing: otherwise the session
      ends with the old cache and the host with the new one. */
  lemma FreshReplayFitsExactly(cache: Desired, target: Desired)
    ensures SnapshotFits(EMPTY, cache, target) <==> target == cache
  {
    hide Entry;
    assert forall slot :: Entry(EMPTY, slot) == None by {
      NothingInEmpty();
    }
    if SnapshotFits(EMPTY, cache, target) {
      SameEntries(target, cache);
    }
  }

  lemma NothingInEmpty()
    ensures forall slot :: Entry(EMPTY, slot) == None
  {
  }

  /** Remembered in turn, a change always fits. */
  lemma InTurnFits(sys: System, owed: seq<Debt>, t: TaskId)
    requires owed != [] && owed[0].task == t && OwedFits(sys.tasks, owed) && OnCourse(sys, owed)
    ensures PaymentFits(sys, owed, t)
  {
    hide Told, KeysWithin, Apply, ApplyAll;
    assert owed[0] in owed;
    TargetFirst(sys.state.session.cache, owed);
  }

  // ----- three rules suffice

  lemma RulesKeepCourse(sys: System, owed: seq<Debt>, m: Move, o: Oracle)
    requires Base(sys, owed) && OnCourse(sys, owed) && Fits(sys, m)
    requires forall rule :: Obeys(sys, owed, m, o, rule)
    ensures KeepsCourse(sys, owed, m, o)
  {
    hide Step, Consistent, WellKeyed, AllFit, OnCourse, SnapshotFits, PaymentFits, Apply;
    var task, next := At(sys, m.task), Step(sys, m, o);
    assert Obeys(sys, owed, m, o, NoAckInReplay) && Obeys(sys, owed, m, o, NoReplayWhileOwed) && Obeys(sys, owed, m, o, PaidInTurn);
    if task.Remembering? {
      InTurnFits(sys, owed, m.task);
    } else if At(next, m.task).Remembering? {
    } else if !task.Replaying? && At(next, m.task).Replaying? {
      NobodyOwed(sys.tasks, owed);
      CalmSnapshotFits(sys, m, o);
    }
  }

  lemma NobodyOwed(tasks: map<TaskId, Task>, owed: seq<Debt>)
    requires OwedFits(tasks, owed) && forall t :: t in tasks ==> !tasks[t].Remembering?
    ensures owed == []
  {
    if owed != [] {
      SomebodyOwed(tasks, owed);
    }
  }

  lemma SomebodyOwed(tasks: map<TaskId, Task>, owed: seq<Debt>)
    requires OwedFits(tasks, owed) && owed != []
    ensures owed[0].task in tasks && tasks[owed[0].task].Remembering?
  {
    assert owed[0] in owed;
  }

  /** With nothing owed, a replay may begin. */
  lemma CalmSnapshotFits(sys: System, m: Move, o: Oracle)
    requires Base(sys, []) && OnCourse(sys, [])
    requires !At(sys, m.task).Replaying? && At(Step(sys, m, o), m.task).Replaying?
    ensures SnapshotFits(Told(Step(sys, m, o).state), sys.state.session.cache, sys.state.session.cache)
  {
    hide Entry, Apply, Requests, WellKeyed, Harmonious, ApplyAll;
    assert m.task in sys.tasks ==> TaskFits(sys.tasks[m.task], sys.state) && Informed(sys.tasks[m.task], sys.state);
    if At(sys, m.task).Registering? {
      NothingInEmpty();
    }
  }

  lemma {:induction false} RulesMakeFit(moves: seq<Move>, o: Oracle)
    requires Orderly(moves, o) && forall rule :: RunObeys(moves, o, rule)
    ensures EveryStepFits(moves, o)
  {
    if moves != [] {
      hide Step, Fits, Obeys, KeepsCourse, OnCourse, Base;
      var init, last := moves[..|moves| - 1], moves[|moves| - 1];
      forall rule
        ensures RunObeys(init, o, rule) && Obeys(Run(init, o), Owed(init, o), last, o, rule)
      {
        assert RunObeys(moves, o, rule);
      }
      RulesMakeFit(init, o);
      CourseExactly(init, o);
      RunKeepsBase(init, o);
      RulesKeepCourse(Run(init, o), Owed(init, o), last, o);
    }
  }

  /** Any number of tasks: when no change is acknowledged while a replay runs, no replay begins while a change is owed,
      and changes are remembered in the order of their acknowledgement, recovery is exact. */
  lemma UndisturbedRunIsExact(moves: seq<Move>, o: Oracle)
    requires Orderly(moves, o) && forall rule :: RunObeys(moves, o, rule)
    ensures var sys := Run(moves, o);
            sys.state.session.id.Some? && !sys.state.session.pending ==>
              && sys.state.session.id.value < |sys.state.world.logs|
              && Told(sys.state) == Target(Fold(History(moves, o)), Owed(moves, o))
              && (Owed(moves, o) == [] ==> Told(sys.state) == Fold(History(moves, o)))
  {
    hide Run, Owed, History, Told, Target;
    RulesMakeFit(moves, o);
    FittingRunIsExact(moves, o);
  }

  // ----- one host task and any number of renewal ticks

  predicate ChangesDesired(op: HostOp) {
    op.Attach? || op.Detach? || op.Enable? || op.Disable?
  }

  /** Only the host task ever wants to change the desired state. */
  predicate Wants(task: Task) {
    match task
    case Idle => false
    case Remembering(_) => true
    case _ => ChangesDesired(task.op)
  }

  /** A task keeps its operation until it is idle again or remembers its own change. */
  lemma StepKeepsOp(sys: System, m: Move, o: Oracle)
    ensures var task, next := At(sys, m.task), At(Step(sys, m, o), m.task);
            || next.Idle? || next == task
            || (task.Idle? && next == Reaching(m.op))
            || (task.Calling? && next.Remembering? && ChangesDesired(task.op))
            || (!task.Idle? && !task.Remembering? && !next.Remembering? && next.op == task.op)
  {
    hide Apply, Requests;
  }

  lemma StepKeepsWants(sys: System, m: Move, o: Oracle, host: TaskId)
    requires forall t :: t in sys.tasks && Wants(sys.tasks[t]) ==> t == host
    requires ChangesDesired(m.op) ==> m.task == host
    ensures forall t :: t in Step(sys, m, o).tasks && Wants(Step(sys, m, o).tasks[t]) ==> t == host
  {
    hide Step;
    var next := Step(sys, m, o);
    StepShape(sys, m, o);
    StepKeepsOp(sys, m, o);
    if next != sys {
      assert forall t :: t in next.tasks && t != m.task ==> t in sys.tasks && next.tasks[t] == sys.tasks[t];
      assert Wants(At(next, m.task)) ==> Wants(At(sys, m.task)) || ChangesDesired(m.op);
    }
  }

  predicate ByHost(moves: seq<Move>, host: TaskId) {
    forall m :: m in moves && ChangesDesired(m.op) ==> m.task == host
  }

  lemma {:induction false} OnlyHostWants(moves: seq<Move>, o: Oracle, host: TaskId)
    requires ByHost(moves, host)
    ensures forall t :: t in Run(moves, o).tasks && Wants(Run(moves, o).tasks[t]) ==> t == host
  {
    if moves != [] {
      hide Step;
      OnlyHostWants(moves[..|moves| - 1], o, host);
      StepKeepsWants(Run(moves[..|moves| - 1], o), moves[|moves| - 1], o, host);
    }
  }

  /** Whoever remembers is the only one to whom anything is owed. */
  lemma OnlyDebt(tasks: map<TaskId, Task>, owed: seq<Debt>, host: TaskId)
    requires OwedFits(tasks, owed) && host in tasks && tasks[host].Remembering?
    requires forall t :: t in tasks && tasks[t].Remembering? ==> t == host
    ensures owed == [Debt(host, tasks[host].ack)]
  {
    assert Debt(host, tasks[host].ack) in owed;
    var i :| 0 <= i < |owed| && owed[i] == Debt(host, tasks[host].ack);
    assert forall d :: d in owed ==> d.task == host;
    if |owed| > 1 {
      TwoDebtors(owed);
    }
  }

  lemma TwoDebtors(owed: seq<Debt>)
    requires Distinct(owed) && |owed| > 1
    ensures exists d, e :: d in owed && e in owed && d.task != e.task
  {
    assert owed[0] in owed && owed[1] in owed && owed[0].task != owed[1].task;
  }

  lemma {:induction false} OneHostPaysInTurn(moves: seq<Move>, o: Oracle, host: TaskId)
    requires Orderly(moves, o) && ByHost(moves, host)
    ensures RunObeys(moves, o, PaidInTurn)
  {
    if moves != [] {
      hide Step, Fits, Consistent, AllFit, WellKeyed, OwedFits;
      var init, last := moves[..|moves| - 1], moves[|moves| - 1];
      OneHostPaysInTurn(init, o, host);
      OnlyHostWants(init, o, host);
      RunKeepsBase(init, o);
      var sys := Run(init, o);
      if At(sys, last.task).Remembering? {
        assert forall t :: t in sys.tasks && sys.tasks[t].Remembering? ==> Wants(sys.tasks[t]);
        OnlyDebt(sys.tasks, Owed(init, o), last.task);
      }
    }
  }

  /** The client every host has: its own operations one after another, and renewal ticks (or data calls) of any number
      of other tasks at any time. Two rules are left, and neither is about losses as such. */
  lemma OneHostIsExact(moves: seq<Move>, o: Oracle, host: TaskId)
    requires Orderly(moves, o) && ByHost(moves, host)
    requires RunObeys(moves, o, NoAckInReplay) && RunObeys(moves, o, NoReplayWhileOwed)
    ensures var sys := Run(moves, o);
            && sys.state.session.cache == Fold(History(moves, o))
            && (sys.state.session.id.Some? && !sys.state.session.pending ==>
                  && sys.state.session.id.value < |sys.state.world.logs|
                  && Told(sys.state) == if At(sys, host).Remembering? then Apply(Fold(History(moves, o)), At(sys, host).ack)
                                        else Fold(History(moves, o)))
  {
    hide Run, History, Told, Apply, Consistent, AllFit, WellKeyed, OwedFits, RunObeys, Fold;
    OneHostPaysInTurn(moves, o, host);
    assert forall rule :: RunObeys(moves, o, rule) by {
      forall rule
        ensures RunObeys(moves, o, rule)
      {
        match rule
        case NoAckInReplay =>
        case NoReplayWhileOwed =>
        case PaidInTurn =>
      }
    }
    UndisturbedRunIsExact(moves, o);
    CacheIsHistory(moves, o);
    RunKeepsBase(moves, o);
    OnlyHostWants(moves, o, host);
    var sys, owed := Run(moves, o), Owed(moves, o);
    assert forall t :: t in sys.tasks && sys.tasks[t].Remembering? ==> Wants(sys.tasks[t]);
    if At(sys, host).Remembering? {
      OnlyDebt(sys.tasks, owed, host);
      TargetSnoc(Fold(History(moves, o)), [], owed[0]);
      assert [] + [owed[0]] == owed;
    } else {
      NobodyOwed(sys.tasks, owed);
    }
  }
}
