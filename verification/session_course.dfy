/** When many tasks share one client: exactly which steps put recovery off course.

    A change that the controller has acknowledged is owed until the host remembers it. A state is on course when what
    the held session was told, completed by the rest of a running replay, is what the cache will be once everything
    owed is remembered in the order of acknowledgement; so, left to finish, the client ends exact. Only three kinds of
    step can leave the course, and each does so exactly under a condition on the state before it. */
module SessionCourse {
  import opened Wrappers
  import opened DesiredState
  import opened DesiredSlots
  import opened ControllerModel
  import opened ClientSession
  import opened SessionTasks

  // ----- runs

  /** A replay order lists the cache of the moment in which the replay begins. */
  ghost predicate Fits(sys: System, m: Move) {
    At(sys, m.task).Renewing? || At(sys, m.task).Registering? ==> IsPlan(m.plan, sys.state.session.cache)
  }

  ghost predicate Orderly(moves: seq<Move>, o: Oracle) {
    moves == [] || (Orderly(moves[..|moves| - 1], o) && Fits(Run(moves[..|moves| - 1], o), moves[|moves| - 1]))
  }

  /** What the host has been told, in the order in which it was told: every acknowledged change. */
  function History(moves: seq<Move>, o: Oracle): seq<Ack> {
    if moves == [] then []
    else
      var task := At(Run(moves[..|moves| - 1], o), moves[|moves| - 1].task);
      History(moves[..|moves| - 1], o) + if task.Remembering? then [task.ack] else []
  }

  lemma StepCache(sys: System, m: Move, o: Oracle)
    ensures Step(sys, m, o).state.session.cache
            == if At(sys, m.task).Remembering? then Apply(sys.state.session.cache, At(sys, m.task).ack) else sys.state.session.cache
  {
    hide Apply;
  }

  /** In every run at all, the cache adds up what the host has been told. */
  lemma {:induction false} CacheIsHistory(moves: seq<Move>, o: Oracle)
    ensures Run(moves, o).state.session.cache == Fold(History(moves, o))
  {
    if moves != [] {
      hide Step, Apply;
      var init, last := moves[..|moves| - 1], moves[|moves| - 1];
      CacheIsHistory(init, o);
      StepCache(Run(init, o), last, o);
      if At(Run(init, o), last.task).Remembering? {
        FoldSnoc(History(init, o), At(Run(init, o), last.task).ack);
      } else {
        assert History(init, o) + [] == History(init, o);
      }
    }
  }

  // ----- what is owed

  datatype Debt = Debt(task: TaskId, ack: Ack)

  function Without(owed: seq<Debt>, t: TaskId): seq<Debt> {
    if owed == [] then [] else if owed[0].task == t then owed[1..] else [owed[0]] + Without(owed[1..], t)
  }

  function NextOwed(sys: System, next: System, owed: seq<Debt>, t: TaskId): seq<Debt> {
    if At(sys, t).Remembering? then Without(owed, t)
    else if At(next, t).Remembering? then owed + [Debt(t, At(next, t).ack)]
    else owed
  }

  /** The changes owed at the end of a run, in the order of acknowledgement. */
  function Owed(moves: seq<Move>, o: Oracle): seq<Debt> {
    if moves == [] then []
    else
      var init, t := moves[..|moves| - 1], moves[|moves| - 1].task;
      NextOwed(Run(init, o), Run(moves, o), Owed(init, o), t)
  }

  /** What the cache will be when everything owed has been remembered. */
  function Target(cache: Desired, owed: seq<Debt>): Desired {
    if owed == [] then cache else Apply(Target(cache, owed[..|owed| - 1]), owed[|owed| - 1].ack)
  }

  lemma TargetSnoc(cache: Desired, owed: seq<Debt>, d: Debt)
    ensures Target(cache, owed + [d]) == Apply(Target(cache, owed), d.ack)
  {
    assert (owed + [d])[..|owed|] == owed;
  }

  /** Remembering the oldest debt leaves the target where it is. */
  lemma {:induction false} TargetFirst(cache: Desired, owed: seq<Debt>)
    requires owed != []
    ensures Target(cache, owed) == Target(Apply(cache, owed[0].ack), owed[1..])
  {
    hide Apply;
    if |owed| == 1 {
      assert owed[..0] == [] && owed[1..] == [];
    } else {
      var init := owed[..|owed| - 1];
      TargetFirst(cache, init);
      assert owed[1..][..|owed| - 2] == init[1..];
    }
  }

  predicate Distinct(owed: seq<Debt>) {
    forall i, j :: 0 <= i < j < |owed| ==> owed[i].task != owed[j].task
  }

  ghost predicate OwedFits(tasks: map<TaskId, Task>, owed: seq<Debt>) {
    && (forall d :: d in owed ==> d.task in tasks && tasks[d.task] == Remembering(d.ack))
    && Distinct(owed)
    && (forall t :: t in tasks && tasks[t].Remembering? ==> Debt(t, tasks[t].ack) in owed)
  }

  lemma {:induction false} WithoutIs(owed: seq<Debt>, t: TaskId)
    requires Distinct(owed)
    ensures Distinct(Without(owed, t))
    ensures forall d :: d in Without(owed, t) <==> d in owed && d.task != t
  {
    if owed != [] {
      var rest := owed[1..];
      assert forall d :: d in owed <==> d == owed[0] || d in rest;
      assert forall d :: d in rest ==> d.task != owed[0].task;
      WithoutIs(rest, t);
      if owed[0].task != t {
        var shorter := Without(owed, t);
        assert shorter[1..] == Without(rest, t);
        forall i, j | 0 <= i < j < |shorter|
          ensures shorter[i].task != shorter[j].task
        {
          assert shorter[j] == shorter[1..][j - 1] && shorter[j] in Without(rest, t);
          assert i > 0 ==> shorter[i] == shorter[1..][i - 1];
        }
      }
    }
  }

  // ----- what holds in every run

  ghost predicate TaskFits(task: Task, st: State) {
    && (task.Renewing? ==> task.pending == st.session.pending)
    && (task.Replaying? ==> st.session.pending && st.session.id == Some(task.s) && Harmonious(task.todo))
  }

  ghost predicate AllFit(sys: System) {
    forall t :: t in sys.tasks ==> TaskFits(sys.tasks[t], sys.state)
  }

  predicate IdInRange(st: State) {
    st.session.id.Some? ==> st.session.id.value < |st.world.logs|
  }

  ghost predicate Base(sys: System, owed: seq<Debt>) {
    Consistent(sys) && WellKeyed(sys.state.session.cache) && IdInRange(sys.state) && OwedFits(sys.tasks, owed) && AllFit(sys)
  }

  lemma OwedPaid(tasks: map<TaskId, Task>, owed: seq<Debt>, t: TaskId, task: Task)
    requires OwedFits(tasks, owed) && !task.Remembering?
    ensures OwedFits(tasks[t := task], Without(owed, t))
  {
    hide Without, Distinct;
    WithoutIs(owed, t);
  }

  lemma OwedGrown(tasks: map<TaskId, Task>, owed: seq<Debt>, t: TaskId, task: Task)
    requires OwedFits(tasks, owed) && !(t in tasks && tasks[t].Remembering?)
    ensures OwedFits(tasks[t := task], if task.Remembering? then owed + [Debt(t, task.ack)] else owed)
  {
    var after, more := tasks[t := task], if task.Remembering? then owed + [Debt(t, task.ack)] else owed;
    assert forall i :: 0 <= i < |owed| ==> owed[i] in owed && owed[i].task != t && more[i] == owed[i];
    forall u | u in after && after[u].Remembering?
      ensures Debt(u, after[u].ack) in more
    {
      if u == t {
        assert more[|owed|] == Debt(u, after[u].ack);
      } else {
        assert Debt(u, tasks[u].ack) in owed;
      }
    }
  }

  lemma OwedStep(sys: System, next: System, owed: seq<Debt>, t: TaskId)
    requires OwedFits(sys.tasks, owed) && next.tasks == sys.tasks[t := At(next, t)]
    requires At(sys, t).Remembering? ==> !At(next, t).Remembering?
    ensures OwedFits(next.tasks, NextOwed(sys, next, owed, t))
  {
    hide OwedFits;
    if At(sys, t).Remembering? {
      OwedPaid(sys.tasks, owed, t, At(next, t));
    } else {
      OwedGrown(sys.tasks, owed, t, At(next, t));
    }
  }

  // ----- one step, whatever it does

  lemma StepShape(sys: System, m: Move, o: Oracle)
    ensures var next, t := Step(sys, m, o), m.task;
            && (next == sys || (next.tasks == sys.tasks[t := At(next, t)] && t in next.tasks))
            && (At(sys, t).Remembering? ==> At(next, t) == Idle)
            && (At(next, t).Remembering? ==> At(sys, t).Calling?)
  {
    hide Apply, Requests;
  }

  lemma OutsideKeepsSession(sys: System, m: Move, o: Oracle)
    requires !At(sys, m.task).InSection()
    ensures var session, session' := sys.state.session, Step(sys, m, o).state.session;
            session'.id == session.id && session'.pending == session.pending
    ensures At(Step(sys, m, o), m.task).InSection() ==> At(Step(sys, m, o), m.task).Reading?
  {
    hide Apply, Requests;
  }

  lemma IdStaysInRange(sys: System, m: Move, o: Oracle)
    requires IdInRange(sys.state)
    ensures IdInRange(Step(sys, m, o).state)
  {
    hide Apply, Requests;
  }

  lemma MoverFits(sys: System, m: Move, o: Oracle)
    requires Consistent(sys) && WellKeyed(sys.state.session.cache) && AllFit(sys) && Fits(sys, m)
    requires At(sys, m.task).InSection()
    ensures TaskFits(At(Step(sys, m, o), m.task), Step(sys, m, o).state)
  {
    hide Apply, Requests, WellKeyed, IsPlan;
    var task, next := sys.tasks[m.task], At(Step(sys, m, o), m.task);
    assert TaskFits(task, sys.state) && Informed(task, sys.state);
    if next.Replaying? && !task.Replaying? {
      PlanNames(m.plan, sys.state.session.cache);
    } else if next.Replaying? {
      assert forall a :: a in next.todo ==> a in task.todo;
    }
  }

  lemma StepAllFit(sys: System, m: Move, o: Oracle)
    requires Consistent(sys) && WellKeyed(sys.state.session.cache) && AllFit(sys) && Fits(sys, m)
    ensures AllFit(Step(sys, m, o))
  {
    hide Step, WellKeyed, Harmonious, Fits;
    var next, t := Step(sys, m, o), m.task;
    StepShape(sys, m, o);
    if next != sys {
      if At(sys, t).InSection() {
        MoverFits(sys, m, o);
      } else {
        OutsideKeepsSession(sys, m, o);
      }
      forall u | u in next.tasks
        ensures TaskFits(next.tasks[u], next.state)
      {
        if u != t {
          assert next.tasks[u] == sys.tasks[u] && TaskFits(sys.tasks[u], sys.state);
          assert At(sys, t).InSection() ==> !sys.tasks[u].InSection();
        }
      }
    }
  }

  /** Every step of every task. */
  lemma StepKeepsBase(sys: System, owed: seq<Debt>, m: Move, o: Oracle)
    requires Base(sys, owed) && Fits(sys, m)
    ensures Base(Step(sys, m, o), NextOwed(sys, Step(sys, m, o), owed, m.task))
  {
    hide Step, Consistent, WellKeyed, AllFit, OwedFits, Fits, Apply;
    StepKeepsConsistent(sys, m, o);
    StepAllFit(sys, m, o);
    IdStaysInRange(sys, m, o);
    StepCache(sys, m, o);
    if At(sys, m.task).Remembering? {
      ApplyKeepsWellKeyed(sys.state.session.cache, At(sys, m.task).ack);
    }
    StepShape(sys, m, o);
    if Step(sys, m, o) != sys {
      OwedStep(sys, Step(sys, m, o), owed, m.task);
    }
  }

  lemma {:induction false} RunKeepsBase(moves: seq<Move>, o: Oracle)
    requires Orderly(moves, o)
    ensures Base(Run(moves, o), Owed(moves, o))
  {
    if moves == [] {
    } else {
      hide Step, Base, Fits;
      RunKeepsBase(moves[..|moves| - 1], o);
      StepKeepsBase(Run(moves[..|moves| - 1], o), Owed(moves[..|moves| - 1], o), moves[|moves| - 1], o);
    }
  }

  // ----- on course

  /** What the held session was told. */
  function Told(st: State): Desired {
    if st.session.id.Some? && st.session.id.value < |st.world.logs| then Fold(st.world.logs[st.session.id.value]) else EMPTY
  }

  predicate Replays(sys: System, t: TaskId) {
    t in sys.tasks && sys.tasks[t].Replaying?
  }

  /** Without a replay pending the session was told the target. With one pending, sending the rest of a running replay
      leads to the target; and in any case nothing was told that a full replay of the target would not overwrite. */
  ghost predicate OnCourse(sys: System, owed: seq<Debt>) {
    sys.state.session.id.Some? ==>
      var told, target := Told(sys.state), Target(sys.state.session.cache, owed);
      && (!sys.state.session.pending ==> told == target)
      && (sys.state.session.pending ==> KeysWithin(told, target))
      && (forall t :: Replays(sys, t) ==> ApplyAll(told, sys.tasks[t].todo) == target)
  }

  // ----- the three kinds of step that matter

  /** A change acknowledged while a replay runs: it must not touch a request that is still to be sent, except to say the
      same. */
  ghost predicate AckFits(sys: System, owed: seq<Debt>, a: Ack) {
    var target := Target(sys.state.session.cache, owed);
    forall t, e :: Replays(sys, t) && e in sys.tasks[t].todo ==> Cached(e, Apply(target, a))
  }

  /** A replay that begins: where the cache has an entry it must be the target's, and where it has none the session must
      have been told the target's already. */
  ghost predicate SnapshotFits(told: Desired, cache: Desired, target: Desired) {
    forall slot :: Entry(target, slot) == if Entry(cache, slot).Some? then Entry(cache, slot) else Entry(told, slot)
  }

  /** A change that is remembered: if a session is held, remembering it now must come to the same as remembering it in
      its turn. */
  ghost predicate PaymentFits(sys: System, owed: seq<Debt>, t: TaskId) {
    At(sys, t).Remembering? && sys.state.session.id.Some? ==>
      var cache := sys.state.session.cache;
      var target := Target(Apply(cache, At(sys, t).ack), Without(owed, t));
      if sys.state.session.pending && (forall u :: !Replays(sys, u)) then KeysWithin(Told(sys.state), target)
      else target == Target(cache, owed)
  }

  ghost predicate KeepsCourse(sys: System, owed: seq<Debt>, m: Move, o: Oracle) {
    var task, next := At(sys, m.task), Step(sys, m, o);
    if task.Remembering? then PaymentFits(sys, owed, m.task)
    else if At(next, m.task).Remembering? then AckFits(sys, owed, At(next, m.task).ack)
    else if !task.Replaying? && At(next, m.task).Replaying? then
      SnapshotFits(Told(next.state), sys.state.session.cache, Target(sys.state.session.cache, owed))
    else true
  }

  /** A step that leaves session and logs alone and in which no replay takes part. */
  lemma PlainStep(sys: System, next: System, owed: seq<Debt>, t: TaskId)
    requires next.tasks == sys.tasks[t := At(next, t)] && t in next.tasks
    requires next.state.session == sys.state.session && next.state.world.logs == sys.state.world.logs
    requires !At(sys, t).Replaying? && !At(next, t).Replaying?
    requires OnCourse(sys, owed)
    ensures OnCourse(next, owed)
  {
    hide KeysWithin, ApplyAll, Target, Fold;
    assert forall u :: Replays(next, u) ==> Replays(sys, u) && next.tasks[u] == sys.tasks[u];
  }

  lemma SnapshotExactly(told: Desired, plan: Plan, cache: Desired, target: Desired)
    requires WellKeyed(cache) && IsPlan(plan, cache)
    ensures Harmonious(Requests(plan))
    ensures ApplyAll(told, Requests(plan)) == target <==> SnapshotFits(told, cache, target)
  {
    hide WellKeyed, IsPlan, Requests, Cached, Entry, ApplyAll;
    var todo := Requests(plan);
    PlanNames(plan, cache);
    SendsExactly(told, todo, target);
    forall slot
      ensures IsInsertAt(cache, slot)
    {
      EntrySlot(cache, slot);
    }
    forall a
      ensures Cached(a, cache) <==> IsInsert(a) && Entry(cache, SlotOf(a)) == Some(a)
      ensures Cached(a, target) <==> IsInsert(a) && Entry(target, SlotOf(a)) == Some(a)
    {
      CachedEntry(a, cache);
      CachedEntry(a, target);
    }
    if ApplyAll(told, todo) == target {
      forall slot
        ensures Entry(target, slot) == if Entry(cache, slot).Some? then Entry(cache, slot) else Entry(told, slot)
      {
        assert IsInsertAt(cache, slot);
        if Entry(cache, slot).Some? {
          assert Entry(cache, slot).value in todo;
        } else {
          assert !Names(todo, slot);
        }
      }
    }
  }

  predicate IsInsertAt(d: Desired, slot: Slot) {
    Entry(d, slot).Some? ==> IsInsert(Entry(d, slot).value) && SlotOf(Entry(d, slot).value) == slot
  }

  /** An acknowledgement in the middle of a replay. */
  lemma AckExactly(told: Desired, todo: seq<Ack>, target: Desired, a: Ack)
    requires Harmonious(todo) && ApplyAll(told, todo) == target
    ensures ApplyAll(Apply(told, a), todo) == Apply(target, a) <==> forall e :: e in todo ==> Cached(e, Apply(target, a))
  {
    hide Entry, Cached, Apply, ApplyAll;
    SendsExactly(told, todo, target);
    SendsExactly(Apply(told, a), todo, Apply(target, a));
    forall slot | !Names(todo, slot)
      ensures Entry(Apply(told, a), slot) == Entry(Apply(target, a), slot)
    {
      EntryApply(told, a, slot);
      EntryApply(target, a, slot);
    }
  }

  // ----- every step, exactly

  /** Where a step puts the session and the logs, by the point the task is at. */
  lemma PlainSteps(sys: System, m: Move, o: Oracle)
    requires Consistent(sys) && IdInRange(sys.state)
    requires var task, next := At(sys, m.task), At(Step(sys, m, o), m.task);
             !task.Replaying? && !next.Replaying? && !task.Remembering? && !next.Remembering?
    ensures var next := Step(sys, m, o);
            || next.state.session.id.None?
            || (next.state.session == sys.state.session && next.state.world.logs == sys.state.world.logs)
  {
    hide Apply, Requests;
  }

  lemma NobodyElseReplays(sys: System, m: Move)
    requires Consistent(sys) && At(sys, m.task).InSection()
    ensures forall t :: Replays(sys, t) ==> t == m.task
  {
  }

  lemma BeginState(sys: System, m: Move, o: Oracle)
    requires Consistent(sys) && AllFit(sys)
    requires !At(sys, m.task).Replaying? && At(Step(sys, m, o), m.task).Replaying?
    ensures var next := Step(sys, m, o);
            && next.state.session.id.Some? && next.state.session.pending && next.state.session.cache == sys.state.session.cache
            && At(next, m.task).todo == Requests(m.plan) && m.task in next.tasks
            && At(sys, m.task).InSection() && (At(sys, m.task).Renewing? || At(sys, m.task).Registering?)
            && next.tasks == sys.tasks[m.task := At(next, m.task)]
  {
    hide Apply, Requests, Harmonious;
    assert m.task in sys.tasks ==> TaskFits(sys.tasks[m.task], sys.state);
  }

  lemma BeginExactly(sys: System, owed: seq<Debt>, m: Move, o: Oracle)
    requires Base(sys, owed) && Fits(sys, m)
    requires !At(sys, m.task).Replaying? && At(Step(sys, m, o), m.task).Replaying?
    ensures OnCourse(Step(sys, m, o), owed)
            <==> SnapshotFits(Told(Step(sys, m, o).state), sys.state.session.cache, Target(sys.state.session.cache, owed))
  {
    hide Step, Consistent, WellKeyed, AllFit, OwedFits, IsPlan, Requests, Target, ApplyAll, KeysWithin, SnapshotFits, Told;
    var next := Step(sys, m, o);
    var told, cache, target := Told(next.state), sys.state.session.cache, Target(sys.state.session.cache, owed);
    BeginState(sys, m, o);
    NobodyElseReplays(sys, m);
    SnapshotExactly(told, m.plan, cache, target);
    assert Replays(next, m.task);
    assert forall t :: Replays(next, t) ==> t == m.task || Replays(sys, t);
    if ApplyAll(told, Requests(m.plan)) == target {
      SendingStartsWithin(told, Requests(m.plan), target);
    }
  }

  lemma ReplayOutcome(sys: System, m: Move, s: SessionId, todo: seq<Ack>, o: Oracle)
    requires At(sys, m.task).Replaying? && At(sys, m.task).s == s && At(sys, m.task).todo == todo
    requires s < |sys.state.world.logs| && sys.state.session.id == Some(s) && m.task in sys.tasks
    ensures var next, logs := Step(sys, m, o), sys.state.world.logs;
            && next.tasks == sys.tasks[m.task := At(next, m.task)] && next.state.session.cache == sys.state.session.cache
            && next.state.session.id == Some(s) && !At(next, m.task).Remembering?
            && if todo == [] then !next.state.session.pending && !At(next, m.task).Replaying? && next.state.world.logs == logs
               else && next.state.session.pending == sys.state.session.pending
                    && if At(next, m.task).Replaying? then
                         At(next, m.task).todo == todo[1..] && next.state.world.logs == logs[s := logs[s] + [todo[0]]]
                       else next.state.world.logs == logs
  {
    hide Apply, Requests;
  }

  lemma ReplayStaysOnCourse(sys: System, owed: seq<Debt>, m: Move, o: Oracle)
    requires Base(sys, owed) && OnCourse(sys, owed) && At(sys, m.task).Replaying?
    ensures OnCourse(Step(sys, m, o), owed)
  {
    hide Step, WellKeyed, OwedFits, Harmonious, Target, ApplyAll, KeysWithin, Fold, Apply;
    var next, task := Step(sys, m, o), sys.tasks[m.task];
    assert TaskFits(task, sys.state) && Replays(sys, m.task);
    ReplayOutcome(sys, m, task.s, task.todo, o);
    NobodyElseReplays(sys, m);
    assert forall t :: Replays(next, t) ==> t == m.task;
    var told, target := Told(sys.state), Target(sys.state.session.cache, owed);
    if task.todo == [] {
      assert ApplyAll(told, []) == told by {
        ApplyNothing(told);
      }
    } else if At(next, m.task).Replaying? {
      var rest := task.todo[1..];
      FoldSnoc(sys.state.world.logs[task.s], task.todo[0]);
      ApplyAllFirst(told, task.todo);
      HarmoniousRest(task.todo);
      SendingStartsWithin(Apply(told, task.todo[0]), rest, target);
    }
  }

  lemma ApplyNothing(d: Desired)
    ensures ApplyAll(d, []) == d
  {
  }

  lemma HarmoniousRest(todo: seq<Ack>)
    requires todo != [] && Harmonious(todo)
    ensures Harmonious(todo[1..])
  {
    assert forall a :: a in todo[1..] ==> a in todo;
  }

  /** A change is acknowledged only under the session held now. */
  lemma AckOutcome(sys: System, m: Move, o: Oracle)
    requires Consistent(sys) && IdInRange(sys.state)
    requires !At(sys, m.task).Remembering? && At(Step(sys, m, o), m.task).Remembering?
    ensures var next, st := Step(sys, m, o), sys.state;
            && st.session.id.Some? && next.state.session == st.session && m.task in sys.tasks && !At(sys, m.task).Replaying?
            && next.tasks == sys.tasks[m.task := At(next, m.task)]
            && var s, logs := st.session.id.value, st.world.logs;
               next.state.world.logs == logs[s := logs[s] + [At(next, m.task).ack]]
  {
    hide Apply, Requests;
  }

  lemma AckStepExactly(sys: System, owed: seq<Debt>, m: Move, o: Oracle)
    requires Base(sys, owed) && OnCourse(sys, owed)
    requires !At(sys, m.task).Remembering? && At(Step(sys, m, o), m.task).Remembering?
    ensures var next := Step(sys, m, o);
            OnCourse(next, NextOwed(sys, next, owed, m.task)) <==> AckFits(sys, owed, At(next, m.task).ack)
  {
    hide Step, Consistent, WellKeyed, OwedFits, Harmonious, Target, ApplyAll, KeysWithin, Fold, Apply, Cached;
    var next := Step(sys, m, o);
    var a := At(next, m.task).ack;
    AckOutcome(sys, m, o);
    var st := sys.state;
    var told, target := Told(st), Target(st.session.cache, owed);
    FoldSnoc(st.world.logs[st.session.id.value], a);
    TargetSnoc(st.session.cache, owed, Debt(m.task, a));
    if st.session.pending {
      KeysWithinApply(told, target, a);
    }
    forall t
      ensures Replays(next, t) <==> Replays(sys, t)
      ensures Replays(sys, t) ==> st.session.pending && next.tasks[t] == sys.tasks[t]
      ensures Replays(sys, t) ==>
                (ApplyAll(Apply(told, a), sys.tasks[t].todo) == Apply(target, a)
                 <==> forall e :: e in sys.tasks[t].todo ==> Cached(e, Apply(target, a)))
    {
      if Replays(sys, t) {
        assert TaskFits(sys.tasks[t], st);
        AckExactly(told, sys.tasks[t].todo, target, a);
      }
    }
  }

  lemma PaymentOutcome(sys: System, m: Move, o: Oracle)
    requires At(sys, m.task).Remembering?
    ensures var next := Step(sys, m, o);
            && next.state == Remember(sys.state, At(sys, m.task).ack)
            && next.tasks == sys.tasks[m.task := Idle]
  {
    hide Apply;
  }

  lemma PaymentExactly(sys: System, owed: seq<Debt>, m: Move, o: Oracle)
    requires Base(sys, owed) && OnCourse(sys, owed) && At(sys, m.task).Remembering?
    ensures var next := Step(sys, m, o);
            OnCourse(next, NextOwed(sys, next, owed, m.task)) <==> PaymentFits(sys, owed, m.task)
  {
    hide Step, Consistent, WellKeyed, OwedFits, Harmonious, Target, ApplyAll, KeysWithin, Fold, Apply, Without;
    var next, st := Step(sys, m, o), sys.state;
    PaymentOutcome(sys, m, o);
    var told, target := Told(st), Target(Apply(st.session.cache, At(sys, m.task).ack), Without(owed, m.task));
    assert Told(next.state) == told;
    forall t
      ensures Replays(next, t) <==> Replays(sys, t)
      ensures Replays(sys, t) ==> st.session.pending && next.tasks[t] == sys.tasks[t] && KeysWithin(told, Target(st.session.cache, owed))
    {
      if Replays(sys, t) {
        assert TaskFits(sys.tasks[t], st);
      }
    }
  }

  /** From a state on course, a step stays on course exactly when it fits. */
  lemma StepOnCourseExactly(sys: System, owed: seq<Debt>, m: Move, o: Oracle)
    requires Base(sys, owed) && Fits(sys, m) && OnCourse(sys, owed)
    ensures OnCourse(Step(sys, m, o), NextOwed(sys, Step(sys, m, o), owed, m.task)) <==> KeepsCourse(sys, owed, m, o)
  {
    hide Step, WellKeyed, Consistent, AllFit, OwedFits, Fits, OnCourse, SnapshotFits, AckFits, PaymentFits, Target;
    var task, next := At(sys, m.task), Step(sys, m, o);
    if task.Remembering? {
      PaymentExactly(sys, owed, m, o);
    } else if At(next, m.task).Remembering? {
      AckStepExactly(sys, owed, m, o);
    } else if task.Replaying? {
      ReplayStaysOnCourse(sys, owed, m, o);
    } else if At(next, m.task).Replaying? {
      BeginExactly(sys, owed, m, o);
    } else {
      PlainStaysOnCourse(sys, owed, m, o);
    }
  }

  lemma PlainStaysOnCourse(sys: System, owed: seq<Debt>, m: Move, o: Oracle)
    requires Consistent(sys) && IdInRange(sys.state) && OnCourse(sys, owed)
    requires var task, next := At(sys, m.task), At(Step(sys, m, o), m.task);
             !task.Replaying? && !next.Replaying? && !task.Remembering? && !next.Remembering?
    ensures OnCourse(Step(sys, m, o), owed)
  {
    hide Step, Consistent, Target, KeysWithin, ApplyAll, Fold;
    PlainSteps(sys, m, o);
    StepShape(sys, m, o);
    var next := Step(sys, m, o);
    if next != sys && next.state.session.id.Some? {
      PlainStep(sys, next, owed, m.task);
    }
  }

  // ----- whole runs

  ghost predicate AlwaysOnCourse(moves: seq<Move>, o: Oracle) {
    OnCourse(Run(moves, o), Owed(moves, o)) && (moves != [] ==> AlwaysOnCourse(moves[..|moves| - 1], o))
  }

  ghost predicate EveryStepFits(moves: seq<Move>, o: Oracle) {
    moves == [] ||
    (EveryStepFits(moves[..|moves| - 1], o)
     && KeepsCourse(Run(moves[..|moves| - 1], o), Owed(moves[..|moves| - 1], o), moves[|moves| - 1], o))
  }

  /** A run is on course all the way if and only if every one of its steps fits. */
  lemma {:induction false} CourseExactly(moves: seq<Move>, o: Oracle)
    requires Orderly(moves, o)
    ensures AlwaysOnCourse(moves, o) <==> EveryStepFits(moves, o)
  {
    if moves == [] {
    } else {
      hide Step, Base, Fits, OnCourse, KeepsCourse;
      var init, last := moves[..|moves| - 1], moves[|moves| - 1];
      CourseExactly(init, o);
      RunKeepsBase(init, o);
      if AlwaysOnCourse(init, o) {
        StepOnCourseExactly(Run(init, o), Owed(init, o), last, o);
      }
    }
  }

  /** Main result for tasks that share a client. When every step fits, a held session with no replay pending was told
      exactly what the host has been told and then what it is owed; with nothing owed, exactly what the host was told. */
  lemma {:induction false} FittingRunIsExact(moves: seq<Move>, o: Oracle)
    requires Orderly(moves, o) && EveryStepFits(moves, o)
    ensures var sys := Run(moves, o);
            sys.state.session.id.Some? && !sys.state.session.pending ==>
              && sys.state.session.id.value < |sys.state.world.logs|
              && Told(sys.state) == Target(Fold(History(moves, o)), Owed(moves, o))
              && (Owed(moves, o) == [] ==> Told(sys.state) == Fold(History(moves, o)))
  {
    hide Run, Fold, Apply, KeysWithin, Consistent, EveryStepFits;
    CourseExactly(moves, o);
    RunKeepsBase(moves, o);
    CacheIsHistory(moves, o);
  }
}
