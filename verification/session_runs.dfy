/** Whole runs of host operations against every adversary: recovery loses nothing and invents nothing. */
module SessionRuns {
  import opened Wrappers
  import opened DesiredState
  import opened ControllerModel
  import opened ClientSession

  /** One host operation, with the order in which a replay during it would go. */
  datatype Turn = Turn(op: HostOp, plan: Plan)

  /** A client state together with the host's own record: every desired-state change acknowledged to it since
      construction or the last shutdown. */
  datatype Progress = Progress(state: State, history: seq<Ack>)

  function Step(p: Progress, t: Turn, o: Oracle): Progress {
    var (st, outcome) := Perform(p.state, t.op, t.plan, o);
    Progress(st,
      if t.op.Shutdown? then []
      else if outcome.Success? && outcome.acked.Some? then p.history + [outcome.acked.value]
      else p.history)
  }

  function Run(turns: seq<Turn>, o: Oracle): Progress {
    if turns == [] then Progress(START, [])
    else Step(Run(turns[..|turns| - 1], o), turns[|turns| - 1], o)
  }

  /** Every turn's replay order lists the cache that the turn starts from. */
  ghost predicate Orderly(turns: seq<Turn>, o: Oracle) {
    turns == [] ||
    (Orderly(turns[..|turns| - 1], o)
     && IsPlan(turns[|turns| - 1].plan, Run(turns[..|turns| - 1], o).state.session.cache))
  }

  /** The log of the session held now. */
  function HeldLog(st: State): seq<Ack>
    requires st.session.id.Some? && st.session.id.value < |st.world.logs|
  {
    st.world.logs[st.session.id.value]
  }

  /** The session held now stands for the cache: for all of it, or for a part while a replay is pending. */
  ghost predicate Sound(st: State) {
    && WellKeyed(st.session.cache)
    && (st.session.id.Some? ==>
          && st.session.id.value < |st.world.logs|
          && (if st.session.pending then Within(Fold(HeldLog(st)), st.session.cache)
              else Fold(HeldLog(st)) == st.session.cache))
  }

  /** Recovery has begun or is still to begin: no session is held, or its replay is pending. */
  predicate Recovering(st: State) {
    st.session.id.Some? ==> st.session.pending
  }

  // ----- one operation

  lemma ReplayKeepsSound(st: State, plan: Plan, o: Oracle)
    requires Sound(st) && st.session.id.Some? && st.session.pending && IsPlan(plan, st.session.cache)
    ensures var (st', ok) := Replay(st, st.session.id.value, plan, o);
            && Sound(st')
            && st'.session == st.session.(pending := !ok)
            && |st'.world.logs| == |st.world.logs|
  {
    var s, requests := st.session.id.value, Requests(plan);
    var k := SendAllRecordsPrefix(st.world, o, s, requests);
    forall a | a in requests[..k]
      ensures Cached(a, st.session.cache)
    {
      var i :| 0 <= i < k && requests[..k][i] == a;
      PlannedIsCached(plan, st.session.cache, i);
    }
    PartialReplay(st.world.logs[s], requests[..k], st.session.cache);
    CompleteReplay(st.world.logs[s], plan, st.session.cache);
    assert requests[..|requests|] == requests;
  }

  lemma RecoverKeepsSound(st: State, plan: Plan, o: Oracle)
    requires WellKeyed(st.session.cache) && st.session.id.None? && IsPlan(plan, st.session.cache)
    ensures var (st', ok) := Recover(st, plan, o);
            && Sound(st') && Recovering(st') == !ok && (ok ==> st'.session.id.Some?)
            && st'.session.cache == st.session.cache
  {
    var (w, r) := Register(st.world, o);
    if r.Ok? {
      ReplayKeepsSound(State(Session(Some(r.value), true, st.session.cache), w), plan, o);
    }
  }

  /** Ensuring a session never touches the cache; on success a session is held that stands for all of it, and a
      failed attempt never marks an unfinished replay as done. */
  lemma EnsureKeepsSound(st: State, plan: Plan, o: Oracle)
    requires Sound(st) && IsPlan(plan, st.session.cache)
    ensures var (st', ok) := EnsureSession(st, plan, o);
            && Sound(st')
            && st'.session.cache == st.session.cache
            && (ok ==> st'.session.id.Some? && !st'.session.pending && Fold(HeldLog(st')) == st.session.cache)
            && (!ok && Recovering(st) ==> Recovering(st'))
  {
    if st.session.id.None? {
      RecoverKeepsSound(st, plan, o);
    } else {
      var (w, r) := Visit(st.world, o, st.session.id.value);
      match r
      case Ok(_) =>
        if st.session.pending {
          ReplayKeepsSound(State(st.session, w), plan, o);
        }
      case Err(NotRegistered) => RecoverKeepsSound(State(st.session.(id := None), w), plan, o);
      case Err(Failed) =>
    }
  }

  /** The cache after the host has learned the outcome. */
  function Absorb(d: Desired, outcome: Outcome): Desired {
    if outcome.Success? && outcome.acked.Some? then Apply(d, outcome.acked.value) else d
  }

  /** A ready client: a session is held that stands for the whole cache. */
  ghost predicate Ready(st: State) {
    Sound(st) && st.session.id.Some? && !st.session.pending
  }

  ghost predicate SoundAfter(st: State, st': State, outcome: Outcome) {
    Sound(st') && st'.session.cache == Absorb(st.session.cache, outcome)
  }

  lemma RecordKeepsSound(st: State, w: World, a: Ack)
    requires Ready(st) && w.logs == Record(st.world, st.session.id.value, a).logs
    ensures SoundAfter(st, Remember(State(st.session, w), a), Success(Some(a)))
  {
    hide Apply;
    FoldSnoc(HeldLog(st), a);
    ApplyKeepsWellKeyed(st.session.cache, a);
  }

  lemma RequestKeepsSound(st: State, a: Ack, o: Oracle)
    requires Ready(st)
    ensures SoundAfter(st, Request(st, a, o).0, Request(st, a, o).1)
  {
    var (w, r) := Send(st.world, o, st.session.id.value, a);
    if r.Ok? {
      RecordKeepsSound(st, w, a);
    }
  }

  lemma RemovalKeepsSound(st: State, a: Ack, o: Oracle)
    requires Ready(st)
    ensures SoundAfter(st, Removal(st, a, o).0, Removal(st, a, o).1)
  {
    var (w, r) := Ask(st.world, o, st.session.id.value, a);
    if r == Ok(true) {
      RecordKeepsSound(st, w, a);
    }
  }

  lemma ActKeepsSound(st: State, op: HostOp, o: Oracle)
    requires Ready(st) && !op.Shutdown?
    ensures SoundAfter(st, Act(st, op, o).0, Act(st, op, o).1)
  {
    match op
    case Attach(space) => RequestKeepsSound(st, Attached(space), o);
    case Enable(b, r) => RequestKeepsSound(st, Enabled(b, r), o);
    case Detach(id) => RemovalKeepsSound(st, Detached(id), o);
    case Disable(b, k) => RemovalKeepsSound(st, Disabled(b, k), o);
    case Connect =>
    case Query =>
    case Inspect =>
  }

  lemma PerformKeepsSound(st: State, op: HostOp, plan: Plan, o: Oracle)
    requires Sound(st) && IsPlan(plan, st.session.cache)
    ensures var (st', outcome) := Perform(st, op, plan, o);
            && Sound(st')
            && st'.session.cache == if op.Shutdown? then EMPTY else Absorb(st.session.cache, outcome)
  {
    if !op.Shutdown? && !(op.Inspect? && st.session.id.None?) {
      EnsureKeepsSound(State(st.session, Reach(st.world, o).0), plan, o);
      var (st1, ok) := ConnectClient(st, plan, o);
      if ok {
        ActKeepsSound(st1, op, o);
      }
    }
  }

  lemma StepKeepsSound(p: Progress, t: Turn, o: Oracle)
    requires Sound(p.state) && p.state.session.cache == Fold(p.history) && IsPlan(t.plan, p.state.session.cache)
    ensures Sound(Step(p, t, o).state)
    ensures Step(p, t, o).state.session.cache == Fold(Step(p, t, o).history)
  {
    PerformKeepsSound(p.state, t.op, t.plan, o);
    var outcome := Perform(p.state, t.op, t.plan, o).1;
    if outcome.Success? && outcome.acked.Some? {
      FoldSnoc(p.history, outcome.acked.value);
    }
  }

  // ----- whole runs

  lemma {:induction false} RunIsSound(turns: seq<Turn>, o: Oracle)
    requires Orderly(turns, o)
    ensures Sound(Run(turns, o).state) && Run(turns, o).state.session.cache == Fold(Run(turns, o).history)
  {
    if turns != [] {
      RunIsSound(turns[..|turns| - 1], o);
      StepKeepsSound(Run(turns[..|turns| - 1], o), turns[|turns| - 1], o);
    }
  }

  /** Main result. After any operations against any adversary the cache is what the host's own acknowledged
      operations add up to; and whenever a session is held with no replay pending, the requests acknowledged
      under that session add up to the same. */
  lemma {:induction false} RecoveryIsExact(turns: seq<Turn>, o: Oracle)
    requires Orderly(turns, o)
    ensures var Progress(st, history) := Run(turns, o);
            && st.session.cache == Fold(history)
            && (st.session.id.Some? ==> st.session.id.value < |st.world.logs|)
            && (st.session.id.Some? && !st.session.pending ==> Fold(HeldLog(st)) == Fold(history))
            && (st.session.id.Some? && st.session.pending ==> Within(Fold(HeldLog(st)), Fold(history)))
  {
    RunIsSound(turns, o);
  }

  /** The state after a number of attempts to ensure a session. */
  function Attempts(st: State, plans: seq<Plan>, o: Oracle): State {
    if plans == [] then st
    else EnsureSession(Attempts(st, plans[..|plans| - 1], o), plans[|plans| - 1], o).0
  }

  ghost predicate AllFail(st: State, plans: seq<Plan>, o: Oracle) {
    forall i :: 0 <= i < |plans| ==> !EnsureSession(Attempts(st, plans[..i], o), plans[i], o).1
  }

  lemma {:induction false} FailedAttempts(st: State, plans: seq<Plan>, o: Oracle)
    requires Sound(st) && Recovering(st)
    requires forall i :: 0 <= i < |plans| ==> IsPlan(plans[i], st.session.cache)
    requires AllFail(st, plans, o)
    ensures var st' := Attempts(st, plans, o);
            Sound(st') && Recovering(st') && st'.session.cache == st.session.cache
  {
    if plans != [] {
      var n := |plans| - 1;
      assert forall i :: 0 <= i < n ==> plans[..n][..i] == plans[..i];
      FailedAttempts(st, plans[..n], o);
      assert !EnsureSession(Attempts(st, plans[..n], o), plans[n], o).1;
      EnsureKeepsSound(Attempts(st, plans[..n], o), plans[n], o);
    }
  }

  /** Replay is resumable. However many attempts fail, each after any prefix of its calls, the replay stays
      pending and the session holds only cached requests; the first attempt to succeed leaves the session with
      exactly what one uninterrupted replay into a new session would have left. */
  lemma {:induction false} ReplayResumes(st: State, failed: seq<Plan>, last: Plan, uninterrupted: Plan, o: Oracle)
    requires Sound(st) && Recovering(st)
    requires forall i :: 0 <= i < |failed| ==> IsPlan(failed[i], st.session.cache)
    requires IsPlan(last, st.session.cache) && IsPlan(uninterrupted, st.session.cache)
    requires AllFail(st, failed, o)
    ensures var mid := Attempts(st, failed, o);
            && Recovering(mid)
            && (mid.session.id.Some? ==> mid.session.id.value < |mid.world.logs|
                                         && Within(Fold(HeldLog(mid)), st.session.cache))
    ensures var (end, ok) := EnsureSession(Attempts(st, failed, o), last, o);
            ok ==> && end.session.id.Some? && !end.session.pending
                   && end.session.id.value < |end.world.logs|
                   && Fold(HeldLog(end)) == Fold(Requests(uninterrupted))
                   && Fold(HeldLog(end)) == st.session.cache
  {
    FailedAttempts(st, failed, o);
    EnsureKeepsSound(Attempts(st, failed, o), last, o);
    CompleteReplay([], uninterrupted, st.session.cache);
    assert [] + Requests(uninterrupted) == Requests(uninterrupted);
  }

  // ----- hosts that enable only inside attached spaces

  /** Whenever the host enables a backend, the binding's space is one it has attached and not detached. */
  ghost predicate Disciplined(turns: seq<Turn>, o: Oracle) {
    turns == [] ||
    (Disciplined(turns[..|turns| - 1], o)
     && (turns[|turns| - 1].op.Enable? ==>
           turns[|turns| - 1].op.request.spaceId in Fold(Run(turns[..|turns| - 1], o).history).spaces))
  }

  /** An acknowledged enable is the one the host asked for. */
  lemma PerformLearnsItsOwn(st: State, op: HostOp, plan: Plan, o: Oracle)
    requires var outcome := Perform(st, op, plan, o).1;
             !op.Shutdown? && outcome.Success? && outcome.acked.Some? && outcome.acked.value.Enabled?
    ensures var a := Perform(st, op, plan, o).1.acked.value;
            op == Enable(a.backend, a.request)
  {
    hide ConnectClient;
  }

  lemma ApplyKeepsCovered(d: Desired, a: Ack)
    requires Covered(d)
    requires a.Enabled? ==> a.request.spaceId in d.spaces
    ensures Covered(Apply(d, a))
  {
  }

  lemma {:induction false} BindingsStayCovered(turns: seq<Turn>, o: Oracle)
    requires Orderly(turns, o) && Disciplined(turns, o)
    ensures Covered(Run(turns, o).state.session.cache)
  {
    if turns != [] {
      hide Perform, Act, Apply;
      var init, t := turns[..|turns| - 1], turns[|turns| - 1];
      BindingsStayCovered(init, o);
      RunIsSound(init, o);
      var st := Run(init, o).state;
      PerformKeepsSound(st, t.op, t.plan, o);
      var outcome := Perform(st, t.op, t.plan, o).1;
      if !t.op.Shutdown? && outcome.Success? && outcome.acked.Some? {
        if outcome.acked.value.Enabled? {
          PerformLearnsItsOwn(st, t.op, t.plan, o);
        }
        ApplyKeepsCovered(st.session.cache, outcome.acked.value);
      }
    }
  }

  /** For such a host, in every reachable state every replay attaches a binding's space before enabling it. */
  lemma ReplayAttachesBeforeEnabling(turns: seq<Turn>, o: Oracle, plan: Plan, i: nat)
    requires Orderly(turns, o) && Disciplined(turns, o)
    requires IsPlan(plan, Run(turns, o).state.session.cache)
    requires i < |Requests(plan)| && Requests(plan)[i].Enabled?
    ensures exists j :: 0 <= j < i && Requests(plan)[j].Attached?
                        && Requests(plan)[j].space.spaceId == Requests(plan)[i].request.spaceId
  {
    RunIsSound(turns, o);
    BindingsStayCovered(turns, o);
    SpacesComeFirst(plan, Run(turns, o).state.session.cache, i);
  }

  // ----- when the controller behaves

  /** From call `start` on nothing fails and no session is dropped. */
  ghost predicate Quiet(o: Oracle, start: nat) {
    forall n: nat :: n >= start ==> !o(n).fails && o(n).gone == {}
  }

  lemma {:induction false} QuietSendAll(w: World, o: Oracle, s: SessionId, requests: seq<Ack>)
    requires Quiet(o, w.calls) && s in w.live
    ensures var (w', r) := SendAll(w, o, s, requests);
            r.Ok? && w'.calls >= w.calls && w'.live == w.live
    decreases |requests|
  {
    if requests != [] {
      QuietSendAll(Send(w, o, s, requests[0]).0, o, s, requests[1..]);
    }
  }

  lemma QuietEnsure(st: State, plan: Plan, o: Oracle)
    requires Quiet(o, st.world.calls)
    ensures var (st', ok) := EnsureSession(st, plan, o);
            && ok && st'.world.calls >= st.world.calls
            && st'.session.id.Some? && st'.session.id.value in st'.world.live
  {
    var w := st.world;
    if st.session.id.Some? {
      var s := st.session.id.value;
      w := Visit(st.world, o, s).0;
      if s in w.live {
        QuietSendAll(w, o, s, Requests(plan));
      }
    }
    QuietSendAll(Register(w, o).0, o, |w.logs|, Requests(plan));
  }

  /** Whatever was lost before, once the controller behaves the next operation recovers by itself and succeeds. */
  lemma QuietOperationSucceeds(st: State, op: HostOp, plan: Plan, o: Oracle)
    requires Quiet(o, st.world.calls)
    requires op.Inspect? ==> st.session.id.Some?
    ensures Perform(st, op, plan, o).1.Success?
    ensures op.Attach? ==> Perform(st, op, plan, o).1.acked == Some(Attached(op.space))
    ensures op.Enable? ==> Perform(st, op, plan, o).1.acked == Some(Enabled(op.backend, op.request))
  {
    if !op.Shutdown? {
      QuietEnsure(State(st.session, Reach(st.world, o).0), plan, o);
      hide EnsureSession;
    }
  }
}
