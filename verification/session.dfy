/** The Rust SDK client: session recovery and replay of the desired state. */
module ClientSession {
  import opened Wrappers
  import opened DesiredState
  import opened ControllerModel

  /** The mutex-held part of the client. `pending` says that the current session still needs a replay. */
  datatype Session = Session(id: Option<SessionId>, pending: bool, cache: Desired)

  const NEW_SESSION := Session(None, false, EMPTY)

  datatype State = State(session: Session, world: World)

  const START := State(NEW_SESSION, NEW_WORLD)

  /** The operations of the client that touch the session. `Connect` is also what a renewal tick does, `Query`
      stands for every data call, `Inspect` for the two listing calls that need an existing session. */
  datatype HostOp =
    | Connect
    | Query
    | Inspect
    | Attach(space: SpaceRegistration)
    | Detach(spaceId: string)
    | Enable(backend: Backend, request: EnableRequest)
    | Disable(disabledBackend: Backend, key: BindingKey)
    | Shutdown

  /** What the host is told; `acked` is the desired-state change the controller acknowledged, if any. */
  datatype Outcome = Failure | Success(acked: Option<Ack>)

  // ----- what one operation does, given the replay order and the adversary

  function Replay(st: State, s: SessionId, plan: Plan, o: Oracle): (State, bool) {
    var (w, r) := SendAll(st.world, o, s, Requests(plan));
    if r.Ok? then (State(st.session.(pending := false), w), true) else (State(st.session, w), false)
  }

  /** Registers a new session and marks it as awaiting replay before replaying. */
  function Recover(st: State, plan: Plan, o: Oracle): (State, bool) {
    var (w, r) := Register(st.world, o);
    match r
    case Err(_) => (State(st.session, w), false)
    case Ok(s) => Replay(State(Session(Some(s), true, st.session.cache), w), s, plan, o)
  }

  function EnsureSession(st: State, plan: Plan, o: Oracle): (State, bool) {
    match st.session.id
    case None => Recover(st, plan, o)
    case Some(s) =>
      var (w, r) := Visit(st.world, o, s);
      match r
      case Ok(_) => if st.session.pending then Replay(State(st.session, w), s, plan, o) else (State(st.session, w), true)
      case Err(NotRegistered) => Recover(State(st.session.(id := None), w), plan, o)
      case Err(Failed) => (State(st.session, w), false)
  }

  /** The transport comes first: an unreachable controller fails the operation before any session work. */
  function ConnectClient(st: State, plan: Plan, o: Oracle): (State, bool) {
    var (w, up) := Reach(st.world, o);
    if up then EnsureSession(State(st.session, w), plan, o) else (State(st.session, w), false)
  }

  function Remember(st: State, a: Ack): State {
    st.(session := st.session.(cache := Apply(st.session.cache, a)))
  }

  function Request(st: State, a: Ack, o: Oracle): (State, Outcome) {
    match st.session.id
    case None => (st, Failure)
    case Some(s) =>
      var (w, r) := Send(st.world, o, s, a);
      if r.Ok? then (Remember(State(st.session, w), a), Success(Some(a))) else (State(st.session, w), Failure)
  }

  function Removal(st: State, a: Ack, o: Oracle): (State, Outcome) {
    match st.session.id
    case None => (st, Failure)
    case Some(s) =>
      var (w, r) := Ask(st.world, o, s, a);
      match r
      case Err(_) => (State(st.session, w), Failure)
      case Ok(true) => (Remember(State(st.session, w), a), Success(Some(a)))
      case Ok(false) => (State(st.session, w), Success(None))
  }

  function DataCall(st: State, o: Oracle): (State, Outcome) {
    match st.session.id
    case None => (st, Failure)
    case Some(s) =>
      var (w, r) := Visit(st.world, o, s);
      (State(st.session, w), if r.Ok? then Success(None) else Failure)
  }

  /** Unregisters on a best-effort basis, then forgets everything. */
  function Close(st: State, o: Oracle): State {
    var w :=
      if st.session.id.None? then st.world
      else
        var (w1, up) := Reach(st.world, o);
        if up then Unregister(w1, o, st.session.id.value) else w1;
    State(NEW_SESSION, w)
  }

  /** The operation proper, once a session is ensured. */
  function Act(st: State, op: HostOp, o: Oracle): (State, Outcome)
    requires !op.Shutdown?
  {
    match op
    case Connect => (st, Success(None))
    case Query => DataCall(st, o)
    case Inspect => DataCall(st, o)
    case Attach(space) => Request(st, Attached(space), o)
    case Enable(b, r) => Request(st, Enabled(b, r), o)
    case Detach(id) => Removal(st, Detached(id), o)
    case Disable(b, k) => Removal(st, Disabled(b, k), o)
  }

  function Perform(st: State, op: HostOp, plan: Plan, o: Oracle): (State, Outcome) {
    if op.Shutdown? then (Close(st, o), Success(None))
    else if op.Inspect? && st.session.id.None? then (State(st.session, Reach(st.world, o).0), Failure)
    else
      var (st1, ok) := ConnectClient(st, plan, o);
      if !ok then (st1, Failure) else Act(st1, op, o)
  }

  // ----- what the answers mean

  /** The last call made was let through by the environment, and the session held is alive in the controller. */
  ghost predicate LastAdmitted(st: State, o: Oracle) {
    && st.world.calls > 0 && !o(st.world.calls - 1).fails
    && st.session.id.Some? && st.session.id.value in st.world.live
  }

  /** The environment lets the next call under this session through. */
  ghost predicate Admits(w: World, o: Oracle, s: SessionId) {
    !o(w.calls).fails && s in w.live && s !in o(w.calls).gone
  }

  /** Between two states: a change that was acknowledged is at the end of the log of the session held, and no other log
      has moved; one that was not has moved none. */
  ghost predicate Answered(before: State, after: State, a: Ack, acked: bool) {
    && (!acked ==> after.world.logs == before.world.logs)
    && (acked ==> before.session.id.Some? && after.session.id == before.session.id
                  && (before.session.id.value < |before.world.logs| ==>
                        var s, logs := before.session.id.value, before.world.logs;
                        after.world.logs == logs[s := logs[s] + [a]]))
  }

  lemma {:induction false} SendAllAnswers(w: World, o: Oracle, s: SessionId, requests: seq<Ack>)
    ensures var (w', r) := SendAll(w, o, s, requests);
            && w.calls <= w'.calls
            && (r.Ok? && requests != [] ==> w'.calls > w.calls && !o(w'.calls - 1).fails && s in w'.live)
            && (r.Ok? && requests == [] ==> w' == w)
            && (r.Err? ==> w'.calls > w.calls && (o(w'.calls - 1).fails || s !in w'.live))
    decreases |requests|
  {
    if requests != [] {
      var (w1, r) := Send(w, o, s, requests[0]);
      if r.Ok? {
        SendAllAnswers(w1, o, s, requests[1..]);
      }
    }
  }

  lemma ResumeAnswers(st: State, s: SessionId, plan: Plan, o: Oracle)
    requires st.session.id == Some(s) && LastAdmitted(st, o)
    ensures var (st', ok) := Replay(st, s, plan, o);
            st'.world.calls >= st.world.calls && (ok <==> LastAdmitted(st', o))
  {
    var (w, r) := SendAll(st.world, o, s, Requests(plan));
    SendAllAnswers(st.world, o, s, Requests(plan));
    assert r.Ok? ==> w.calls > 0 && !o(w.calls - 1).fails && s in w.live;
    assert r.Err? ==> o(w.calls - 1).fails || s !in w.live;
    assert Replay(st, s, plan, o).1 == r.Ok?;
    assert Replay(st, s, plan, o).0.world == w;
  }

  lemma RecoverAnswers(st: State, plan: Plan, o: Oracle)
    requires st.session.id.None?
    ensures var (st', ok) := Recover(st, plan, o);
            st'.world.calls > st.world.calls && (ok <==> LastAdmitted(st', o))
  {
    hide Replay;
    var (w, r) := Register(st.world, o);
    if r.Ok? {
      ResumeAnswers(State(Session(Some(r.value), true, st.session.cache), w), r.value, plan, o);
    }
  }

  /** Ensuring a session succeeds exactly when its last call did, and then a live session is held. */
  lemma EnsureAnswers(st: State, plan: Plan, o: Oracle)
    ensures var (st', ok) := EnsureSession(st, plan, o);
            st'.world.calls > st.world.calls && (ok <==> LastAdmitted(st', o))
  {
    hide Requests, Replay, Recover;
    if st.session.id.None? {
      RecoverAnswers(st, plan, o);
    } else {
      var s := st.session.id.value;
      var (w, r) := Visit(st.world, o, s);
      if r.Ok? {
        ResumeAnswers(State(st.session, w), s, plan, o);
      } else if r == Err(NotRegistered) {
        RecoverAnswers(State(st.session.(id := None), w), plan, o);
      }
    }
  }

  lemma ConnectAnswers(st: State, plan: Plan, o: Oracle)
    ensures var (st', ok) := ConnectClient(st, plan, o);
            st'.world.calls > st.world.calls && (ok <==> LastAdmitted(st', o))
    ensures o(st.world.calls).fails ==> ConnectClient(st, plan, o).0.session == st.session && ConnectClient(st, plan, o).0.world.logs == st.world.logs
  {
    hide EnsureSession;
    EnsureAnswers(State(st.session, Reach(st.world, o).0), plan, o);
  }

  /** The change that an operation asks for, if the controller lets it through and gives this answer. */
  function Asked(op: HostOp, answer: bool): Option<Ack> {
    match op
    case Attach(space) => Some(Attached(space))
    case Enable(b, r) => Some(Enabled(b, r))
    case Detach(id) => if answer then Some(Detached(id)) else None
    case Disable(b, k) => if answer then Some(Disabled(b, k)) else None
    case _ => None
  }

  lemma EnsureKeepsCache(st: State, plan: Plan, o: Oracle)
    ensures EnsureSession(st, plan, o).0.session.cache == st.session.cache
  {
    hide Requests, SendAll;
  }

  /** The operation proper succeeds exactly when its call is let through; a removal is acknowledged exactly when it is
      also answered `true`. An acknowledged change is added to the log of the session and applied to the cache, and
      nothing else is. */
  lemma ActAnswers(st: State, op: HostOp, o: Oracle)
    requires !op.Shutdown? && st.session.id.Some?
    ensures var s, (st', outcome) := st.session.id.value, Act(st, op, o);
            && (op.Connect? || (outcome.Success? <==> Admits(st.world, o, s)))
            && (!op.Connect? ==> st'.world.calls == st.world.calls + 1)
            && (!op.Connect? ==> (outcome.Success? <==> LastAdmitted(st', o)))
            && (outcome.Success? ==> outcome.acked == Asked(op, o(st.world.calls).answer))
            && (if outcome.Success? && outcome.acked.Some? then
                  && st'.session.cache == Apply(st.session.cache, outcome.acked.value)
                  && (s < |st.world.logs| ==> st'.world.logs == st.world.logs[s := st.world.logs[s] + [outcome.acked.value]])
                else st'.session.cache == st.session.cache && st'.world.logs == st.world.logs)
  {
    hide Apply;
  }

  /** So the answer to every operation is the answer to its last call. */
  lemma PerformAnswers(st: State, op: HostOp, plan: Plan, o: Oracle)
    requires !op.Shutdown?
    ensures var (st', outcome) := Perform(st, op, plan, o);
            && (outcome.Success? <==> LastAdmitted(st', o))
            && (outcome.Success? && (op.Detach? || op.Disable?) ==> (outcome.acked.Some? <==> o(st'.world.calls - 1).answer))
  {
    hide ConnectClient, Act;
    ConnectAnswers(st, plan, o);
    var (st1, ok) := ConnectClient(st, plan, o);
    if ok {
      ActAnswers(st1, op, o);
      ActConnect(st1, o);
    }
  }

  lemma ActConnect(st: State, o: Oracle)
    ensures Act(st, Connect, o) == (st, Success(None))
  {
  }

  /** A shutdown forgets everything. When its calls go through, the session is gone from the controller; no other session
      ever goes by it. */
  lemma CloseEndsSession(st: State, o: Oracle)
    ensures Close(st, o).session == Session(None, false, EMPTY) && Close(st, o).world.logs == st.world.logs
    ensures st.session.id.Some? && !o(st.world.calls).fails && !o(st.world.calls + 1).fails ==>
              st.session.id.value !in Close(st, o).world.live
    ensures forall s :: s in st.world.live && Some(s) != st.session.id && s !in o(st.world.calls).gone && s !in o(st.world.calls + 1).gone ==>
              s in Close(st, o).world.live
  {
  }

  // ----- the client itself

  /** The values of a map, in some order. */
  method Values<K, V(==, !new)>(m: map<K, V>) returns (values: seq<V>)
    ensures Lists(values, m)
  {
    values := [];
    var rest := m;
    while rest.Keys != {}
      invariant SubMap(rest, m)
      invariant forall k :: k in m && k !in rest ==> m[k] in values
      invariant forall v :: v in values ==> v in m.Values
      decreases |rest|
    {
      var k :| k in rest.Keys;
      assert k in m && m[k] in m.Values;
      values := values + [rest[k]];
      var next := map j | j in rest && j != k :: rest[j];
      assert next.Keys == rest.Keys - {k};
      rest := next;
    }
    assert forall v :: v in m.Values ==> exists k :: k in m && m[k] == v;
  }

  class ControllerClient {
    const controller: Controller
    var clientSessionId: Option<SessionId>
    var sessionNeedsReplay: bool
    var attachedSpaces: map<string, SpaceRegistration>
    var sqliteBindings: map<BindingKey, EnableRequest>
    var lancedbBindings: map<BindingKey, EnableRequest>

    ghost function Cache(): Desired
      reads this
    {
      Desired(attachedSpaces, sqliteBindings, lancedbBindings)
    }

    ghost function Current(): State
      reads this, controller
    {
      State(Session(clientSessionId, sessionNeedsReplay, Cache()), controller.world)
    }

    constructor (controller: Controller)
      ensures this.controller == controller
      ensures Current() == State(NEW_SESSION, controller.world)
    {
      this.controller := controller;
      clientSessionId, sessionNeedsReplay := None, false;
      attachedSpaces, sqliteBindings, lancedbBindings := map[], map[], map[];
    }

    method RememberAttachedSpace(registration: SpaceRegistration)
      modifies this
      ensures attachedSpaces == old(attachedSpaces)[registration.spaceId := registration]
      ensures sqliteBindings == old(sqliteBindings) && lancedbBindings == old(lancedbBindings)
      ensures Current() == Remember(old(Current()), Attached(registration))
    {
      attachedSpaces := attachedSpaces[registration.spaceId := registration];
    }

    method ForgetAttachedSpace(spaceId: string)
      modifies this
      ensures attachedSpaces == old(attachedSpaces) - {spaceId}
      ensures sqliteBindings == map k | k in old(sqliteBindings) && k.spaceId != spaceId :: old(sqliteBindings)[k]
      ensures lancedbBindings == map k | k in old(lancedbBindings) && k.spaceId != spaceId :: old(lancedbBindings)[k]
      ensures Current() == Remember(old(Current()), Detached(spaceId))
    {
      attachedSpaces := attachedSpaces - {spaceId};
      sqliteBindings := map k | k in sqliteBindings && k.spaceId != spaceId :: sqliteBindings[k];
      lancedbBindings := map k | k in lancedbBindings && k.spaceId != spaceId :: lancedbBindings[k];
    }

    method RememberBinding(backend: Backend, request: EnableRequest)
      modifies this
      ensures attachedSpaces == old(attachedSpaces)
      ensures var key := BindingKey(request.spaceId, request.bindingId);
              && sqliteBindings == (if backend.Sqlite? then old(sqliteBindings)[key := request] else old(sqliteBindings))
              && lancedbBindings == (if backend.LanceDb? then old(lancedbBindings)[key := request] else old(lancedbBindings))
      ensures Current() == Remember(old(Current()), Enabled(backend, request))
    {
      var key := BindingKey(request.spaceId, request.bindingId);
      match backend
      case Sqlite => sqliteBindings := sqliteBindings[key := request];
      case LanceDb => lancedbBindings := lancedbBindings[key := request];
    }

    method ForgetBinding(backend: Backend, key: BindingKey)
      modifies this
      ensures attachedSpaces == old(attachedSpaces)
      ensures sqliteBindings == (if backend.Sqlite? then old(sqliteBindings) - {key} else old(sqliteBindings))
      ensures lancedbBindings == (if backend.LanceDb? then old(lancedbBindings) - {key} else old(lancedbBindings))
      ensures Current() == Remember(old(Current()), Disabled(backend, key))
    {
      match backend
      case Sqlite => sqliteBindings := sqliteBindings - {key};
      case LanceDb => lancedbBindings := lancedbBindings - {key};
    }

    method ClearDesiredSessionState()
      modifies this
      ensures clientSessionId == None && !sessionNeedsReplay
      ensures attachedSpaces == map[] && sqliteBindings == map[] && lancedbBindings == map[]
      ensures Current() == State(NEW_SESSION, controller.world)
    {
      clientSessionId, sessionNeedsReplay := None, false;
      attachedSpaces, sqliteBindings, lancedbBindings := map[], map[], map[];
    }

    method SnapshotDesiredState() returns (plan: Plan)
      ensures IsPlan(plan, Cache())
    {
      var spaces := Values(attachedSpaces);
      var sqlite := Values(sqliteBindings);
      var lancedb := Values(lancedbBindings);
      plan := Plan(spaces, sqlite, lancedb);
    }

    /** One of the three replay loops. */
    method ReplayRequests(s: SessionId, requests: seq<Ack>) returns (ok: bool)
      modifies controller
      ensures var (w, r) := SendAll(old(controller.world), controller.oracle, s, requests);
              controller.world == w && ok == r.Ok?
    {
      for i := 0 to |requests|
        invariant SendAll(old(controller.world), controller.oracle, s, requests)
               == SendAll(controller.world, controller.oracle, s, requests[i..])
      {
        assert requests[i..][1..] == requests[i + 1..];
        var reply := controller.SendRequest(s, requests[i]);
        if reply.Err? {
          return false;
        }
      }
      return true;
    }

    method ReplaySnapshot(s: SessionId, plan: Plan) returns (ok: bool)
      modifies controller
      ensures var (w, r) := SendAll(old(controller.world), controller.oracle, s, Requests(plan));
              controller.world == w && ok == r.Ok?
    {
      var spaces, sqlite, lancedb := Attaches(plan.spaces), Enables(Sqlite, plan.sqlite), Enables(LanceDb, plan.lancedb);
      ghost var w, o := controller.world, controller.oracle;
      assert Requests(plan) == spaces + sqlite + lancedb;
      SendAllAppend(w, o, s, spaces + sqlite, lancedb);
      SendAllAppend(w, o, s, spaces, sqlite);
      ok := ReplayRequests(s, spaces);
      assert controller.world == SendAll(w, o, s, spaces).0;
      if ok {
        ok := ReplayRequests(s, sqlite);
      }
      if ok {
        ok := ReplayRequests(s, lancedb);
      }
    }

    method EnsureRegisteredSession() returns (ok: bool, ghost plan: Plan)
      modifies this, controller
      ensures IsPlan(plan, old(Cache()))
      ensures (Current(), ok) == EnsureSession(old(Current()), plan, controller.oracle)
    {
      plan := SomePlan(Cache());
      var session: SessionId;
      if clientSessionId.Some? {
        session := clientSessionId.value;
        var renewed := controller.CallUnderSession(session);
        match renewed {
          case Ok(_) =>
            if !sessionNeedsReplay {
              return true, plan;
            }
          case Err(Failed) =>
            return false, plan;
          case Err(NotRegistered) =>
            clientSessionId := None;
            var registered := controller.RegisterClient();
            if registered.Err? {
              return false, plan;
            }
            session := registered.value;
            clientSessionId := Some(session);
            sessionNeedsReplay := true;
        }
      } else {
        var registered := controller.RegisterClient();
        if registered.Err? {
          return false, plan;
        }
        session := registered.value;
        clientSessionId := Some(session);
        sessionNeedsReplay := true;
      }

      var snapshot := SnapshotDesiredState();
      plan := snapshot;
      ok := ReplaySnapshot(session, snapshot);
      if !ok {
        return;
      }
      sessionNeedsReplay := false;
    }

    method Connect() returns (ok: bool, ghost plan: Plan)
      modifies this, controller
      ensures IsPlan(plan, old(Cache()))
      ensures (Current(), ok) == ConnectClient(old(Current()), plan, controller.oracle)
      ensures ok <==> LastAdmitted(Current(), controller.oracle)
      ensures Cache() == old(Cache())
    {
      hide EnsureSession;
      ghost var st := Current();
      var up := controller.TryConnect();
      if up {
        ok, plan := EnsureRegisteredSession();
      } else {
        plan := SomePlan(Cache());
        ok := false;
      }
      ConnectAnswers(st, plan, controller.oracle);
      EnsureKeepsCache(State(st.session, Reach(st.world, controller.oracle).0), plan, controller.oracle);
    }

    method QueryData() returns (ok: bool, ghost plan: Plan)
      modifies this, controller
      ensures IsPlan(plan, old(Cache()))
      ensures var (st, outcome) := Perform(old(Current()), Query, plan, controller.oracle);
              Current() == st && ok == outcome.Success?
      ensures ok <==> LastAdmitted(Current(), controller.oracle)
      ensures Cache() == old(Cache())
    {
      ok, plan := Connect();
      if !ok {
        return;
      }
      if clientSessionId.None? {
        return false, plan;
      }
      var reply := controller.CallUnderSession(clientSessionId.value);
      ok := reply.Ok?;
    }

    /** Never starts a session of its own. */
    method ListForSession() returns (ok: bool, ghost plan: Plan)
      modifies this, controller
      ensures IsPlan(plan, old(Cache()))
      ensures var (st, outcome) := Perform(old(Current()), Inspect, plan, controller.oracle);
              Current() == st && ok == outcome.Success?
      ensures ok <==> LastAdmitted(Current(), controller.oracle)
      ensures Cache() == old(Cache())
      ensures old(clientSessionId).None? ==> !ok && clientSessionId.None? && controller.world.logs == old(controller.world.logs)
    {
      hide EnsureSession;
      var up := controller.TryConnect();
      if !up || clientSessionId.None? {
        plan := SomePlan(Cache());
        return false, plan;
      }
      ghost var reached := Current();
      ok, plan := EnsureRegisteredSession();
      EnsureAnswers(reached, plan, controller.oracle);
      EnsureKeepsCache(reached, plan, controller.oracle);
      if !ok {
        return;
      }
      if clientSessionId.None? {
        return false, plan;
      }
      var reply := controller.CallUnderSession(clientSessionId.value);
      ok := reply.Ok?;
    }

    method AttachSpace(registration: SpaceRegistration) returns (ok: bool, ghost plan: Plan)
      modifies this, controller
      ensures IsPlan(plan, old(Cache()))
      ensures var (st, outcome) := Perform(old(Current()), Attach(registration), plan, controller.oracle);
              Current() == st && ok == outcome.Success?
      ensures ok <==> LastAdmitted(Current(), controller.oracle)
      ensures Answered(ConnectClient(old(Current()), plan, controller.oracle).0, Current(), Attached(registration), ok)
      ensures attachedSpaces == if ok then old(attachedSpaces)[registration.spaceId := registration] else old(attachedSpaces)
      ensures sqliteBindings == old(sqliteBindings) && lancedbBindings == old(lancedbBindings)
    {
      ok, plan := Connect();
      if !ok {
        return;
      }
      if clientSessionId.None? {
        return false, plan;
      }
      var reply := controller.SendRequest(clientSessionId.value, Attached(registration));
      if reply.Err? {
        return false, plan;
      }
      RememberAttachedSpace(registration);
    }

    /** `detached` is meaningful only when `ok`. */
    method DetachSpace(spaceId: string) returns (ok: bool, detached: bool, ghost plan: Plan)
      modifies this, controller
      ensures IsPlan(plan, old(Cache()))
      ensures var (st, outcome) := Perform(old(Current()), Detach(spaceId), plan, controller.oracle);
              Current() == st && ok == outcome.Success? && (ok ==> detached == outcome.acked.Some?)
      ensures ok <==> LastAdmitted(Current(), controller.oracle)
      ensures detached <==> ok && controller.oracle(controller.world.calls - 1).answer
      ensures Answered(ConnectClient(old(Current()), plan, controller.oracle).0, Current(), Detached(spaceId), detached)
      ensures attachedSpaces == if detached then old(attachedSpaces) - {spaceId} else old(attachedSpaces)
      ensures !detached ==> Cache() == old(Cache())
      ensures detached ==>
                && sqliteBindings == (map k | k in old(sqliteBindings) && k.spaceId != spaceId :: old(sqliteBindings)[k])
                && lancedbBindings == (map k | k in old(lancedbBindings) && k.spaceId != spaceId :: old(lancedbBindings)[k])
    {
      detached := false;
      ok, plan := Connect();
      if !ok {
        return;
      }
      if clientSessionId.None? {
        return false, false, plan;
      }
      var reply := controller.AskRemoval(clientSessionId.value, Detached(spaceId));
      if reply.Err? {
        return false, false, plan;
      }
      detached := reply.value;
      if detached {
        ForgetAttachedSpace(spaceId);
      }
    }

    method EnableBackend(backend: Backend, request: EnableRequest) returns (ok: bool, ghost plan: Plan)
      modifies this, controller
      ensures IsPlan(plan, old(Cache()))
      ensures var (st, outcome) := Perform(old(Current()), Enable(backend, request), plan, controller.oracle);
              Current() == st && ok == outcome.Success?
      ensures ok <==> LastAdmitted(Current(), controller.oracle)
      ensures Answered(ConnectClient(old(Current()), plan, controller.oracle).0, Current(), Enabled(backend, request), ok)
      ensures attachedSpaces == old(attachedSpaces)
      ensures var key := BindingKey(request.spaceId, request.bindingId);
              && sqliteBindings == (if ok && backend.Sqlite? then old(sqliteBindings)[key := request] else old(sqliteBindings))
              && lancedbBindings == (if ok && backend.LanceDb? then old(lancedbBindings)[key := request] else old(lancedbBindings))
    {
      ok, plan := Connect();
      if !ok {
        return;
      }
      if clientSessionId.None? {
        return false, plan;
      }
      var reply := controller.SendRequest(clientSessionId.value, Enabled(backend, request));
      if reply.Err? {
        return false, plan;
      }
      RememberBinding(backend, request);
    }

    /** `disabled` is meaningful only when `ok`. */
    method DisableBackend(backend: Backend, key: BindingKey) returns (ok: bool, disabled: bool, ghost plan: Plan)
      modifies this, controller
      ensures IsPlan(plan, old(Cache()))
      ensures var (st, outcome) := Perform(old(Current()), Disable(backend, key), plan, controller.oracle);
              Current() == st && ok == outcome.Success? && (ok ==> disabled == outcome.acked.Some?)
      ensures ok <==> LastAdmitted(Current(), controller.oracle)
      ensures disabled <==> ok && controller.oracle(controller.world.calls - 1).answer
      ensures Answered(ConnectClient(old(Current()), plan, controller.oracle).0, Current(), Disabled(backend, key), disabled)
      ensures attachedSpaces == old(attachedSpaces)
      ensures sqliteBindings == if disabled && backend.Sqlite? then old(sqliteBindings) - {key} else old(sqliteBindings)
      ensures lancedbBindings == if disabled && backend.LanceDb? then old(lancedbBindings) - {key} else old(lancedbBindings)
    {
      disabled := false;
      ok, plan := Connect();
      if !ok {
        return;
      }
      if clientSessionId.None? {
        return false, false, plan;
      }
      var reply := controller.AskRemoval(clientSessionId.value, Disabled(backend, key));
      if reply.Err? {
        return false, false, plan;
      }
      disabled := reply.value;
      if disabled {
        ForgetBinding(backend, key);
      }
    }

    method ShutdownClient()
      modifies this, controller
      ensures Current() == Close(old(Current()), controller.oracle)
      ensures clientSessionId == None && !sessionNeedsReplay && Cache() == EMPTY
      ensures controller.world.logs == old(controller.world.logs)
      ensures old(clientSessionId).Some? ==>
                var o, n, id := controller.oracle, old(controller.world.calls), old(clientSessionId).value;
                && (!o(n).fails && !o(n + 1).fails ==> id !in controller.world.live)
                && (forall s :: s in old(controller.world.live) && s != id && s !in o(n).gone && s !in o(n + 1).gone ==> s in controller.world.live)
    {
      if clientSessionId.Some? {
        var up := controller.TryConnect();
        if up {
          controller.UnregisterClient(clientSessionId.value);
        }
      }
      ClearDesiredSessionState();
    }
  }

  /** Sending a list in two parts is sending it whole. */
  lemma {:induction false} SendAllAppend(w: World, o: Oracle, s: SessionId, first: seq<Ack>, second: seq<Ack>)
    ensures SendAll(w, o, s, first + second)
         == (var (w1, r) := SendAll(w, o, s, first); if r.Err? then (w1, r) else SendAll(w1, o, s, second))
    decreases |first|
  {
    if first == [] {
      assert first + second == second;
    } else {
      assert (first + second)[1..] == first[1..] + second;
      SendAllAppend(Send(w, o, s, first[0]).0, o, s, first[1..], second);
    }
  }
}
