/** The Go SDK's recovery: one operation under a session, and at most one more after the session was rebuilt.

    Unlike the Rust SDK it keeps no mark of an unfinished replay, so nothing is claimed here about what a session
    that is already held has been told. */
module GoClient {
  import opened Wrappers
  import opened DesiredState

  datatype Code = Unavailable | NotFound | Unauthenticated | OtherCode

  datatype RpcError = RpcError(code: Code, text: string)

  predicate Contains(text: string, part: string) {
    part <= text || (text != "" && Contains(text[1..], part))
  }

  /** Whether an error means that the session has to be rebuilt. */
  predicate IsRecoverable(error: Option<RpcError>): (r: bool)
    ensures r ==> error.Some?
  {
    error.Some? &&
    (error.value.code == Unavailable || error.value.code == NotFound || error.value.code == Unauthenticated
     || Contains(error.value.text, "client session"))
  }

  /** The operations of the host. Data calls change nothing that is remembered. */
  datatype HostCall =
    | AttachSpace(space: SpaceRegistration)
    | DetachSpace(spaceId: string)
    | EnableBackend(backend: Backend, request: EnableRequest)
    | DisableBackend(disabledBackend: Backend, key: BindingKey)
    | DataCall

  /** One call as the outside sees it, with the connection it went through and how it ended. */
  datatype Event =
    | Probed(error: Option<RpcError>)
    | Dialled(error: Option<RpcError>)
    | Registered(conn: nat, session: string, error: Option<RpcError>)
    | Replayed(conn: nat, session: string, ack: Ack, error: Option<RpcError>)
    | Operated(conn: nat, session: string, call: HostCall, error: Option<RpcError>)
    | HungUp(conn: nat)

  datatype Answer = Answer(error: Option<RpcError>, session: string)

  /** The outside world. The answer to the n-th call is fixed beforehand and arbitrary; a connection is known by the
      number of the call that opened it. */
  class Wire {
    const oracle: nat -> Answer
    var events: seq<Event>

    constructor (oracle: nat -> Answer)
      ensures this.oracle == oracle && events == []
    {
      this.oracle := oracle;
      events := [];
    }

    method Probe() returns (error: Option<RpcError>)
      modifies this
      ensures error == oracle(old(|events|)).error && events == old(events) + [Probed(error)]
    {
      error := oracle(|events|).error;
      events := events + [Probed(error)];
    }

    method Dial() returns (conn: nat, error: Option<RpcError>)
      modifies this
      ensures error == oracle(old(|events|)).error && conn == old(|events|) && events == old(events) + [Dialled(error)]
    {
      conn := |events|;
      error := oracle(|events|).error;
      events := events + [Dialled(error)];
    }

    method Register(conn: nat) returns (session: string, error: Option<RpcError>)
      modifies this
      ensures error == oracle(old(|events|)).error && session == oracle(old(|events|)).session
      ensures events == old(events) + [Registered(conn, session, error)]
    {
      error := oracle(|events|).error;
      session := oracle(|events|).session;
      events := events + [Registered(conn, session, error)];
    }

    method Replay(conn: nat, session: string, ack: Ack) returns (error: Option<RpcError>)
      modifies this
      ensures error == oracle(old(|events|)).error && events == old(events) + [Replayed(conn, session, ack, error)]
    {
      error := oracle(|events|).error;
      events := events + [Replayed(conn, session, ack, error)];
    }

    method Operate(conn: nat, session: string, call: HostCall) returns (error: Option<RpcError>)
      modifies this
      ensures error == oracle(old(|events|)).error && events == old(events) + [Operated(conn, session, call, error)]
    {
      error := oracle(|events|).error;
      events := events + [Operated(conn, session, call, error)];
    }

    method HangUp(conn: nat)
      modifies this
      ensures events == old(events) + [HungUp(conn)]
    {
      events := events + [HungUp(conn)];
    }
  }

  // ----- what is remembered

  /** The remembered values as the requests that restore them, under the same keys. */
  function AttachAll(spaces: map<string, SpaceRegistration>): map<string, Ack> {
    map k | k in spaces :: Attached(spaces[k])
  }

  function EnableAll(backend: Backend, bindings: map<BindingKey, EnableRequest>): map<BindingKey, Ack> {
    map k | k in bindings :: Enabled(backend, bindings[k])
  }

  /** The requests that stand for everything remembered. */
  function Remembered(d: Desired): set<Ack> {
    AttachAll(d.spaces).Values + EnableAll(Sqlite, d.sqlite).Values + EnableAll(LanceDb, d.lancedb).Values
  }

  /** The memory after a successful operation. Detaching forgets the space but not the bindings in it, and both
      removals forget whatever the controller answered. */
  function Remember(d: Desired, call: HostCall): Desired {
    match call
    case AttachSpace(space) => d.(spaces := d.spaces[space.spaceId := space])
    case DetachSpace(id) => d.(spaces := d.spaces - {id})
    case EnableBackend(Sqlite, r) => d.(sqlite := d.sqlite[r.Key() := r])
    case EnableBackend(LanceDb, r) => d.(lancedb := d.lancedb[r.Key() := r])
    case DisableBackend(Sqlite, k) => d.(sqlite := d.sqlite - {k})
    case DisableBackend(LanceDb, k) => d.(lancedb := d.lancedb - {k})
    case DataCall => d
  }

  // ----- the pieces of a trace

  ghost predicate AllSent(sent: seq<Event>, conn: nat, session: string, acks: set<Ack>) {
    && (forall e :: e in sent ==> exists a :: a in acks && e == Replayed(conn, session, a, None))
    && (forall a :: a in acks ==> Replayed(conn, session, a, None) in sent)
  }

  predicate NoOperation(events: seq<Event>) {
    forall e :: e in events ==> !e.Operated?
  }

  /** The events end with a call that failed in this way. */
  predicate EndsFailed(events: seq<Event>, error: Option<RpcError>) {
    events != [] && error.Some? && !events[|events| - 1].HungUp? && events[|events| - 1].error == error
  }

  /** A session was registered, and then everything remembered was sent under it, all of it accepted. */
  ghost predicate Rebuilt(events: seq<Event>, d: Desired, conn: nat, session: string) {
    && events != [] && events[0] == Registered(conn, session, None)
    && AllSent(events[1..], conn, session, Remembered(d))
  }

  lemma AllSentJoins(x: seq<Event>, y: seq<Event>, conn: nat, session: string, a: set<Ack>, b: set<Ack>)
    requires AllSent(x, conn, session, a) && AllSent(y, conn, session, b)
    ensures AllSent(x + y, conn, session, a + b)
  {
  }

  lemma AllSentHasNoOperation(sent: seq<Event>, conn: nat, session: string, acks: set<Ack>)
    requires AllSent(sent, conn, session, acks)
    ensures NoOperation(sent)
  {
  }

  // ----- one operation from the outside

  datatype Trace = Trace(connect: seq<Event>, first: seq<Event>, recovery: seq<Event>, second: seq<Event>) {
    function Events(): seq<Event> {
      connect + first + recovery + second
    }
  }

  /** The lost connection is closed, a new one opened, and a session rebuilt on it. */
  ghost predicate Reconnected(recovery: seq<Event>, d: Desired, lost: nat, conn: nat, session: string) {
    && |recovery| >= 3 && recovery[..3] == [HungUp(lost), Probed(None), Dialled(None)]
    && conn != lost && Rebuilt(recovery[3..], d, conn, session)
  }

  /** What one operation of the host looks like: where it may stop, with which error, and what a second invocation
      needs. */
  ghost predicate Follows(t: Trace, d: Desired, call: HostCall, error: Option<RpcError>) {
    NoOperation(t.connect) && NoOperation(t.recovery) &&
    if t.first == [] then
      EndsFailed(t.connect, error) && t.recovery == [] && t.second == []
    else
      |t.first| == 1 && t.first[0].Operated? && t.first[0].call == call &&
      if !IsRecoverable(t.first[0].error) then
        error == t.first[0].error && t.recovery == [] && t.second == []
      else if t.second == [] then
        EndsFailed(t.recovery, error)
      else
        && |t.second| == 1 && t.second[0].Operated? && t.second[0].call == call && t.second[0].error == error
        && Reconnected(t.recovery, d, t.first[0].conn, t.second[0].conn, t.second[0].session)
  }

  lemma {:induction false} ContainsExactly(text: string, part: string)
    ensures Contains(text, part) <==> exists x, y :: text == x + part + y
  {
    if part <= text {
      assert text == "" + part + text[|part|..];
    } else if text != "" {
      ContainsExactly(text[1..], part);
      if Contains(text, part) {
        var x, y :| text[1..] == x + part + y;
        assert text == ([text[0]] + x) + part + y;
      }
      forall x, y | text == x + part + y
        ensures Contains(text, part)
      {
        assert x != "" by {
          assert x == "" ==> text == part + y;
        }
        assert text[1..] == x[1..] + part + y;
      }
    }
  }

  /** An operation that was invoked and failed is tried again, unless the reconnection fails, exactly when its error has one
      of three codes or its text names the client session. */
  lemma RetriedExactly(t: Trace, d: Desired, call: HostCall, error: Option<RpcError>)
    requires Follows(t, d, call, error) && t.first != []
    ensures t.first[0].Operated? && t.first[0].call == call
    ensures var e := t.first[0].error;
            t.second != [] || EndsFailed(t.recovery, error) <==>
            e.Some? && (e.value.code in {Unavailable, NotFound, Unauthenticated} || exists x, y :: e.value.text == x + "client session" + y)
    ensures t.second == [] && !EndsFailed(t.recovery, error) ==> error == t.first[0].error && t.recovery == []
  {
    hide Contains, Reconnected;
    if t.first[0].error.Some? {
      ContainsExactly(t.first[0].error.value.text, "client session");
    }
  }

  /** How often the operation was invoked. */
  function Invocations(events: seq<Event>): nat {
    if events == [] then 0 else (if events[0].Operated? then 1 else 0) + Invocations(events[1..])
  }

  lemma {:induction false} InvocationsAppend(x: seq<Event>, y: seq<Event>)
    ensures Invocations(x + y) == Invocations(x) + Invocations(y)
  {
    if x == [] {
      assert x + y == y;
    } else {
      assert (x + y)[1..] == x[1..] + y;
      InvocationsAppend(x[1..], y);
    }
  }

  lemma {:induction false} NoInvocation(events: seq<Event>)
    requires NoOperation(events)
    ensures Invocations(events) == 0
  {
    if events != [] {
      assert events[0] in events;
      NoInvocation(events[1..]);
    }
  }

  /** An operation is invoked at most twice. */
  lemma AtMostTwice(t: Trace, d: Desired, call: HostCall, error: Option<RpcError>)
    requires Follows(t, d, call, error)
    ensures Invocations(t.Events()) <= 2
    ensures Invocations(t.Events()) == 0 ==> error.Some?
  {
    hide Reconnected, IsRecoverable;
    InvocationsAppend(t.connect, t.first);
    InvocationsAppend(t.connect + t.first, t.recovery);
    InvocationsAppend(t.connect + t.first + t.recovery, t.second);
    NoInvocation(t.connect);
    NoInvocation(t.recovery);
    assert t.first != [] ==> t.first[1..] == [];
    assert t.second != [] ==> t.second[1..] == [];
  }

  lemma EventAt(t: Trace, k: nat)
    requires k < |t.Events()|
    ensures t.Events()[k] ==
            if k < |t.connect| then t.connect[k]
            else if k < |t.connect| + |t.first| then t.first[k - |t.connect|]
            else if k < |t.connect| + |t.first| + |t.recovery| then t.recovery[k - |t.connect| - |t.first|]
            else t.second[k - |t.connect| - |t.first| - |t.recovery|]
  {
  }

  /** The second invocation happens only after a recoverable error of the first. It goes over a connection and under a
      session made in between, and between the registration and the invocation every remembered space and binding was
      sent under that session and accepted. */
  lemma SecondRunsRebuilt(t: Trace, d: Desired, call: HostCall, error: Option<RpcError>, i: nat, j: nat) returns (r: nat)
    requires Follows(t, d, call, error)
    requires i < j < |t.Events()| && t.Events()[i].Operated? && t.Events()[j].Operated?
    ensures IsRecoverable(t.Events()[i].error) && t.Events()[j].conn != t.Events()[i].conn
    ensures i < r < j && t.Events()[r] == Registered(t.Events()[j].conn, t.Events()[j].session, None)
    ensures forall a :: a in Remembered(d) ==>
              Replayed(t.Events()[j].conn, t.Events()[j].session, a, None) in t.Events()[r + 1..j]
  {
    hide AllSent, Remembered, IsRecoverable, Invocations;
    EventAt(t, i);
    EventAt(t, j);
    var n := |t.connect|;
    assert i == n && j == n + 1 + |t.recovery|;
    r := n + 1 + 3;
    EventAt(t, r);
    assert t.recovery[3..][0] == t.recovery[3];
    assert t.Events()[r + 1..j] == t.recovery[3..][1..];
    SentWasAccepted(t.recovery[3..][1..], t.second[0].conn, t.second[0].session, Remembered(d));
  }

  lemma SentWasAccepted(sent: seq<Event>, conn: nat, session: string, acks: set<Ack>)
    requires AllSent(sent, conn, session, acks)
    ensures forall a :: a in acks ==> Replayed(conn, session, a, None) in sent
  {
  }

  // ----- the client

  class Client {
    const wire: Wire
    var conn: Option<nat>
    var rpc: Option<nat>
    var clientSessionId: string
    var attachedSpaces: map<string, SpaceRegistration>
    var sqliteBindings: map<BindingKey, EnableRequest>
    var lancedbBindings: map<BindingKey, EnableRequest>

    ghost predicate Valid()
      reads this, wire
    {
      conn == rpc && (clientSessionId != "" ==> rpc.Some?) && (rpc.Some? ==> rpc.value < |wire.events|)
    }

    function Memory(): Desired
      reads this
    {
      Desired(attachedSpaces, sqliteBindings, lancedbBindings)
    }

    constructor (wire: Wire)
      ensures Valid() && this.wire == wire && rpc == None && clientSessionId == "" && Memory() == EMPTY
    {
      this.wire := wire;
      conn, rpc, clientSessionId := None, None, "";
      attachedSpaces, sqliteBindings, lancedbBindings := map[], map[], map[];
    }

    /** One of the three replay loops. Go leaves the order in which a map is walked open. */
    method ReplayMap<K(==)>(requests: map<K, Ack>, conn: nat, session: string)
        returns (error: Option<RpcError>, ghost sent: seq<Event>)
      modifies wire
      ensures wire.events == old(wire.events) + sent
      ensures error.None? ==> AllSent(sent, conn, session, requests.Values)
      ensures error.Some? ==> EndsFailed(sent, error) && NoOperation(sent)
    {
      var left := requests.Keys;
      sent := [];
      while left != {}
        invariant left <= requests.Keys && wire.events == old(wire.events) + sent
        invariant AllSent(sent, conn, session, (requests - left).Values)
        decreases left
      {
        var k :| k in left;
        error := wire.Replay(conn, session, requests[k]);
        AllSentHasNoOperation(sent, conn, session, (requests - left).Values);
        if error.Some? {
          sent := sent + [Replayed(conn, session, requests[k], error)];
          return;
        }
        ghost var one := [Replayed(conn, session, requests[k], None)];
        assert AllSent(one, conn, session, {requests[k]});
        AllSentJoins(sent, one, conn, session, (requests - left).Values, {requests[k]});
        ValuesGrow(requests, left, k);
        sent := sent + one;
        left := left - {k};
      }
      assert requests - left == requests;
      error := None;
    }

    method ReplayDesiredState() returns (error: Option<RpcError>, ghost sent: seq<Event>)
      requires rpc.Some?
      modifies wire
      ensures wire.events == old(wire.events) + sent
      ensures error.None? ==> AllSent(sent, rpc.value, clientSessionId, Remembered(Memory()))
      ensures error.Some? ==> EndsFailed(sent, error) && NoOperation(sent)
    {
      hide AllSent;
      var c, s := rpc.value, clientSessionId;
      ghost var sent1, sent2, sent3;
      error, sent1 := ReplayMap(AttachAll(attachedSpaces), c, s);
      sent := sent1;
      if error.Some? {
        return;
      }
      AllSentHasNoOperation(sent1, c, s, AttachAll(attachedSpaces).Values);
      error, sent2 := ReplayMap(EnableAll(Sqlite, sqliteBindings), c, s);
      sent := sent1 + sent2;
      if error.Some? {
        return;
      }
      AllSentHasNoOperation(sent2, c, s, EnableAll(Sqlite, sqliteBindings).Values);
      error, sent3 := ReplayMap(EnableAll(LanceDb, lancedbBindings), c, s);
      sent := sent1 + sent2 + sent3;
      if error.None? {
        AllSentJoins(sent1, sent2, c, s, AttachAll(attachedSpaces).Values, EnableAll(Sqlite, sqliteBindings).Values);
        AllSentJoins(sent1 + sent2, sent3, c, s,
                     AttachAll(attachedSpaces).Values + EnableAll(Sqlite, sqliteBindings).Values, EnableAll(LanceDb, lancedbBindings).Values);
      }
    }

    /** When the replay fails the session stays, and a later call will not replay again. */
    method EnsureRegistered() returns (error: Option<RpcError>, ghost added: seq<Event>)
      requires Valid() && rpc.Some?
      modifies this`clientSessionId, wire
      ensures Valid() && wire.events == old(wire.events) + added
      ensures old(clientSessionId) != "" ==> error.None? && added == [] && clientSessionId == old(clientSessionId)
      ensures old(clientSessionId) == "" && error.None? ==> Rebuilt(added, Memory(), rpc.value, clientSessionId)
      ensures error.Some? ==> EndsFailed(added, error)
      ensures old(clientSessionId) == "" ==>
                added != [] && added[0].Registered? && clientSessionId == if added[0].error.None? then added[0].session else ""
      ensures NoOperation(added)
    {
      added := [];
      if clientSessionId != "" {
        return None, [];
      }
      var session: string;
      session, error := wire.Register(rpc.value);
      added := [Registered(rpc.value, session, error)];
      if error.Some? {
        return;
      }
      clientSessionId := session;
      ghost var sent;
      error, sent := ReplayDesiredState();
      added := added + sent;
      assert added[1..] == sent;
      if error.None? {
        AllSentHasNoOperation(sent, rpc.value, clientSessionId, Remembered(Memory()));
      }
    }

    method EnsureConnected() returns (error: Option<RpcError>, ghost added: seq<Event>)
      requires Valid()
      modifies this`conn, this`rpc, wire
      ensures Valid() && wire.events == old(wire.events) + added
      ensures error.None? ==> rpc.Some?
      ensures old(rpc).Some? ==> error.None? && added == [] && rpc == old(rpc)
      ensures old(rpc).None? ==> added == [Dialled(error)] && (if error.None? then rpc == Some(old(|wire.events|)) else rpc == None)
    {
      if rpc.Some? {
        return None, [];
      }
      var c: nat;
      c, error := wire.Dial();
      added := [Dialled(error)];
      if error.Some? {
        return;
      }
      conn, rpc := Some(c), Some(c);
    }

    /** Readiness is one probe here; the connection and the session are made only when missing. */
    method Connect() returns (error: Option<RpcError>, ghost added: seq<Event>)
      requires Valid()
      modifies this`conn, this`rpc, this`clientSessionId, wire
      ensures Valid() && wire.events == old(wire.events) + added && NoOperation(added)
      ensures error.None? ==> rpc.Some?
      ensures error.Some? ==> EndsFailed(added, error)
      ensures error.None? && old(rpc).None? ==>
                && |added| >= 2 && added[..2] == [Probed(None), Dialled(None)]
                && rpc.value > old(|wire.events|) && Rebuilt(added[2..], Memory(), rpc.value, clientSessionId)
      ensures error.None? && old(rpc).Some? && old(clientSessionId) == "" ==>
                && |added| >= 1 && added[0] == Probed(None) && rpc == old(rpc)
                && Rebuilt(added[1..], Memory(), rpc.value, clientSessionId)
      ensures error.None? && old(clientSessionId) != "" ==>
                added == [Probed(None)] && rpc == old(rpc) && clientSessionId == old(clientSessionId)
    {
      hide AllSent, Rebuilt;
      error := wire.Probe();
      added := [Probed(error)];
      if error.Some? {
        return;
      }
      ghost var dialled, registered;
      error, dialled := EnsureConnected();
      added := added + dialled;
      if error.Some? {
        return;
      }
      error, registered := EnsureRegistered();
      ghost var before := added;
      added := before + registered;
      assert added[|before|..] == registered;
      assert old(rpc).None? ==> added[..2] == [Probed(None), Dialled(None)];
    }

    method ResetConnection() returns (ghost added: seq<Event>)
      requires Valid()
      modifies this`conn, this`rpc, this`clientSessionId, wire
      ensures Valid() && rpc == None && clientSessionId == "" && wire.events == old(wire.events) + added
      ensures added == if old(conn).Some? then [HungUp(old(conn).value)] else []
    {
      var c := conn;
      conn, rpc, clientSessionId := None, None, "";
      added := [];
      if c.Some? {
        wire.HangUp(c.value);
        added := [HungUp(c.value)];
      }
    }

    /** The operation itself: on success it also updates what is remembered. */
    method Operation(call: HostCall) returns (error: Option<RpcError>)
      requires Valid() && rpc.Some?
      modifies this`attachedSpaces, this`sqliteBindings, this`lancedbBindings, wire
      ensures Valid() && wire.events == old(wire.events) + [Operated(rpc.value, clientSessionId, call, error)]
      ensures Memory() == if error.None? then Remember(old(Memory()), call) else old(Memory())
      ensures attachedSpaces == if error.Some? then old(attachedSpaces)
                                else if call.AttachSpace? then old(attachedSpaces)[call.space.spaceId := call.space]
                                else if call.DetachSpace? then old(attachedSpaces) - {call.spaceId}
                                else old(attachedSpaces)
      ensures sqliteBindings == if error.Some? then old(sqliteBindings)
                                else if call.EnableBackend? && call.backend.Sqlite? then old(sqliteBindings)[call.request.Key() := call.request]
                                else if call.DisableBackend? && call.disabledBackend.Sqlite? then old(sqliteBindings) - {call.key}
                                else old(sqliteBindings)
      ensures lancedbBindings == if error.Some? then old(lancedbBindings)
                                 else if call.EnableBackend? && call.backend.LanceDb? then old(lancedbBindings)[call.request.Key() := call.request]
                                 else if call.DisableBackend? && call.disabledBackend.LanceDb? then old(lancedbBindings) - {call.key}
                                 else old(lancedbBindings)
    {
      error := wire.Operate(rpc.value, clientSessionId, call);
      if error.Some? {
        return;
      }
      match call
      case AttachSpace(space) => attachedSpaces := attachedSpaces[space.spaceId := space];
      case DetachSpace(id) => attachedSpaces := attachedSpaces - {id};
      case EnableBackend(Sqlite, r) => sqliteBindings := sqliteBindings[r.Key() := r];
      case EnableBackend(LanceDb, r) => lancedbBindings := lancedbBindings[r.Key() := r];
      case DisableBackend(Sqlite, k) => sqliteBindings := sqliteBindings - {k};
      case DisableBackend(LanceDb, k) => lancedbBindings := lancedbBindings - {k};
      case DataCall =>
    }

    /** The middle of a retry: away with the connection, and connect again. */
    method Reconnect() returns (error: Option<RpcError>, ghost added: seq<Event>)
      requires Valid() && rpc.Some?
      modifies this`conn, this`rpc, this`clientSessionId, wire
      ensures Valid() && wire.events == old(wire.events) + added && NoOperation(added)
      ensures error.Some? ==> EndsFailed(added, error)
      ensures error.None? ==> rpc.Some? && Reconnected(added, Memory(), old(rpc).value, rpc.value, clientSessionId)
    {
      hide AllSent, Rebuilt;
      ghost var hungUp := ResetConnection();
      ghost var again;
      error, again := Connect();
      added := hungUp + again;
      if error.None? {
        assert added[3..] == again[2..];
        assert added[..3] == hungUp + again[..2];
      }
    }

    /** One host operation, retried once after an error that means the session is lost. */
    method WithSession(call: HostCall) returns (error: Option<RpcError>, ghost t: Trace)
      requires Valid()
      modifies this, wire
      ensures Valid() && wire.events == old(wire.events) + t.Events()
      ensures Follows(t, old(Memory()), call, error)
      ensures Memory() == if error.None? then Remember(old(Memory()), call) else old(Memory())
      ensures t.second != [] ==> rpc == Some(t.second[0].conn) && clientSessionId == t.second[0].session
    {
      hide Reconnected, Rebuilt, IsRecoverable, Remember, NoOperation, EndsFailed;
      ghost var connected, recovered;
      error, connected := Connect();
      t := Trace(connected, [], [], []);
      NothingHappened();
      if error.Some? {
        return;
      }
      error := Operation(call);
      ghost var first := [Operated(rpc.value, clientSessionId, call, error)];
      t := Trace(connected, first, [], []);
      if !IsRecoverable(error) {
        return;
      }
      error, recovered := Reconnect();
      t := Trace(connected, first, recovered, []);
      if error.Some? {
        return;
      }
      error := Operation(call);
      t := Trace(connected, first, recovered, [Operated(rpc.value, clientSessionId, call, error)]);
    }
  }

  lemma NothingHappened()
    ensures NoOperation([])
  {
  }

  lemma ValuesGrow<K>(requests: map<K, Ack>, left: set<K>, k: K)
    requires left <= requests.Keys && k in left
    ensures (requests - (left - {k})).Values == (requests - left).Values + {requests[k]}
  {
    var more, less := requests - (left - {k}), requests - left;
    assert more.Keys == less.Keys + {k};
    forall a | a in more.Values
      ensures a in less.Values + {requests[k]}
    {
      var j :| j in more && a == more[j];
      assert j != k ==> j in less && less[j] == more[j];
    }
    forall a | a in less.Values
      ensures a in more.Values
    {
      var j :| j in less && a == less[j];
      assert j in more && more[j] == less[j];
    }
    assert k in more && more[k] == requests[k];
  }
}
