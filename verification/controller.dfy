/** The controller as the SDK sees it: calls that may fail, sessions that may vanish between any two
    calls, and a log of what each session was told "yes" to.

    The adversary is an oracle: entry `n` decides what happens around the `n`-th call. A property proved
    for all oracles holds against every choice of failures, losses and answers. */
module ControllerModel {
  import opened Wrappers
  import opened DesiredState

  type SessionId = nat

  /** What the environment does around one call: the sessions the controller has dropped by the time the
      call arrives, whether the call fails on the way (then it has no effect), and the answer a removal gets. */
  datatype Verdict = Verdict(gone: set<SessionId>, fails: bool, answer: bool)

  type Oracle = nat -> Verdict

  /** `logs[s]` lists the requests acknowledged under session `s`; a new session takes the next index, so its
      identifier is fresh and its log empty. */
  datatype World = World(calls: nat, live: set<SessionId>, logs: seq<seq<Ack>>)

  const NEW_WORLD := World(0, {}, [])

  /** `NotRegistered` is the reply the SDK recognises as a lost session; `Failed` is any other error. */
  datatype CallError = NotRegistered | Failed

  type Reply<+T> = Result<T, CallError>

  /** The world as the next call finds it. */
  function Arrive(w: World, o: Oracle): World {
    w.(calls := w.calls + 1, live := w.live - o(w.calls).gone)
  }

  /** One transport connection attempt. */
  function Reach(w: World, o: Oracle): (World, bool) {
    (Arrive(w, o), !o(w.calls).fails)
  }

  function Admit(w: World, o: Oracle, s: SessionId): Reply<()> {
    if o(w.calls).fails then Err(Failed)
    else if s !in Arrive(w, o).live then Err(NotRegistered)
    else Ok(())
  }

  /** A lease renewal, or any data call: it needs a live session and changes no desired state. */
  function Visit(w: World, o: Oracle, s: SessionId): (World, Reply<()>) {
    (Arrive(w, o), Admit(w, o, s))
  }

  function Register(w: World, o: Oracle): (World, Reply<SessionId>) {
    var w1 := Arrive(w, o);
    if o(w.calls).fails then (w1, Err(Failed))
    else (w1.(live := w1.live + {|w.logs|}, logs := w.logs + [[]]), Ok(|w.logs|))
  }

  function Record(w: World, s: SessionId, a: Ack): World {
    if s < |w.logs| then w.(logs := w.logs[s := w.logs[s] + [a]]) else w
  }

  /** An attach or enable request. */
  function Send(w: World, o: Oracle, s: SessionId, a: Ack): (World, Reply<()>) {
    var w1 := Arrive(w, o);
    match Admit(w, o, s)
    case Err(e) => (w1, Err(e))
    case Ok(_) => (Record(w1, s, a), Ok(()))
  }

  /** A detach or disable request, answered `true` or `false`; only `true` changes the controller. */
  function Ask(w: World, o: Oracle, s: SessionId, a: Ack): (World, Reply<bool>) {
    var w1 := Arrive(w, o);
    match Admit(w, o, s)
    case Err(e) => (w1, Err(e))
    case Ok(_) => if o(w.calls).answer then (Record(w1, s, a), Ok(true)) else (w1, Ok(false))
  }

  function Unregister(w: World, o: Oracle, s: SessionId): World {
    var w1 := Arrive(w, o);
    if o(w.calls).fails then w1 else w1.(live := w1.live - {s})
  }

  /** Sends the requests one after another and stops at the first failure. */
  function SendAll(w: World, o: Oracle, s: SessionId, requests: seq<Ack>): (World, Reply<()>)
    decreases |requests|
  {
    if requests == [] then (w, Ok(()))
    else
      var (w1, r) := Send(w, o, s, requests[0]);
      if r.Err? then (w1, r) else SendAll(w1, o, s, requests[1..])
  }

  /** What a replay leaves behind: session `s` gained a prefix of the requests, all of them exactly on success,
      no other log moved and no session came alive. */
  lemma {:induction false} SendAllRecordsPrefix(w: World, o: Oracle, s: SessionId, requests: seq<Ack>) returns (k: nat)
    requires s < |w.logs|
    ensures k <= |requests|
    ensures var (w', r) := SendAll(w, o, s, requests);
            && w'.logs == w.logs[s := w.logs[s] + requests[..k]]
            && (r.Ok? <==> k == |requests|)
            && w'.live <= w.live
    decreases |requests|
  {
    assert w.logs[s] + requests[..0] == w.logs[s];
    if requests == [] {
      k := 0;
    } else {
      var (w1, r) := Send(w, o, s, requests[0]);
      if r.Err? {
        k := 0;
      } else {
        var k1 := SendAllRecordsPrefix(w1, o, s, requests[1..]);
        k := k1 + 1;
        assert [requests[0]] + requests[1..][..k1] == requests[..k];
        assert w1.logs[s] + requests[1..][..k1] == w.logs[s] + requests[..k];
      }
    }
  }

  /** The controller side of the SDK's calls: it only ever moves as the functions above say. */
  class Controller {
    const oracle: Oracle
    var world: World

    constructor (oracle: Oracle)
      ensures this.oracle == oracle && world == NEW_WORLD
    {
      this.oracle := oracle;
      world := NEW_WORLD;
    }

    method TryConnect() returns (ok: bool)
      modifies this
      ensures (world, ok) == Reach(old(world), oracle)
    {
      var (w, r) := Reach(world, oracle);
      world, ok := w, r;
    }

    method CallUnderSession(s: SessionId) returns (reply: Reply<()>)
      modifies this
      ensures (world, reply) == Visit(old(world), oracle, s)
    {
      var (w, r) := Visit(world, oracle, s);
      world, reply := w, r;
    }

    method RegisterClient() returns (reply: Reply<SessionId>)
      modifies this
      ensures (world, reply) == Register(old(world), oracle)
    {
      var (w, r) := Register(world, oracle);
      world, reply := w, r;
    }

    method UnregisterClient(s: SessionId)
      modifies this
      ensures world == Unregister(old(world), oracle, s)
    {
      world := Unregister(world, oracle, s);
    }

    method SendRequest(s: SessionId, a: Ack) returns (reply: Reply<()>)
      modifies this
      ensures (world, reply) == Send(old(world), oracle, s, a)
    {
      var (w, r) := Send(world, oracle, s, a);
      world, reply := w, r;
    }

    method AskRemoval(s: SessionId, a: Ack) returns (reply: Reply<bool>)
      modifies this
      ensures (world, reply) == Ask(old(world), oracle, s, a)
    {
      var (w, r) := Ask(world, oracle, s, a);
      world, reply := w, r;
    }
  }
}
