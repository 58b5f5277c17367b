/** Three runs that end settled and wrong. Each breaks one of the three rules and keeps the other two. */
module SessionMishaps {
  import opened Wrappers
  import opened DesiredState
  import opened ControllerModel
  import opened ClientSession
  import opened SessionTasks
  import opened SessionCourse
  import opened SessionStretches
  import opened SessionSchedules

  /** Nothing is going on, and a session is held with no replay pending. */
  ghost predicate Settled(sys: System) {
    && (forall t :: t in sys.tasks ==> sys.tasks[t] == Idle)
    && sys.state.session.id.Some? && !sys.state.session.pending
    && sys.state.session.id.value < |sys.state.world.logs|
  }

  lemma Start(o: Oracle, broken: set<Rule>)
    ensures Run([], o) == BOOT && Clean([], o, broken)
  {
  }

  function OneSpace(space: SpaceRegistration): Desired {
    Desired(map[space.spaceId := space], map[], map[])
  }

  /** Session 0 is lost after `lost` calls, and nothing else goes wrong. */
  function LosesSession(lost: nat): Oracle {
    n => Verdict(if n == lost then {0} else {}, false, true)
  }

  lemma PlanOfOne(space: SpaceRegistration)
    ensures IsPlan(NO_PLAN, EMPTY)
    ensures IsPlan(Plan([space], [], []), OneSpace(space))
    ensures Requests(NO_PLAN) == [] && Requests(Plan([space], [], [])) == [Attached(space)]
  {
    var spaces := OneSpace(space).spaces;
    assert spaces[space.spaceId] == space && space in spaces.Values;
    forall v | v in spaces.Values
      ensures v == space
    {
      var k :| k in spaces && spaces[k] == v;
    }
  }

  /** Host task 0, just after its first session was set up, about to send its first request. */
  function Calling0(op: HostOp): System {
    System(map[0 := Calling(op, 0)], None, Holding(0, false, EMPTY, World(2, {0}, [[]])), 0)
  }

  lemma FirstCall(space: SpaceRegistration, o: Oracle, broken: set<Rule>) returns (moves: seq<Move>)
    requires forall n: nat :: n < 2 ==> !o(n).fails && o(n).gone == {}
    ensures Clean(moves, o, broken) && Run(moves, o) == Calling0(Attach(space)) && ByHost(moves, 0)
  {
    hide Step, Run, Solo, FitsAll, IsPlan, Requests, Clean;
    var m := Move(0, Attach(space), NO_PLAN);
    PlanOfOne(space);
    Start(o, broken);
    moves := [];
    Enter(BOOT, m, o, broken);
    moves := Extend(moves, m, 4, o, broken);
    RegisterAlone(Run(moves, o), m, o, broken);
    moves := Extend(moves, m, 1, o, broken);
    FinishAlone(Run(moves, o), m, 0, o, broken);
    moves := Extend(moves, m, 1, o, broken);
    LeaveAlone(Run(moves, o), m, 0, o, broken);
    moves := Extend(moves, m, 1, o, broken);
    assert Run(moves, o) == Calling0(Attach(space));
  }

  lemma CleanMeans(moves: seq<Move>, o: Oracle, broken: set<Rule>)
    requires Clean(moves, o, broken)
    ensures Orderly(moves, o)
    ensures forall rule :: rule != PaidInTurn && rule !in broken ==> RunObeys(moves, o, rule)
  {
    hide RunObeys, Orderly;
    forall rule | rule != PaidInTurn && rule !in broken
      ensures RunObeys(moves, o, rule)
    {
      match rule
      case NoAckInReplay =>
      case NoReplayWhileOwed =>
      case PaidInTurn =>
    }
  }

  lemma CleanHost(moves: seq<Move>, o: Oracle, broken: set<Rule>)
    requires Clean(moves, o, broken) && ByHost(moves, 0)
    ensures Orderly(moves, o)
    ensures forall rule :: rule !in broken ==> RunObeys(moves, o, rule)
  {
    hide RunObeys, Orderly, Clean;
    CleanMeans(moves, o, broken);
    OneHostPaysInTurn(moves, o, 0);
  }

  // ----- a loss, with one host task and one tick

  lemma FoldOne(a: Ack)
    ensures Fold([a]) == Apply(EMPTY, a)
  {
    assert [a][..0] == [];
  }

  lemma FoldTwo(a: Ack, b: Ack)
    ensures Fold([a, b]) == Apply(Apply(EMPTY, a), b)
  {
    FoldOne(a);
    assert [a, b][..1] == [a];
  }

  lemma FirstAck(space: SpaceRegistration, o: Oracle, broken: set<Rule>) returns (moves: seq<Move>)
    requires forall n: nat :: n < 3 ==> !o(n).fails && o(n).gone == {}
    ensures Clean(moves, o, broken) && ByHost(moves, 0)
    ensures Run(moves, o) == System(map[0 := Remembering(Attached(space))], None,
                                    Holding(0, false, EMPTY, World(3, {0}, [[Attached(space)]])), 0)
  {
    hide Step, Run, Solo, FitsAll, IsPlan, Requests, Clean;
    var m := Move(0, Attach(space), NO_PLAN);
    moves := FirstCall(space, o, broken);
    AckAlone(Run(moves, o), m, 0, Attached(space), o, broken);
    moves := Extend(moves, m, 1, o, broken);
    var empty: seq<Ack> := [];
    assert empty + [Attached(space)] == [Attached(space)];
    assert [empty][0 := [Attached(space)]] == [[Attached(space)]];
  }

  /** A tick finds session 0 lost, registers session 1 and stands before its replay. */
  lemma TickReplaces(moves: seq<Move>, plan: Plan, o: Oracle, broken: set<Rule>) returns (longer: seq<Move>)
    requires NoReplayWhileOwed in broken || forall t :: t in Run(moves, o).tasks ==> !Run(moves, o).tasks[t].Remembering?
    requires var sys := Run(moves, o);
             && Clean(moves, o, broken) && ByHost(moves, 0) && 1 !in sys.tasks && sys.lock.None? && IsPlan(plan, sys.state.session.cache)
             && sys.state.session.id == Some(0) && !sys.state.session.pending
             && sys.state.world.live == {0} && |sys.state.world.logs| == 1 && o == LosesSession(sys.state.world.calls + 1)
    ensures Clean(longer, o, broken) && ByHost(longer, 0)
    ensures var sys, w := Run(moves, o), Run(moves, o).state.world;
            Run(longer, o) == System(sys.tasks[1 := Replaying(HostOp.Connect, 1, Requests(plan))], Some(1),
              Holding(1, true, sys.state.session.cache, World(w.calls + 3, {1}, w.logs + [[]])), sys.missing + 1)
  {
    hide Step, Run, Solo, FitsAll, IsPlan, Requests, Clean;
    var tick := Move(1, HostOp.Connect, plan);
    Enter(Run(moves, o), tick, o, broken);
    longer := Extend(moves, tick, 4, o, broken);
    LoseAlone(Run(longer, o), tick, 0, false, o, broken);
    longer := Extend(longer, tick, 1, o, broken);
    RegisterAlone(Run(longer, o), tick, o, broken);
    longer := Extend(longer, tick, 1, o, broken);
  }

  /** Its replay has nothing left to send. */
  lemma TickFinishes(moves: seq<Move>, plan: Plan, o: Oracle, broken: set<Rule>) returns (longer: seq<Move>)
    requires Clean(moves, o, broken) && ByHost(moves, 0)
    requires At(Run(moves, o), 1) == Replaying(HostOp.Connect, 1, []) && Run(moves, o).state.session.id == Some(1)
    ensures Clean(longer, o, broken) && ByHost(longer, 0)
    ensures var sys := Run(moves, o);
            Run(longer, o) == System(sys.tasks[1 := Idle], None, Holding(1, false, sys.state.session.cache, sys.state.world), sys.missing)
  {
    hide Step, Run, Solo, FitsAll, IsPlan, Requests, Clean;
    var tick := Move(1, HostOp.Connect, plan);
    FinishAlone(Run(moves, o), tick, 1, o, broken);
    longer := Extend(moves, tick, 1, o, broken);
    LeaveAlone(Run(longer, o), tick, 1, o, broken);
    longer := Extend(longer, tick, 1, o, broken);
  }

  /** A loss after the acknowledgement: an attach is acknowledged under a session that a tick then finds lost and
      replaces, all before the attach is remembered. The cache ends with a space the held session was never told of. */
  lemma LossForgetsAnAttach(space: SpaceRegistration) returns (moves: seq<Move>, o: Oracle)
    ensures Orderly(moves, o) && ByHost(moves, 0) && Settled(Run(moves, o))
    ensures forall rule :: rule != NoReplayWhileOwed ==> RunObeys(moves, o, rule)
    ensures space.spaceId in Run(moves, o).state.session.cache.spaces && Told(Run(moves, o).state) == EMPTY
  {
    hide Step, Run, Solo, FitsAll, IsPlan, Requests, Clean;
    var broken := {NoReplayWhileOwed};
    o := LosesSession(4);
    PlanOfOne(space);
    moves := FirstAck(space, o, broken);
    moves := TickReplaces(moves, NO_PLAN, o, broken);
    moves := TickFinishes(moves, NO_PLAN, o, broken);
    var host := Move(0, Attach(space), NO_PLAN);
    RememberAlone(Run(moves, o), host, Attached(space), o, broken);
    moves := Extend(moves, host, 1, o, broken);
    CleanHost(moves, o, broken);
  }

  /** The space is attached, and the host's detach of it has its session ensured. */
  lemma DetachPrepared(space: SpaceRegistration, o: Oracle, broken: set<Rule>) returns (moves: seq<Move>)
    requires o == LosesSession(6)
    ensures Clean(moves, o, broken) && ByHost(moves, 0)
    ensures Run(moves, o) == System(map[0 := Ready(Detach(space.spaceId))], None,
                                    Holding(0, false, OneSpace(space), World(5, {0}, [[Attached(space)]])), 0)
  {
    hide Step, Run, Solo, FitsAll, IsPlan, Requests, Clean, Apply;
    moves := FirstAck(space, o, broken);
    var attach := Move(0, Attach(space), NO_PLAN);
    RememberAlone(Run(moves, o), attach, Attached(space), o, broken);
    moves := Extend(moves, attach, 1, o, broken);
    AttachThenDetach(space);
    moves := DetachReady(moves, space, o, broken);
  }

  /** A loss before the request: a detach is acknowledged under the new session in the middle of another task's replay,
      which then attaches the space again. The held session ends with a space the host has detached. */
  lemma LossUndoesADetach(space: SpaceRegistration) returns (moves: seq<Move>, o: Oracle)
    ensures Orderly(moves, o) && ByHost(moves, 0) && Settled(Run(moves, o))
    ensures forall rule :: rule != NoAckInReplay ==> RunObeys(moves, o, rule)
    ensures Run(moves, o).state.session.cache == EMPTY && space.spaceId in Told(Run(moves, o).state).spaces
  {
    hide Step, Run, Solo, FitsAll, IsPlan, Requests, Clean, Apply;
    var broken := {NoAckInReplay};
    o := LosesSession(6);
    var plan, attached := Plan([space], [], []), [Attached(space)];
    PlanOfOne(space);
    moves := DetachPrepared(space, o, broken);
    moves := TickReplaces(moves, plan, o, broken);
    moves := DetachNow(moves, space, o, broken);
    var tick := Move(1, HostOp.Connect, plan);
    SendAlone(Run(moves, o), tick, 1, attached, o, broken);
    moves := Extend(moves, tick, 1, o, broken);
    moves := TickFinishes(moves, plan, o, broken);
    CleanHost(moves, o, broken);
    assert [Detached(space.spaceId)] + [attached[0]] == [Detached(space.spaceId), Attached(space)];
    FoldTwo(Detached(space.spaceId), Attached(space));
    AttachedLast(space);
  }

  lemma AttachedLast(space: SpaceRegistration)
    ensures space.spaceId in Apply(Apply(EMPTY, Detached(space.spaceId)), Attached(space)).spaces
  {
  }

  lemma AttachThenDetach(space: SpaceRegistration)
    ensures Apply(EMPTY, Attached(space)) == OneSpace(space)
    ensures Apply(OneSpace(space), Detached(space.spaceId)) == EMPTY
  {
    assert OneSpace(space).spaces - {space.spaceId} == map[];
  }

  /** The host's detach has its session ensured. */
  lemma DetachReady(moves: seq<Move>, space: SpaceRegistration, o: Oracle, broken: set<Rule>) returns (longer: seq<Move>)
    requires Clean(moves, o, broken) && ByHost(moves, 0) && o == LosesSession(6)
    requires Run(moves, o) == System(map[0 := Idle], None, Holding(0, false, OneSpace(space), World(3, {0}, [[Attached(space)]])), 0)
    ensures Clean(longer, o, broken) && ByHost(longer, 0)
    ensures Run(longer, o) == System(map[0 := Ready(Detach(space.spaceId))], None,
                                     Holding(0, false, OneSpace(space), World(5, {0}, [[Attached(space)]])), 0)
  {
    hide Step, Run, Solo, FitsAll, IsPlan, Requests, Clean;
    var detach := Move(0, Detach(space.spaceId), Plan([space], [], []));
    PlanOfOne(space);
    Enter(Run(moves, o), detach, o, broken);
    longer := Extend(moves, detach, 4, o, broken);
    RenewAlone(Run(longer, o), detach, 0, o, broken);
    longer := Extend(longer, detach, 1, o, broken);
  }

  /** The detach goes through under session 1, before the replay has sent anything. */
  lemma DetachNow(moves: seq<Move>, space: SpaceRegistration, o: Oracle, broken: set<Rule>) returns (longer: seq<Move>)
    requires Clean(moves, o, broken) && ByHost(moves, 0) && o == LosesSession(6) && NoAckInReplay in broken
    requires var tick := Replaying(HostOp.Connect, 1, [Attached(space)]);
             Run(moves, o) == System(map[0 := Ready(Detach(space.spaceId)), 1 := tick], Some(1),
                                     Holding(1, true, OneSpace(space), World(8, {1}, [[Attached(space)], []])), 1)
    ensures Clean(longer, o, broken) && ByHost(longer, 0)
    ensures var tick := Replaying(HostOp.Connect, 1, [Attached(space)]);
            Run(longer, o) == System(map[0 := Idle, 1 := tick], Some(1),
                                     Holding(1, true, EMPTY, World(9, {1}, [[Attached(space)], [Detached(space.spaceId)]])), 1)
  {
    hide Step, Run, Solo, FitsAll, IsPlan, Requests, Clean, Apply;
    var detach, a := Move(0, Detach(space.spaceId), Plan([space], [], [])), Detached(space.spaceId);
    AttachThenDetach(space);
    LeaveAlone(Run(moves, o), detach, 1, o, broken);
    longer := Extend(moves, detach, 1, o, broken);
    AckAlone(Run(longer, o), detach, 1, a, o, broken);
    longer := Extend(longer, detach, 1, o, broken);
    RememberAlone(Run(longer, o), detach, a, o, broken);
    longer := Extend(longer, detach, 1, o, broken);
    var log, empty: seq<Ack> := [Attached(space)], [];
    assert empty + [a] == [a];
    assert [log, empty][1 := [a]] == [log, [a]];
  }

  // ----- overlapping operations, with no loss at all

  /** A second task stands before its own attach as well. */
  lemma SecondCall(x: SpaceRegistration, y: SpaceRegistration, o: Oracle, broken: set<Rule>) returns (moves: seq<Move>)
    requires o == LosesSession(9)
    ensures Clean(moves, o, broken)
    ensures Run(moves, o) == System(map[0 := Calling(Attach(x), 0), 1 := Calling(Attach(y), 0)], None,
                                    Holding(0, false, EMPTY, World(4, {0}, [[]])), 0)
  {
    hide Step, Run, Solo, FitsAll, IsPlan, Requests, Clean;
    var second := Move(1, Attach(y), NO_PLAN);
    PlanOfOne(x);
    moves := FirstCall(x, o, broken);
    Enter(Run(moves, o), second, o, broken);
    moves := Extend(moves, second, 4, o, broken);
    RenewAlone(Run(moves, o), second, 0, o, broken);
    moves := Extend(moves, second, 1, o, broken);
    LeaveAlone(Run(moves, o), second, 0, o, broken);
    moves := Extend(moves, second, 1, o, broken);
  }

  /** Both attaches are acknowledged, the first one first. */
  lemma BothAcked(x: SpaceRegistration, y: SpaceRegistration, o: Oracle, broken: set<Rule>) returns (moves: seq<Move>)
    requires o == LosesSession(9)
    ensures Clean(moves, o, broken)
    ensures Run(moves, o) == System(map[0 := Remembering(Attached(x)), 1 := Remembering(Attached(y))], None,
                                    Holding(0, false, EMPTY, World(6, {0}, [[Attached(x), Attached(y)]])), 0)
  {
    hide Step, Run, Solo, FitsAll, IsPlan, Requests, Clean;
    var first, second := Move(0, Attach(x), NO_PLAN), Move(1, Attach(y), NO_PLAN);
    moves := SecondCall(x, y, o, broken);
    AckAlone(Run(moves, o), first, 0, Attached(x), o, broken);
    moves := Extend(moves, first, 1, o, broken);
    AckAlone(Run(moves, o), second, 0, Attached(y), o, broken);
    moves := Extend(moves, second, 1, o, broken);
    var empty: seq<Ack> := [];
    assert empty + [Attached(x)] == [Attached(x)] && [Attached(x)] + [Attached(y)] == [Attached(x), Attached(y)];
    assert [empty][0 := [Attached(x)]][0 := [Attached(x), Attached(y)]] == [[Attached(x), Attached(y)]];
  }

  /** Two overlapping attaches of one space are acknowledged in one order and remembered in the other: the session was
      told the second, the cache keeps the first. */
  lemma OverlapSwapsAttaches(x: SpaceRegistration, y: SpaceRegistration) returns (moves: seq<Move>, o: Oracle)
    requires x.spaceId == y.spaceId && x != y
    ensures Orderly(moves, o) && Settled(Run(moves, o))
    ensures forall rule :: rule != PaidInTurn ==> RunObeys(moves, o, rule)
    ensures Run(moves, o).state.session.cache == OneSpace(x) && Told(Run(moves, o).state) == OneSpace(y)
  {
    hide Step, Run, Solo, FitsAll, IsPlan, Requests, Clean, Apply;
    var broken: set<Rule> := {};
    o := LosesSession(9);
    var first, second := Move(0, Attach(x), NO_PLAN), Move(1, Attach(y), NO_PLAN);
    moves := BothAcked(x, y, o, broken);
    RememberAlone(Run(moves, o), second, Attached(y), o, broken);
    moves := Extend(moves, second, 1, o, broken);
    RememberAlone(Run(moves, o), first, Attached(x), o, broken);
    moves := Extend(moves, first, 1, o, broken);
    CleanMeans(moves, o, broken);
    FoldTwo(Attached(x), Attached(y));
    LastAttachStays(x, y);
    LastAttachStays(y, x);
  }

  lemma LastAttachStays(x: SpaceRegistration, y: SpaceRegistration)
    requires x.spaceId == y.spaceId
    ensures Apply(Apply(EMPTY, Attached(x)), Attached(y)) == OneSpace(y)
  {
    AttachThenDetach(x);
    var id := x.spaceId;
    assert map[id := x][id := y] == map[id := y];
  }
}
