/** Desired states slot by slot. A slot holds the one request that put its entry there; every acknowledged change sets
    some slots and keeps the others, whatever they hold. */
module DesiredSlots {
  import opened Wrappers
  import opened DesiredState

  datatype Slot = SpaceSlot(spaceId: string) | BindingSlot(backend: Backend, key: BindingKey)

  predicate IsInsert(a: Ack) {
    a.Attached? || a.Enabled?
  }

  function SlotOf(a: Ack): Slot
    requires IsInsert(a)
  {
    match a
    case Attached(space) => SpaceSlot(space.spaceId)
    case Enabled(b, r) => BindingSlot(b, r.Key())
  }

  function Bindings(d: Desired, b: Backend): map<BindingKey, EnableRequest> {
    match b
    case Sqlite => d.sqlite
    case LanceDb => d.lancedb
  }

  function Entry(d: Desired, slot: Slot): Option<Ack> {
    match slot
    case SpaceSlot(id) => if id in d.spaces then Some(Attached(d.spaces[id])) else None
    case BindingSlot(b, k) => if k in Bindings(d, b) then Some(Enabled(b, Bindings(d, b)[k])) else None
  }

  datatype Effect = Keep | Set(entry: Option<Ack>)

  function EffectOn(a: Ack, slot: Slot): Effect {
    match a
    case Attached(space) => if slot == SpaceSlot(space.spaceId) then Set(Some(a)) else Keep
    case Enabled(b, r) => if slot == BindingSlot(b, r.Key()) then Set(Some(a)) else Keep
    case Detached(id) => if (if slot.SpaceSlot? then slot.spaceId else slot.key.spaceId) == id then Set(None) else Keep
    case Disabled(b, k) => if slot == BindingSlot(b, k) then Set(None) else Keep
  }

  function After(entry: Option<Ack>, effect: Effect): Option<Ack> {
    if effect.Keep? then entry else effect.entry
  }

  lemma EntryApply(d: Desired, a: Ack, slot: Slot)
    ensures Entry(Apply(d, a), slot) == After(Entry(d, slot), EffectOn(a, slot))
  {
  }

  lemma SameEntries(d: Desired, e: Desired)
    requires forall slot :: Entry(d, slot) == Entry(e, slot)
    ensures d == e
  {
    forall id
      ensures id in d.spaces <==> id in e.spaces
      ensures id in d.spaces && id in e.spaces ==> d.spaces[id] == e.spaces[id]
    {
      assert Entry(d, SpaceSlot(id)) == Entry(e, SpaceSlot(id));
    }
    forall b, k
      ensures k in Bindings(d, b) <==> k in Bindings(e, b)
      ensures k in Bindings(d, b) && k in Bindings(e, b) ==> Bindings(d, b)[k] == Bindings(e, b)[k]
    {
      assert Entry(d, BindingSlot(b, k)) == Entry(e, BindingSlot(b, k));
    }
    assert d.spaces == e.spaces;
    assert Bindings(d, Sqlite) == Bindings(e, Sqlite);
    assert Bindings(d, LanceDb) == Bindings(e, LanceDb);
  }

  lemma CachedEntry(a: Ack, d: Desired)
    ensures Cached(a, d) <==> IsInsert(a) && Entry(d, SlotOf(a)) == Some(a)
  {
  }

  // ----- sequences of changes

  function ApplyAll(d: Desired, acks: seq<Ack>): Desired {
    if acks == [] then d else Apply(ApplyAll(d, acks[..|acks| - 1]), acks[|acks| - 1])
  }

  lemma {:induction false} FoldApplyAll(log: seq<Ack>, acks: seq<Ack>)
    ensures Fold(log + acks) == ApplyAll(Fold(log), acks)
  {
    hide Apply;
    if acks == [] {
      assert log + acks == log;
    } else {
      var init, last := acks[..|acks| - 1], acks[|acks| - 1];
      assert log + acks == (log + init) + [last];
      FoldSnoc(log + init, last);
      FoldApplyAll(log, init);
    }
  }

  lemma {:induction false} ApplyAllFirst(d: Desired, acks: seq<Ack>)
    requires acks != []
    ensures ApplyAll(d, acks) == ApplyAll(Apply(d, acks[0]), acks[1..])
  {
    hide Apply;
    if |acks| == 1 {
      assert acks[..0] == [] && acks[1..] == [];
    } else {
      var init := acks[..|acks| - 1];
      ApplyAllFirst(d, init);
      assert acks[1..][..|acks| - 2] == init[1..];
    }
  }

  /** Requests that put entries in place and never contradict each other. */
  ghost predicate Harmonious(todo: seq<Ack>) {
    && (forall a :: a in todo ==> IsInsert(a))
    && (forall a, b :: a in todo && b in todo && SlotOf(a) == SlotOf(b) ==> a == b)
  }

  ghost predicate Names(todo: seq<Ack>, slot: Slot) {
    exists a :: a in todo && IsInsert(a) && SlotOf(a) == slot
  }

  /** After such requests, a slot they name holds what they say, and any other slot what it held before. */
  lemma {:induction false} SentEntry(d: Desired, todo: seq<Ack>, slot: Slot)
    requires Harmonious(todo)
    ensures forall a :: a in todo && SlotOf(a) == slot ==> Entry(ApplyAll(d, todo), slot) == Some(a)
    ensures !Names(todo, slot) ==> Entry(ApplyAll(d, todo), slot) == Entry(d, slot)
  {
    hide Apply, Entry;
    if todo != [] {
      var init, last := todo[..|todo| - 1], todo[|todo| - 1];
      assert last in todo && forall a :: a in todo <==> a in init || a == last;
      SentEntry(d, init, slot);
      EntryApply(ApplyAll(d, init), last, slot);
    }
  }

  /** Sending the requests leads to the goal exactly when the goal holds all of them, and already agrees with the
      starting point in every slot that they do not name. */
  lemma SendsExactly(d: Desired, todo: seq<Ack>, goal: Desired)
    requires Harmonious(todo)
    ensures ApplyAll(d, todo) == goal <==>
              && (forall a :: a in todo ==> Cached(a, goal))
              && (forall slot :: !Names(todo, slot) ==> Entry(d, slot) == Entry(goal, slot))
  {
    hide Entry, Cached, Apply, ApplyAll;
    forall a | a in todo
      ensures Cached(a, goal) <==> Entry(goal, SlotOf(a)) == Some(a)
    {
      CachedEntry(a, goal);
    }
    forall slot
      ensures forall a :: a in todo && SlotOf(a) == slot ==> Entry(ApplyAll(d, todo), slot) == Some(a)
      ensures !Names(todo, slot) ==> Entry(ApplyAll(d, todo), slot) == Entry(d, slot)
    {
      SentEntry(d, todo, slot);
    }
    if (forall a :: a in todo ==> Cached(a, goal)) && (forall slot :: !Names(todo, slot) ==> Entry(d, slot) == Entry(goal, slot)) {
      forall slot
        ensures Entry(ApplyAll(d, todo), slot) == Entry(goal, slot)
      {
        if Names(todo, slot) {
          var a :| a in todo && SlotOf(a) == slot;
        }
      }
      SameEntries(ApplyAll(d, todo), goal);
    }
  }

  /** A replay of the cache names exactly the slots that the cache fills. */
  lemma PlanNames(plan: Plan, d: Desired)
    requires WellKeyed(d) && IsPlan(plan, d)
    ensures Harmonious(Requests(plan))
    ensures forall a :: a in Requests(plan) <==> Cached(a, d)
    ensures forall slot :: Names(Requests(plan), slot) <==> Entry(d, slot).Some?
  {
    hide WellKeyed, IsPlan, Requests, Cached, Entry;
    forall a
      ensures a in Requests(plan) <==> Cached(a, d)
      ensures Cached(a, d) <==> IsInsert(a) && Entry(d, SlotOf(a)) == Some(a)
    {
      CachedEntry(a, d);
      if a in Requests(plan) {
        var i :| 0 <= i < |Requests(plan)| && Requests(plan)[i] == a;
        PlannedIsCached(plan, d, i);
      }
      if Cached(a, d) {
        CachedIsPlanned(plan, d, a);
      }
    }
    forall slot
      ensures Names(Requests(plan), slot) <==> Entry(d, slot).Some?
    {
      EntrySlot(d, slot);
      if Entry(d, slot).Some? {
        assert Cached(Entry(d, slot).value, d);
      }
    }
  }

  lemma EntrySlot(d: Desired, slot: Slot)
    requires WellKeyed(d)
    ensures Entry(d, slot).Some? ==> IsInsert(Entry(d, slot).value) && SlotOf(Entry(d, slot).value) == slot
  {
  }

  // ----- parts of a goal

  /** Whatever is there belongs to a slot that the goal fills as well, though perhaps otherwise. */
  ghost predicate KeysWithin(d: Desired, goal: Desired) {
    forall slot :: Entry(goal, slot).None? ==> Entry(d, slot).None?
  }

  lemma KeysWithinApply(d: Desired, goal: Desired, a: Ack)
    requires KeysWithin(d, goal)
    ensures KeysWithin(Apply(d, a), Apply(goal, a))
  {
    hide Apply, Entry;
    forall slot
      ensures Entry(Apply(goal, a), slot).None? ==> Entry(Apply(d, a), slot).None?
    {
      EntryApply(d, a, slot);
      EntryApply(goal, a, slot);
    }
  }

  lemma SendingStartsWithin(d: Desired, todo: seq<Ack>, goal: Desired)
    requires Harmonious(todo) && ApplyAll(d, todo) == goal
    ensures KeysWithin(d, goal)
  {
    hide Entry, ApplyAll, Cached;
    SendsExactly(d, todo, goal);
    forall slot | Entry(goal, slot).None?
      ensures Entry(d, slot).None?
    {
      if Names(todo, slot) {
        var a :| a in todo && SlotOf(a) == slot;
        CachedEntry(a, goal);
      }
    }
  }
}
