/** The three handle functions as the program they are, called by one thread with no other around. Each is shown to
    end where the steps of module `HandleRegistry` end when that thread takes them one after another, so the machine
    walks the control flow of the functions. */
module HandleFunctions {
  import opened Wrappers
  import opened HandleRegistry

  const ME: Tid := 0

  /** The error of the operation itself passes through unchanged. */
  datatype UseError<+E> = InvalidHandle | OperationFailed(error: E)

  function Alone(sys: System, m: Move, n: nat): System
    decreases n
  {
    if n == 0 then sys else Alone(Step(sys, m), m, n - 1)
  }

  lemma {:induction false} AloneKeepsInv(sys: System, m: Move, n: nat)
    requires Inv(sys)
    ensures Inv(Alone(sys, m, n))
    decreases n
  {
    if n > 0 {
      StepKeepsInv(sys, m);
      AloneKeepsInv(Step(sys, m), m, n - 1);
    }
  }

  class Handles {
    var registry: map<Addr, Handle>
    var heap: map<Addr, Handle>
    var handles: seq<Entry>
    ghost var last: Outcome

    ghost function Between(): System
      reads this
    {
      System(map[ME := Idle(last)], None, registry, heap, handles)
    }

    ghost predicate Valid()
      reads this
    {
      Inv(Between())
    }

    constructor ()
      ensures Valid() && registry == map[] && heap == map[] && handles == []
    {
      registry, heap, handles, last := map[], map[], [], Nothing;
    }

    /** `offered` is the address at which the allocator puts the new shell. */
    method RegisterClientHandle(offered: Addr) returns (client: Addr)
      requires Valid() && offered != NULL && offered !in heap
      modifies this
      ensures Valid() && Between() == Alone(old(Between()), Move(ME, Create, offered), 3)
      ensures client == offered && registry == old(registry)[client := |old(handles)|] && last == Created(client)
    {
      ghost var m, s0 := Move(ME, Create, offered), Between();
      var h := |handles|;
      heap := heap[offered := h];
      handles := handles + [Entry(offered, Live, ME, true, None, 0, 0)];
      registry := registry[offered := h];
      client := offered;
      last := Created(client);

      ghost var s2 := Step(Step(s0, m), m);
      assert s2.handles == old(handles) + [Entry(offered, Inserting, ME, true, None, 0, 0)];
      assert s2.handles[h := Entry(offered, Live, ME, true, None, 0, 0)] == handles;
      assert Step(s2, m) == Between();
      Three(s0, m);
      AloneKeepsInv(s0, m, 3);
    }

    /** The operation runs exactly when the pointer is registered; `answer` is what it would return. */
    method WithClientHandle<T, E>(client: Addr, answer: Result<T, E>) returns (r: Result<T, UseError<E>>)
      requires Valid()
      modifies this
      ensures Valid() && exists n: nat :: Between() == Alone(old(Between()), Move(ME, Use(client), NULL), n)
      ensures r == if client !in old(registry) then Err(InvalidHandle)
                   else match answer case Ok(v) => Ok(v) case Err(e) => Err(OperationFailed(e))
      ensures last == if client in old(registry) then Served else Refused
      ensures registry == old(registry) && heap == old(heap) && handles == old(handles)
    {
      hide Inv, Step, Alone;
      ghost var m, s0 := Move(ME, Use(client), NULL), Between();
      NullIsNotRegistered(s0);
      if client == NULL || client !in registry {
        last := Refused;
        ghost var n := RefusedUse(s0, m, client);
        AloneKeepsInv(s0, m, n);
        return Err(InvalidHandle);
      }
      var h := registry[client];
      RegisteredIsReady(s0, client);
      handles := handles[h := handles[h].(owner := Some(ME))];
      if !handles[h].present {
        assert false;
      }
      r := match answer case Ok(v) => Ok(v) case Err(e) => Err(OperationFailed(e));
      handles := handles[h := handles[h].(owner := None)];
      last := Served;
      assert handles == old(handles);
      UseSteps(s0, m, client, h);
      AloneKeepsInv(s0, m, 5);
    }

    /** Takes the pointer out of the registry, shuts the client down and gives the shell back, each at most once;
        freeing anything else does nothing. */
    method ClientFree(client: Addr)
      requires Valid()
      modifies this
      ensures Valid() && exists n: nat :: Between() == Alone(old(Between()), Move(ME, Free(client), NULL), n)
      ensures registry == old(registry) - {client} && client !in registry
      ensures client !in old(registry) ==> heap == old(heap) && handles == old(handles)
      ensures client in old(registry) ==>
                var h := old(registry)[client];
                && heap == old(heap) - {client} && h < |old(handles)| && |handles| == |old(handles)|
                && handles == old(handles)[h := handles[h]]
                && !handles[h].present && handles[h].releases == 1 && handles[h].shutdowns == 1
    {
      hide Inv, Step, Alone;
      ghost var m, s0 := Move(ME, Free(client), NULL), Between();
      last := Nothing;
      NullIsNotRegistered(s0);
      if client == NULL || client !in registry {
        assert registry - {client} == registry;
        ghost var n := RefusedSteps(s0, m, client);
        AloneKeepsInv(s0, m, n);
        return;
      }
      var h := registry[client];
      RegisteredIsReady(s0, client);
      registry := registry - {client};
      handles := handles[h := handles[h].(stage := Freeing, worker := ME, owner := Some(ME))];
      if handles[h].present {
        handles := handles[h := handles[h].(present := false)];
        handles := handles[h := handles[h].(shutdowns := handles[h].shutdowns + 1)];
      }
      heap := heap - {client};
      handles := handles[h := handles[h].(stage := Gone, releases := handles[h].releases + 1)];
      handles := handles[h := handles[h].(owner := None)];
      last := Freed;

      FreeSteps(s0, m, client, h);
      assert handles == old(handles)[h := handles[h]];
      AloneKeepsInv(s0, m, 7);
    }
  }

  /** A state in which only this thread is known and the registry lock is free. */
  function Only(pc: Pc, registry: map<Addr, Handle>, heap: map<Addr, Handle>, handles: seq<Entry>): System {
    System(map[ME := pc], None, registry, heap, handles)
  }

  lemma RefusedUse(sys: System, m: Move, client: Addr) returns (n: nat)
    requires sys.threads.Keys == {ME} && sys.threads[ME].Idle? && sys.lock.None? && m == Move(ME, Use(client), NULL)
    requires client == NULL || client !in sys.registry
    ensures Alone(sys, m, n) == Only(Idle(Refused), sys.registry, sys.heap, sys.handles)
  {
    if client == NULL {
      n := 1;
      assert Alone(sys, m, 1) == Alone(Step(sys, m), m, 0);
    } else {
      n := 2;
      Two(sys, m);
    }
  }

  /** The five steps of a use that finds its pointer registered. */
  lemma UseSteps(sys: System, m: Move, client: Addr, h: Handle)
    requires sys.threads.Keys == {ME} && sys.threads[ME].Idle? && sys.lock.None? && client != NULL
    requires client in sys.registry && sys.registry[client] == h && h < |sys.handles| && m == Move(ME, Use(client), NULL)
    requires sys.handles[h].owner.None? && sys.handles[h].present
    ensures Alone(sys, m, 5) == Only(Idle(Served), sys.registry, sys.heap, sys.handles)
  {
    var s2 := Step(Step(sys, m), m);
    assert s2 == Only(UseWaiting(h), sys.registry, sys.heap, sys.handles);
    var locked := sys.handles[h := sys.handles[h].(owner := Some(ME))];
    var s3 := Step(s2, m);
    assert s3 == Only(UseInside(h), sys.registry, sys.heap, locked);
    assert Step(s3, m) == Only(UseRunning(h), sys.registry, sys.heap, locked);
    assert locked[h := locked[h].(owner := None)] == sys.handles;
    Two(sys, m);
    Three(s2, m);
    AloneAdds(sys, m, 2, 3);
  }

  /** A free of anything that is not registered. */
  lemma RefusedSteps(sys: System, m: Move, client: Addr) returns (n: nat)
    requires sys.threads.Keys == {ME} && sys.threads[ME].Idle? && sys.lock.None? && m == Move(ME, Free(client), NULL)
    requires client == NULL || client !in sys.registry
    ensures Alone(sys, m, n) == Only(Idle(Nothing), sys.registry, sys.heap, sys.handles)
  {
    if client == NULL {
      n := 1;
      assert Alone(sys, m, 1) == Alone(Step(sys, m), m, 0);
    } else {
      n := 2;
      Two(sys, m);
    }
  }

  lemma RemoveSteps(sys: System, m: Move, client: Addr, h: Handle)
    requires sys.threads.Keys == {ME} && sys.threads[ME].Idle? && sys.lock.None? && client != NULL
    requires client in sys.registry && sys.registry[client] == h && h < |sys.handles| && m == Move(ME, Free(client), NULL)
    ensures Step(Step(sys, m), m) == Only(FreeWaiting(client, h), sys.registry - {client}, sys.heap,
                                          sys.handles[h := sys.handles[h].(stage := Freeing, worker := ME)])
  {
    var s1 := Step(sys, m);
    assert s1 == System(map[ME := FreeLocked(client)], Some(ME), sys.registry, sys.heap, sys.handles);
    assert Step(s1, m) == Remove(s1, ME, client);
  }

  lemma LockStep(m: Move, client: Addr, h: Handle, registry: map<Addr, Handle>, heap: map<Addr, Handle>, handles: seq<Entry>)
    requires m.tid == ME && h < |handles| && handles[h].owner.None?
    ensures Step(Only(FreeWaiting(client, h), registry, heap, handles), m)
            == Only(FreeTaking(client, h), registry, heap, handles[h := handles[h].(owner := Some(ME))])
  {
  }

  lemma TakeStep(m: Move, client: Addr, h: Handle, registry: map<Addr, Handle>, heap: map<Addr, Handle>, handles: seq<Entry>)
    requires m.tid == ME && h < |handles| && handles[h].present
    ensures Step(Only(FreeTaking(client, h), registry, heap, handles), m)
            == Only(FreeShutting(client, h), registry, heap, handles[h := handles[h].(present := false)])
  {
  }

  lemma ShutStep(m: Move, client: Addr, h: Handle, registry: map<Addr, Handle>, heap: map<Addr, Handle>, handles: seq<Entry>)
    requires m.tid == ME && h < |handles|
    ensures Step(Only(FreeShutting(client, h), registry, heap, handles), m)
            == Only(FreeDropping(client, h), registry, heap, handles[h := handles[h].(shutdowns := handles[h].shutdowns + 1)])
  {
  }

  lemma DropStep(m: Move, client: Addr, h: Handle, registry: map<Addr, Handle>, heap: map<Addr, Handle>, handles: seq<Entry>)
    requires m.tid == ME && h < |handles|
    ensures Step(Only(FreeDropping(client, h), registry, heap, handles), m)
            == Only(FreeUnlocking(h), registry, heap - {client}, handles[h := handles[h].(stage := Gone, releases := handles[h].releases + 1)])
  {
  }

  lemma UnlockStep(m: Move, h: Handle, registry: map<Addr, Handle>, heap: map<Addr, Handle>, handles: seq<Entry>)
    requires m.tid == ME && h < |handles|
    ensures Step(Only(FreeUnlocking(h), registry, heap, handles), m)
            == Only(Idle(Freed), registry, heap, handles[h := handles[h].(owner := None)])
  {
  }

  /** The seven steps of a free that finds its pointer registered. */
  lemma FreeSteps(sys: System, m: Move, client: Addr, h: Handle)
    requires sys.threads.Keys == {ME} && sys.threads[ME].Idle? && sys.lock.None? && client != NULL
    requires client in sys.registry && sys.registry[client] == h && h < |sys.handles| && m == Move(ME, Free(client), NULL)
    requires sys.handles[h].owner.None? && sys.handles[h].present
    ensures var e := sys.handles[h];
            Alone(sys, m, 7) == Only(Idle(Freed), sys.registry - {client}, sys.heap - {client},
              sys.handles[h := Entry(e.shell, Gone, ME, false, None, e.releases + 1, e.shutdowns + 1)])
  {
    hide Step, Only;
    var e, out := sys.handles[h], sys.registry - {client};
    var h1 := sys.handles[h := e.(stage := Freeing, worker := ME)];
    var h2 := h1[h := h1[h].(owner := Some(ME))];
    var h3 := h2[h := h2[h].(present := false)];
    var h4 := h3[h := h3[h].(shutdowns := h3[h].shutdowns + 1)];
    var h5 := h4[h := h4[h].(stage := Gone, releases := h4[h].releases + 1)];
    RemoveSteps(sys, m, client, h);
    LockStep(m, client, h, out, sys.heap, h1);
    TakeStep(m, client, h, out, sys.heap, h2);
    ShutStep(m, client, h, out, sys.heap, h3);
    DropStep(m, client, h, out, sys.heap, h4);
    UnlockStep(m, h, out, sys.heap - {client}, h5);
    assert h5[h := h5[h].(owner := None)] == sys.handles[h := Entry(e.shell, Gone, ME, false, None, e.releases + 1, e.shutdowns + 1)];
    Three(sys, m);
    var s3 := Alone(sys, m, 3);
    Three(s3, m);
    AloneAdds(sys, m, 3, 3);
    AloneAdds(sys, m, 6, 1);
    assert Alone(Alone(sys, m, 6), m, 1) == Alone(Step(Alone(sys, m, 6), m), m, 0);
  }

  lemma Two(sys: System, m: Move)
    ensures Alone(sys, m, 2) == Step(Step(sys, m), m)
  {
    hide Step;
    assert Alone(Step(sys, m), m, 1) == Alone(Step(Step(sys, m), m), m, 0);
  }

  lemma Three(sys: System, m: Move)
    ensures Alone(sys, m, 3) == Step(Step(Step(sys, m), m), m)
  {
    hide Step;
    Two(Step(sys, m), m);
  }

  lemma {:induction false} AloneAdds(sys: System, m: Move, i: nat, j: nat)
    ensures Alone(sys, m, i + j) == Alone(Alone(sys, m, i), m, j)
    decreases i
  {
    hide Step;
    if i > 0 {
      AloneAdds(Step(sys, m), m, i - 1, j);
    }
  }

  lemma NullIsNotRegistered(sys: System)
    requires Inv(sys)
    ensures NULL !in sys.registry
  {
    if NULL in sys.registry {
      RegisteredIsLive(sys, NULL);
    }
  }

  /** With no thread at work, a registered handle is whole and its mutex free. */
  lemma RegisteredIsReady(sys: System, a: Addr)
    requires Inv(sys) && a in sys.registry
    requires forall t :: t in sys.threads ==> sys.threads[t].Idle?
    ensures var h := sys.registry[a];
            && h < |sys.handles| && sys.handles[h].owner.None? && sys.handles[h].present && sys.handles[h].shell == a
            && sys.handles[h].releases == 0 && sys.handles[h].shutdowns == 0 && a != NULL && a in sys.heap
  {
    RegisteredIsLive(sys, a);
    assert EntryAt(sys, sys.registry[a]);
  }
}
