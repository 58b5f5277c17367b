/** The desired controller state a host builds up: attached spaces and enabled backends.

    The SDK caches it for replay; the controller is modelled by the log of requests it has
    acknowledged, and `Fold` says which desired state such a log stands for. */
module DesiredState {

  datatype SpaceKind = Root | User | Project

  datatype SpaceRegistration = SpaceRegistration(spaceId: string, spaceLabel: string, spaceKind: SpaceKind, spaceRoot: string)

  datatype BindingKey = BindingKey(spaceId: string, bindingId: string)

  /** One enable request. The tuning fields travel unread, so they are one opaque text. */
  datatype EnableRequest = EnableRequest(spaceId: string, bindingId: string, settings: string) {
    function Key(): BindingKey {
      BindingKey(spaceId, bindingId)
    }
  }

  datatype Backend = Sqlite | LanceDb

  datatype Desired = Desired(
    spaces: map<string, SpaceRegistration>,
    sqlite: map<BindingKey, EnableRequest>,
    lancedb: map<BindingKey, EnableRequest>)

  const EMPTY := Desired(map[], map[], map[])

  /** A request the controller acknowledged: a success reply, and for the two removals the answer `true`. */
  datatype Ack =
    | Attached(space: SpaceRegistration)
    | Detached(spaceId: string)
    | Enabled(backend: Backend, request: EnableRequest)
    | Disabled(disabledBackend: Backend, key: BindingKey)

  function OutsideSpace(bindings: map<BindingKey, EnableRequest>, spaceId: string): map<BindingKey, EnableRequest> {
    map k | k in bindings && k.spaceId != spaceId :: bindings[k]
  }

  function Apply(d: Desired, a: Ack): Desired {
    match a
    case Attached(space) => d.(spaces := d.spaces[space.spaceId := space])
    case Detached(id) =>
      Desired(d.spaces - {id}, OutsideSpace(d.sqlite, id), OutsideSpace(d.lancedb, id))
    case Enabled(Sqlite, r) => d.(sqlite := d.sqlite[r.Key() := r])
    case Enabled(LanceDb, r) => d.(lancedb := d.lancedb[r.Key() := r])
    case Disabled(Sqlite, k) => d.(sqlite := d.sqlite - {k})
    case Disabled(LanceDb, k) => d.(lancedb := d.lancedb - {k})
  }

  /** What a log of acknowledged requests, oldest first, adds up to. */
  function Fold(log: seq<Ack>): Desired {
    if log == [] then EMPTY else Apply(Fold(log[..|log| - 1]), log[|log| - 1])
  }

  /** Every entry sits under its own key. */
  ghost predicate WellKeyed(d: Desired) {
    && (forall k :: k in d.spaces ==> d.spaces[k].spaceId == k)
    && (forall k :: k in d.sqlite ==> d.sqlite[k].Key() == k)
    && (forall k :: k in d.lancedb ==> d.lancedb[k].Key() == k)
  }

  ghost predicate SubMap<K, V>(small: map<K, V>, big: map<K, V>) {
    forall k :: k in small ==> k in big && small[k] == big[k]
  }

  /** `small` asks for nothing that `big` does not ask for in the same words. */
  ghost predicate Within(small: Desired, big: Desired) {
    SubMap(small.spaces, big.spaces) && SubMap(small.sqlite, big.sqlite) && SubMap(small.lancedb, big.lancedb)
  }

  /** Every binding lies in a space that is itself desired. */
  ghost predicate Covered(d: Desired) {
    && (forall k :: k in d.sqlite ==> k.spaceId in d.spaces)
    && (forall k :: k in d.lancedb ==> k.spaceId in d.spaces)
  }

  /** One order in which the cached requests are sent again. */
  datatype Plan = Plan(spaces: seq<SpaceRegistration>, sqlite: seq<EnableRequest>, lancedb: seq<EnableRequest>)

  function Attaches(spaces: seq<SpaceRegistration>): (r: seq<Ack>)
    ensures |r| == |spaces| && forall i :: 0 <= i < |r| ==> r[i] == Attached(spaces[i])
  {
    seq(|spaces|, i requires 0 <= i < |spaces| => Attached(spaces[i]))
  }

  function Enables(b: Backend, requests: seq<EnableRequest>): (r: seq<Ack>)
    ensures |r| == |requests| && forall i :: 0 <= i < |r| ==> r[i] == Enabled(b, requests[i])
  {
    seq(|requests|, i requires 0 <= i < |requests| => Enabled(b, requests[i]))
  }

  /** Spaces first, then SQLite bindings, then LanceDB bindings. */
  function Requests(plan: Plan): seq<Ack> {
    Attaches(plan.spaces) + Enables(Sqlite, plan.sqlite) + Enables(LanceDb, plan.lancedb)
  }

  ghost predicate Lists<K, V(!new)>(values: seq<V>, m: map<K, V>) {
    forall v :: v in values <==> v in m.Values
  }

  /** `plan` names exactly the cached requests. The key order of the source's ordered maps is one such plan. */
  ghost predicate IsPlan(plan: Plan, d: Desired) {
    Lists(plan.spaces, d.spaces) && Lists(plan.sqlite, d.sqlite) && Lists(plan.lancedb, d.lancedb)
  }

  /** Every map can be listed. */
  lemma {:induction false} Listing<K, V(!new)>(m: map<K, V>) returns (values: seq<V>)
    ensures Lists(values, m)
    decreases |m|
  {
    if m.Keys == {} {
      values := [];
    } else {
      var k :| k in m.Keys;
      var rest := m - {k};
      assert rest.Keys == m.Keys - {k};
      var others := Listing(rest);
      values := others + [m[k]];
      assert m[k] in m.Values;
      forall v
        ensures v in values <==> v in m.Values
      {
        if v in m.Values && v != m[k] {
          var j :| j in m && m[j] == v;
          assert rest[j] == v;
          assert v in rest.Values;
        }
      }
    }
  }

  lemma SomePlan(d: Desired) returns (plan: Plan)
    ensures IsPlan(plan, d)
  {
    var spaces := Listing(d.spaces);
    var sqlite := Listing(d.sqlite);
    var lancedb := Listing(d.lancedb);
    plan := Plan(spaces, sqlite, lancedb);
  }

  // ----- facts about folding

  lemma FoldSnoc(log: seq<Ack>, a: Ack)
    ensures Fold(log + [a]) == Apply(Fold(log), a)
  {
    assert (log + [a])[..|log|] == log;
  }

  lemma ApplyKeepsWellKeyed(d: Desired, a: Ack)
    requires WellKeyed(d)
    ensures WellKeyed(Apply(d, a))
  {
  }

  /** The request is one that the cache `d` holds. */
  ghost predicate Cached(a: Ack, d: Desired) {
    match a
    case Attached(space) => space.spaceId in d.spaces && d.spaces[space.spaceId] == space
    case Enabled(Sqlite, r) => r.Key() in d.sqlite && d.sqlite[r.Key()] == r
    case Enabled(LanceDb, r) => r.Key() in d.lancedb && d.lancedb[r.Key()] == r
    case Detached(_) => false
    case Disabled(_, _) => false
  }

  lemma PlannedIsCached(plan: Plan, d: Desired, i: nat)
    requires WellKeyed(d) && IsPlan(plan, d) && i < |Requests(plan)|
    ensures Cached(Requests(plan)[i], d)
  {
    var s, q := |plan.spaces|, |plan.sqlite|;
    if i < s {
      assert plan.spaces[i] in d.spaces.Values;
    } else if i < s + q {
      assert plan.sqlite[i - s] in d.sqlite.Values;
    } else {
      assert plan.lancedb[i - s - q] in d.lancedb.Values;
    }
  }

  lemma CachedIsPlanned(plan: Plan, d: Desired, a: Ack)
    requires IsPlan(plan, d) && Cached(a, d)
    ensures a in Requests(plan)
  {
    match a
    case Attached(space) =>
      assert space in d.spaces.Values;
      var i :| 0 <= i < |plan.spaces| && plan.spaces[i] == space;
      assert Requests(plan)[i] == a;
    case Enabled(Sqlite, r) =>
      assert r in d.sqlite.Values;
      var i :| 0 <= i < |plan.sqlite| && plan.sqlite[i] == r;
      assert Requests(plan)[|plan.spaces| + i] == a;
    case Enabled(LanceDb, r) =>
      assert r in d.lancedb.Values;
      var i :| 0 <= i < |plan.lancedb| && plan.lancedb[i] == r;
      assert Requests(plan)[|plan.spaces| + |plan.sqlite| + i] == a;
  }

  lemma ResendStaysWithin(part: Desired, d: Desired, a: Ack)
    requires WellKeyed(d) && Within(part, d) && Cached(a, d)
    ensures Within(Apply(part, a), d) && Cached(a, Apply(part, a))
  {
  }

  lemma ResendKeepsCached(part: Desired, d: Desired, a: Ack, earlier: Ack)
    requires Within(part, d) && Cached(a, d) && Cached(earlier, d) && Cached(earlier, part)
    ensures Cached(earlier, Apply(part, a))
  {
  }

  /** Re-sending cached requests on top of a part of the cache never leaves the cache, and a request once
      sent stays recorded. */
  lemma {:induction false} PartialReplay(log: seq<Ack>, sent: seq<Ack>, d: Desired)
    requires WellKeyed(d) && Within(Fold(log), d)
    requires forall a :: a in sent ==> Cached(a, d)
    ensures Within(Fold(log + sent), d)
    ensures forall a :: a in sent ==> Cached(a, Fold(log + sent))
  {
    hide Apply, Within, Cached;
    if sent == [] {
      assert log + sent == log;
    } else {
      var init, last := sent[..|sent| - 1], sent[|sent| - 1];
      assert last in sent;
      PartialReplay(log, init, d);
      assert log + sent == (log + init) + [last];
      FoldSnoc(log + init, last);
      ResendStaysWithin(Fold(log + init), d, last);
      forall a | a in sent
        ensures Cached(a, Fold(log + sent))
      {
        if a != last {
          assert a in init;
          ResendKeepsCached(Fold(log + init), d, last, a);
        }
      }
    }
  }

  /** A complete replay over any part of the cache rebuilds the cache exactly. */
  lemma CompleteReplay(log: seq<Ack>, plan: Plan, d: Desired)
    requires WellKeyed(d) && Within(Fold(log), d) && IsPlan(plan, d)
    ensures Fold(log + Requests(plan)) == d
  {
    var sent := Requests(plan);
    forall a | a in sent
      ensures Cached(a, d)
    {
      var i :| 0 <= i < |sent| && sent[i] == a;
      PlannedIsCached(plan, d, i);
    }
    PartialReplay(log, sent, d);
    var f := Fold(log + sent);
    forall k | k in d.spaces
      ensures k in f.spaces
    {
      CachedIsPlanned(plan, d, Attached(d.spaces[k]));
    }
    forall k | k in d.sqlite
      ensures k in f.sqlite
    {
      CachedIsPlanned(plan, d, Enabled(Sqlite, d.sqlite[k]));
    }
    forall k | k in d.lancedb
      ensures k in f.lancedb
    {
      CachedIsPlanned(plan, d, Enabled(LanceDb, d.lancedb[k]));
    }
    assert f.spaces == d.spaces && f.sqlite == d.sqlite && f.lancedb == d.lancedb;
  }

  /** When every cached binding lies in a cached space, a replay attaches that space before enabling the binding. */
  lemma SpacesComeFirst(plan: Plan, d: Desired, i: nat)
    requires WellKeyed(d) && Covered(d) && IsPlan(plan, d)
    requires i < |Requests(plan)| && Requests(plan)[i].Enabled?
    ensures exists j :: 0 <= j < i && Requests(plan)[j].Attached?
                        && Requests(plan)[j].space.spaceId == Requests(plan)[i].request.spaceId
  {
    PlannedIsCached(plan, d, i);
    var id := Requests(plan)[i].request.spaceId;
    assert d.spaces[id] in d.spaces.Values;
    var j :| 0 <= j < |plan.spaces| && plan.spaces[j] == d.spaces[id];
    assert Requests(plan)[j] == Attached(d.spaces[id]);
  }

  function Rank(a: Ack): nat {
    match a
    case Attached(_) => 0
    case Enabled(Sqlite, _) => 1
    case _ => 2
  }

  /** Whatever the order within each kind, spaces come first, then SQLite bindings, then LanceDB bindings. */
  lemma KindsComeInOrder(plan: Plan, i: nat, j: nat)
    requires i < j < |Requests(plan)|
    ensures Rank(Requests(plan)[i]) <= Rank(Requests(plan)[j])
  {
  }
}
