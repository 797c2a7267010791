/**
 * PluginRegistry: plugins, the table of operator keys, and the references that
 * operator instances hold. Every operation modelled here runs under one mutex;
 * reading the generation counter alone does not. `live` is the ghost record of
 * the leases not yet released.
 */
module PluginRegistry {
  import opened Wrappers
  import opened GraphModel

  type PluginId = nat

  datatype PluginState = Registered | InUse | Retiring | LogicallyUnloaded | PhysicallyUnloaded

  datatype Reference = Reference(key: OperatorKey, session: nat, node: nat, version: nat)

  /** linked says that the library is open and the operator entries have their vtables. */
  datatype Plugin = Plugin(
    name: string, state: PluginState, operators: seq<OperatorKey>, references: seq<Reference>, count: nat,
    noOwnedThreads: bool, linked: bool)

  predicate Live(p: Plugin) {
    p.state.Registered? || p.state.InUse? || p.state.Retiring?
  }

  predicate Unloaded(p: Plugin) {
    p.state.LogicallyUnloaded? || p.state.PhysicallyUnloaded?
  }

  function Keys(ops: seq<OperatorKey>): set<OperatorKey> {
    set k | k in ops
  }

  datatype Snapshot = Snapshot(plugins: map<PluginId, Plugin>, keys: map<OperatorKey, PluginId>, generation: nat)

  // -------------------------------------------------------------------------
  // Invariants

  /** A key is in the table exactly if a live plugin has it, and points at that plugin. */
  ghost predicate TableOk(plugins: map<PluginId, Plugin>, keys: map<OperatorKey, PluginId>) {
    && (forall k :: k in keys ==> keys[k] in plugins && Live(plugins[keys[k]]) && k in plugins[keys[k]].operators)
    && (forall id, k :: id in plugins && Live(plugins[id]) && k in plugins[id].operators ==> k in keys && keys[k] == id)
  }

  /** The references are the live leases; an unloaded plugin has none; live plugins are linked. */
  ghost predicate CountOk(p: Plugin, leases: multiset<Reference>) {
    && p.count == |p.references| && multiset(p.references) == leases
    && (Unloaded(p) ==> p.references == [])
    && (Live(p) ==> p.linked)
  }

  ghost predicate AllCounted(plugins: map<PluginId, Plugin>, live: map<PluginId, multiset<Reference>>) {
    live.Keys == plugins.Keys && forall id :: id in plugins ==> CountOk(plugins[id], live[id])
  }

  /** A retiring plugin is still referred to: the last reference to go unloads it. */
  ghost predicate RetiringHeld(plugins: map<PluginId, Plugin>) {
    forall id :: HeldAt(plugins, id)
  }

  ghost predicate HeldAt(plugins: map<PluginId, Plugin>, id: PluginId) {
    id in plugins && plugins[id].state.Retiring? ==> plugins[id].references != []
  }

  /** One plugin may stand out for a moment, until it is replaced. */
  ghost predicate HeldBut(plugins: map<PluginId, Plugin>, id: PluginId) {
    forall x :: x == id || HeldAt(plugins, x)
  }

  lemma {:induction false} HeldAfter(plugins: map<PluginId, Plugin>, id: PluginId, q: Plugin)
    requires HeldBut(plugins, id)
    ensures HeldBut(plugins[id := q], id)
    ensures (q.state.Retiring? ==> q.references != []) ==> RetiringHeld(plugins[id := q])
  {
    var next := plugins[id := q];
    forall x ensures x == id || HeldAt(next, x) {
      assert x == id || HeldAt(plugins, x);
    }
  }

  lemma {:induction false} SetTwice(plugins: map<PluginId, Plugin>, id: PluginId, p: Plugin, q: Plugin)
    ensures plugins[id := p][id := q] == plugins[id := q]
  {
  }

  lemma {:induction false} SameEntry(plugins: map<PluginId, Plugin>, id: PluginId)
    requires id in plugins
    ensures plugins[id := plugins[id]] == plugins
  {
  }

  /** A plugin keeps its operators, and does not come back from retiring or unloading. */
  predicate Carried(p: Plugin, q: Plugin) {
    && q.operators == p.operators
    && (Unloaded(p) ==> Unloaded(q))
    && (p.state.Retiring? ==> q.state.Retiring? || Unloaded(q))
  }

  /** What every operation leaves behind, compared with what it found. */
  ghost predicate Follows(s: Snapshot, t: Snapshot) {
    && s.generation <= t.generation
    && (s.generation == t.generation ==> s.keys == t.keys)
    && forall id :: id in s.plugins ==> id in t.plugins && Carried(s.plugins[id], t.plugins[id])
  }

  lemma {:induction false} FollowsTrans(s: Snapshot, t: Snapshot, u: Snapshot)
    requires Follows(s, t) && Follows(t, u)
    ensures Follows(s, u)
  {
    forall id | id in s.plugins ensures id in u.plugins && Carried(s.plugins[id], u.plugins[id]) {
      assert id in t.plugins && Carried(s.plugins[id], t.plugins[id]);
    }
  }

  /** Snapshots each of which follows the one before, as every operation of Registry promises of its own. */
  ghost predicate IsHistory(ss: seq<Snapshot>) {
    forall i :: 0 <= i < |ss| - 1 ==> Follows(ss[i], ss[i + 1])
  }

  lemma {:induction false} HistoryFollows(ss: seq<Snapshot>, i: nat, j: nat)
    requires IsHistory(ss) && i <= j < |ss|
    ensures Follows(ss[i], ss[j])
  {
    if i < j {
      HistoryFollows(ss, i, j - 1);
      assert Follows(ss[j - 1], ss[j - 1 + 1]);
      FollowsTrans(ss[i], ss[j - 1], ss[j]);
    }
  }

  /** Two moments of equal generation have the same key table. */
  lemma {:induction false} SameGenerationSameKeys(ss: seq<Snapshot>, i: nat, j: nat)
    requires IsHistory(ss) && i < |ss| && j < |ss| && ss[i].generation == ss[j].generation
    ensures ss[i].keys == ss[j].keys
  {
    if i <= j {
      HistoryFollows(ss, i, j);
    } else {
      HistoryFollows(ss, j, i);
    }
  }

  /** An unloaded plugin stays unloaded, without references, whatever happens. */
  lemma {:induction false} UnloadedForGood(ss: seq<Snapshot>, i: nat, j: nat, id: PluginId,
        live: map<PluginId, multiset<Reference>>)
    requires IsHistory(ss) && i <= j < |ss| && id in ss[i].plugins && Unloaded(ss[i].plugins[id])
    requires AllCounted(ss[j].plugins, live)
    ensures id in ss[j].plugins && Unloaded(ss[j].plugins[id]) && ss[j].plugins[id].references == []
    ensures live[id] == multiset{}
  {
    HistoryFollows(ss, i, j);
    assert id in ss[j].plugins.Keys && CountOk(ss[j].plugins[id], live[id]);
  }

  // -------------------------------------------------------------------------
  // Values

  lemma {:induction false} TableAfterLoad(plugins: map<PluginId, Plugin>, keys: map<OperatorKey, PluginId>,
        id: PluginId, p: Plugin, keys': map<OperatorKey, PluginId>)
    requires TableOk(plugins, keys) && id !in plugins && Live(p)
    requires (forall k :: k in p.operators ==> k !in keys) && Extended(keys, p.operators, id, keys')
    ensures TableOk(plugins[id := p], keys')
  {
    var after := plugins[id := p];
    forall x, k | x in after && Live(after[x]) && k in after[x].operators ensures k in keys' && keys'[k] == x {
      if x != id {
        assert k in keys && keys[k] == x;
      }
    }
  }

  lemma {:induction false} TableAfterUnload(plugins: map<PluginId, Plugin>, keys: map<OperatorKey, PluginId>,
        id: PluginId, p: Plugin)
    requires TableOk(plugins, keys) && id in plugins && Live(plugins[id])
    requires p.operators == plugins[id].operators && !Live(p)
    ensures TableOk(plugins[id := p], keys - Keys(p.operators))
  {
    var keys', after := keys - Keys(p.operators), plugins[id := p];
    forall x, k | x in after && Live(after[x]) && k in after[x].operators ensures k in keys' && keys'[k] == x {
      assert x != id && keys[k] == x;
      assert k !in p.operators;
    }
  }

  lemma {:induction false} TableAfterChange(plugins: map<PluginId, Plugin>, keys: map<OperatorKey, PluginId>,
        id: PluginId, p: Plugin)
    requires TableOk(plugins, keys) && id in plugins
    requires p.operators == plugins[id].operators && (Live(p) <==> Live(plugins[id]))
    ensures TableOk(plugins[id := p], keys)
  {
  }

  lemma {:induction false} CountAfterChange(plugins: map<PluginId, Plugin>, live: map<PluginId, multiset<Reference>>,
        id: PluginId, p: Plugin, leases: multiset<Reference>)
    requires AllCounted(plugins, live) && CountOk(p, leases)
    ensures AllCounted(plugins[id := p], live[id := leases])
  {
    assert live[id := leases].Keys == plugins[id := p].Keys;
  }

  function EraseFirst(refs: seq<Reference>, r: Reference): seq<Reference> {
    if refs == [] then [] else if refs[0] == r then refs[1..] else [refs[0]] + EraseFirst(refs[1..], r)
  }

  lemma {:induction false} EraseFirstCount(refs: seq<Reference>, r: Reference)
    requires r in refs
    ensures |EraseFirst(refs, r)| == |refs| - 1
    ensures multiset(EraseFirst(refs, r)) == multiset(refs) - multiset{r}
  {
    assert refs == [refs[0]] + refs[1..];
    if refs[0] != r {
      EraseFirstCount(refs[1..], r);
    }
  }

  type Leases = map<PluginId, multiset<Reference>>

  ghost predicate Good(s: Snapshot, live: Leases, next: PluginId) {
    TableOk(s.plugins, s.keys) && AllCounted(s.plugins, live) && forall id :: id in s.plugins ==> id < next
  }

  /** Moves a plugin may make without touching the key table. */
  predicate Moves(p: Plugin, q: Plugin) {
    && q.operators == p.operators && (Live(q) <==> Live(p))
    && (p.state.Retiring? ==> q.state.Retiring?)
  }

  lemma {:induction false} Changed(s: Snapshot, live: Leases, next: PluginId, id: PluginId, q: Plugin,
        leases: multiset<Reference>)
    requires Good(s, live, next) && id in s.plugins && Moves(s.plugins[id], q) && CountOk(q, leases)
    ensures Good(s.(plugins := s.plugins[id := q]), live[id := leases], next)
    ensures Follows(s, s.(plugins := s.plugins[id := q]))
  {
    TableAfterChange(s.plugins, s.keys, id, q);
    CountAfterChange(s.plugins, live, id, q, leases);
  }

  /** A live plugin without references leaves, and its keys with it. */
  function WithoutPlugin(s: Snapshot, id: PluginId): Snapshot
    requires id in s.plugins
  {
    var p := s.plugins[id];
    Snapshot(s.plugins[id := p.(state := LogicallyUnloaded)], s.keys - Keys(p.operators), s.generation + 1)
  }

  lemma {:induction false} Left(s: Snapshot, live: Leases, next: PluginId, id: PluginId)
    requires Good(s, live, next) && id in s.plugins && Live(s.plugins[id]) && s.plugins[id].references == []
    ensures Good(WithoutPlugin(s, id), live, next) && Follows(s, WithoutPlugin(s, id))
  {
    var q := s.plugins[id].(state := LogicallyUnloaded);
    TableAfterUnload(s.plugins, s.keys, id, q);
    CountAfterChange(s.plugins, live, id, q, live[id]);
    assert live[id := live[id]] == live;
  }

  lemma {:induction false} Joined(s: Snapshot, live: Leases, id: PluginId, p: Plugin, keys': map<OperatorKey, PluginId>)
    requires Good(s, live, id) && p.state.Registered? && p.references == [] && p.count == 0 && p.linked
    requires forall k :: k in p.operators ==> k !in s.keys
    requires Extended(s.keys, p.operators, id, keys')
    ensures Good(Snapshot(s.plugins[id := p], keys', s.generation + 1), live[id := multiset{}], id + 1)
    ensures Follows(s, Snapshot(s.plugins[id := p], keys', s.generation + 1))
  {
    assert id !in s.plugins;
    TableAfterLoad(s.plugins, s.keys, id, p, keys');
    CountAfterChange(s.plugins, live, id, p, multiset{});
    JoinedFollows(s, id, p, keys');
  }

  lemma {:induction false} JoinedFollows(s: Snapshot, id: PluginId, p: Plugin, keys': map<OperatorKey, PluginId>)
    requires id !in s.plugins
    ensures Follows(s, Snapshot(s.plugins[id := p], keys', s.generation + 1))
  {
  }

  function WithReference(p: Plugin, r: Reference): Plugin {
    p.(references := p.references + [r], count := p.count + 1, state := InUse)
  }

  function WithoutReference(p: Plugin, r: Reference): Plugin {
    p.(references := EraseFirst(p.references, r), count := if p.count > 0 then p.count - 1 else 0)
  }

  lemma {:induction false} Referenced(p: Plugin, leases: multiset<Reference>, r: Reference)
    requires CountOk(p, leases) && (p.state.Registered? || p.state.InUse?)
    ensures CountOk(WithReference(p, r), leases + multiset{r}) && Moves(p, WithReference(p, r))
  {
  }

  lemma {:induction false} Released(p: Plugin, leases: multiset<Reference>, r: Reference)
    requires CountOk(p, leases) && r in leases
    ensures CountOk(WithoutReference(p, r), leases - multiset{r}) && Moves(p, WithoutReference(p, r))
    ensures WithoutReference(p, r).count == 0 <==> leases - multiset{r} == multiset{}
    ensures Live(p)
  {
    assert r in multiset(p.references);
    EraseFirstCount(p.references, r);
    assert |multiset(EraseFirst(p.references, r))| == |EraseFirst(p.references, r)|;
  }

  predicate NameTaken(plugins: map<PluginId, Plugin>, name: string) {
    exists x :: x in plugins && Live(plugins[x]) && plugins[x].name == name
  }

  /** keys with the operators pointing at id. */
  ghost predicate Extended(keys: map<OperatorKey, PluginId>, operators: seq<OperatorKey>, id: PluginId,
        table: map<OperatorKey, PluginId>) {
    && (forall k :: k in table <==> k in keys || k in operators)
    && (forall k :: k in table ==> table[k] == if k in operators then id else keys[k])
  }

  method AddKeys(keys: map<OperatorKey, PluginId>, operators: seq<OperatorKey>,
        id: PluginId) returns (table: map<OperatorKey, PluginId>)
    ensures Extended(keys, operators, id, table)
  {
    table := keys;
    for i := 0 to |operators|
      invariant Extended(keys, operators[..i], id, table)
    {
      table := table[operators[i] := id];
    }
    assert operators[..|operators|] == operators;
  }

  method EraseKeys(keys: map<OperatorKey, PluginId>,
        operators: seq<OperatorKey>) returns (table: map<OperatorKey, PluginId>)
    ensures table == keys - Keys(operators)
  {
    table := keys;
    for i := 0 to |operators|
      invariant table == keys - Keys(operators[..i])
    {
      assert Keys(operators[..i + 1]) == Keys(operators[..i]) + {operators[i]};
      table := table - {operators[i]};
    }
    assert operators[..|operators|] == operators;
  }

  /** The first of the operators that is already registered, by position. */
  method FindConflict(keys: map<OperatorKey, PluginId>, operators: seq<OperatorKey>) returns (conflict: bool)
    ensures conflict <==> exists k :: k in operators && k in keys
  {
    for i := 0 to |operators|
      invariant forall j :: 0 <= j < i ==> operators[j] !in keys
    {
      if operators[i] in keys {
        return true;
      }
    }
    return false;
  }

  class Registry {
    var plugins: map<PluginId, Plugin>
    var keys: map<OperatorKey, PluginId>
    var nextId: PluginId
    var generation: nat
    ghost var live: map<PluginId, multiset<Reference>>

    ghost predicate Valid()
      reads this
    {
      Good(Now(), live, nextId) && RetiringHeld(plugins)
    }

    ghost function Now(): Snapshot
      reads this
    {
      Snapshot(plugins, keys, generation)
    }

    constructor ()
      ensures Valid() && plugins == map[] && keys == map[] && generation == 0
    {
      plugins, keys, nextId, generation, live := map[], map[], 1, 0, map[];
    }

    /** Load, from the point where the operator list is validated. */
    method Load(name: string, operators: seq<OperatorKey>, noOwnedThreads: bool) returns (s: Status, id: PluginId)
      requires Valid()
      modifies this
      ensures Valid() && Follows(old(Now()), Now())
      ensures s.Ok? || s.AlreadyExists?
      ensures s.Ok? <==>
                && (forall x :: x in old(plugins) && old(plugins)[x].name == name ==> Unloaded(old(plugins)[x]))
                && (forall k :: k in operators ==> k !in old(keys))
      ensures s.AlreadyExists? ==> Now() == old(Now())
      ensures s.Ok? ==>
                && id !in old(plugins)
                && plugins == old(plugins)[id := Plugin(name, Registered, operators, [], 0, noOwnedThreads, true)]
                && Extended(old(keys), operators, id, keys) && generation == old(generation) + 1
    {
      id := nextId;
      var conflict := FindConflict(keys, operators);
      if NameTaken(plugins, name) || conflict {
        return AlreadyExists, id;
      }
      var p := Plugin(name, Registered, operators, [], 0, noOwnedThreads, true);
      var table := AddKeys(keys, operators, id);
      Joined(Now(), live, id, p, table);
      HeldAfter(plugins, id, p);
      keys, plugins, live := table, plugins[id := p], live[id := multiset{}];
      generation, nextId := generation + 1, nextId + 1;
      return Ok, id;
    }

    /** Drops the keys of a plugin that has no references left. */
    method Unload(id: PluginId)
      requires Good(Now(), live, nextId) && id in plugins && Live(plugins[id]) && plugins[id].references == []
      requires HeldBut(plugins, id)
      modifies this
      ensures Valid() && Follows(old(Now()), Now()) && generation > old(generation)
      ensures Now() == WithoutPlugin(old(Now()), id) && live == old(live) && nextId == old(nextId)
    {
      var p := plugins[id].(state := LogicallyUnloaded);
      Left(Now(), live, nextId, id);
      HeldAfter(plugins, id, p);
      var table := EraseKeys(keys, p.operators);
      keys, plugins, generation := table, plugins[id := p], generation + 1;
    }

    method Retire(id: PluginId) returns (s: Status)
      requires Valid()
      modifies this
      ensures Valid() && Follows(old(Now()), Now())
      ensures id !in old(plugins) ==> s.NotFound? && Now() == old(Now())
      ensures id in old(plugins) && Unloaded(old(plugins)[id]) ==> s.PluginRetired? && Now() == old(Now())
      ensures id in old(plugins) && Live(old(plugins)[id]) && old(plugins)[id].references != [] ==>
                && s.Ok? && plugins[id] == old(plugins)[id].(state := Retiring)
                && keys == old(keys) && generation == old(generation)
      ensures id in old(plugins) && Live(old(plugins)[id]) && old(plugins)[id].references == [] ==>
                && s.Ok? && plugins[id] == old(plugins)[id].(state := LogicallyUnloaded)
                && keys == old(keys) - Keys(old(plugins)[id].operators) && generation == old(generation) + 1
      ensures live == old(live) && (id in old(plugins) ==> plugins == old(plugins)[id := plugins[id]])
    {
      if id !in plugins {
        return NotFound;
      }
      var p := plugins[id];
      SameEntry(plugins, id);
      assert HeldAt(plugins, id);
      if p.state.Retiring? {
        return Ok;
      }
      if !p.state.Registered? && !p.state.InUse? {
        return PluginRetired;
      }
      if p.count == 0 {
        Unload(id);
        return Ok;
      }
      var q := p.(state := Retiring);
      Changed(Now(), live, nextId, id, q, live[id]);
      HeldAfter(plugins, id, q);
      assert live[id := live[id]] == live;
      plugins := plugins[id := q];
      return Ok;
    }

    method LogicalUnload(id: PluginId) returns (s: Status)
      requires Valid()
      modifies this
      ensures Valid() && Follows(old(Now()), Now())
      ensures s.Ok? <==> id in old(plugins) && (Unloaded(old(plugins)[id]) || old(plugins)[id].references == [])
      ensures s.Ok? ==> Unloaded(plugins[id]) && forall k :: k in keys ==> keys[k] != id
      ensures s.Ok? && Unloaded(old(plugins)[id]) ==> Now() == old(Now())
      ensures s.Ok? && Live(old(plugins)[id]) ==>
                && plugins[id] == old(plugins)[id].(state := LogicallyUnloaded)
                && keys == old(keys) - Keys(old(plugins)[id].operators) && generation == old(generation) + 1
      ensures !s.Ok? ==> Now() == old(Now()) && s == if id in old(plugins) then WouldBlock else NotFound
      ensures live == old(live) && (id in old(plugins) ==> plugins == old(plugins)[id := plugins[id]])
    {
      if id !in plugins {
        return NotFound;
      }
      SameEntry(plugins, id);
      if Unloaded(plugins[id]) {
        return Ok;
      }
      if plugins[id].count != 0 {
        return WouldBlock;
      }
      Unload(id);
      return Ok;
    }

    method PhysicalUnload(id: PluginId, probeOk: bool) returns (s: Status)
      requires Valid()
      modifies this
      ensures Valid() && Follows(old(Now()), Now()) && keys == old(keys) && generation == old(generation)
      ensures id !in old(plugins) ==> s.NotFound?
      ensures s.Ok? ==> plugins[id].state.PhysicallyUnloaded? && plugins[id].references == [] && live[id] == multiset{}
      ensures id in old(plugins) && !s.Ok? ==> s.PluginUnloadUnsafe? && plugins == old(plugins)
      ensures s.Ok? <==>
                && id in old(plugins)
                && (|| old(plugins)[id].state.PhysicallyUnloaded?
                    || (old(plugins)[id].state.LogicallyUnloaded? && old(plugins)[id].noOwnedThreads && probeOk))
      ensures s.Ok? && old(plugins)[id].state.LogicallyUnloaded? ==>
                plugins[id] == old(plugins)[id].(state := PhysicallyUnloaded, linked := false)
      ensures s.Ok? && old(plugins)[id].state.PhysicallyUnloaded? ==> plugins == old(plugins)
      ensures live == old(live) && (id in old(plugins) ==> plugins == old(plugins)[id := plugins[id]])
    {
      if id !in plugins {
        return NotFound;
      }
      var p := plugins[id];
      SameEntry(plugins, id);
      if p.state.PhysicallyUnloaded? {
        return Ok;
      }
      if !p.state.LogicallyUnloaded? || p.count != 0 || !p.noOwnedThreads || !probeOk {
        return PluginUnloadUnsafe;
      }
      var q := p.(state := PhysicallyUnloaded, linked := false);
      Changed(Now(), live, nextId, id, q, live[id]);
      HeldAfter(plugins, id, q);
      assert live[id := live[id]] == live;
      plugins := plugins[id := q];
      return Ok;
    }

    method Resolve(key: OperatorKey) returns (id: Option<PluginId>)
      requires Valid()
      ensures id.Some? <==> exists x :: x in plugins && Live(plugins[x]) && key in plugins[x].operators
      ensures id.Some? ==> id.value in plugins && Live(plugins[id.value]) && key in plugins[id.value].operators
    {
      return if key in keys then Some(keys[key]) else None;
    }

    method AddReference(id: PluginId, r: Reference)
      requires Valid() && id in plugins && (plugins[id].state.Registered? || plugins[id].state.InUse?)
      modifies this`plugins, this`live
      ensures Valid() && Follows(old(Now()), Now()) && id in old(live)
      ensures plugins == old(plugins)[id := WithReference(old(plugins)[id], r)]
      ensures live == old(live)[id := old(live)[id] + multiset{r}]
    {
      var q := WithReference(plugins[id], r);
      assert CountOk(plugins[id], live[id]);
      Referenced(plugins[id], live[id], r);
      Changed(Now(), live, nextId, id, q, live[id] + multiset{r});
      HeldAfter(plugins, id, q);
      plugins, live := plugins[id := q], live[id := live[id] + multiset{r}];
    }

    /** Create, up to the point where the reference is recorded. */
    method Create(r: Reference) returns (s: Status, ghost id: PluginId)
      requires Valid()
      modifies this
      ensures Valid() && Follows(old(Now()), Now()) && keys == old(keys) && generation == old(generation)
      ensures s.Ok? || s.NotFound? || s.PluginRetired?
      ensures s.NotFound? <==> r.key !in old(keys)
      ensures s.PluginRetired? <==> r.key in old(keys) && old(plugins)[old(keys)[r.key]].state.Retiring?
      ensures s.Ok? ==>
                && r.key in keys && id == keys[r.key] && id in old(live)
                && live == old(live)[id := old(live)[id] + multiset{r}]
                && id in old(plugins) && plugins == old(plugins)[id := plugins[id]]
                && plugins[id] == old(plugins)[id].(state := InUse, references := old(plugins)[id].references + [r],
                                                    count := old(plugins)[id].count + 1)
      ensures !s.Ok? ==> Now() == old(Now()) && live == old(live)
    {
      id := 0;
      if r.key !in keys {
        return NotFound, id;
      }
      var pid := keys[r.key];
      var p := plugins[pid];
      if !p.state.Registered? && !p.state.InUse? {
        return PluginRetired, id;
      }
      if !(r.key in p.operators && p.linked) {
        return Internal, id;
      }
      AddReference(pid, r);
      assert plugins[pid] == WithReference(p, r);
      return Ok, pid;
    }

    /** Takes one reference off the plugin, which may leave a retiring plugin without any. */
    method DropReference(id: PluginId, r: Reference)
      requires Valid() && id in live && r in live[id]
      modifies this`plugins, this`live
      ensures Good(Now(), live, nextId) && Follows(old(Now()), Now()) && id in old(plugins)
      ensures plugins == old(plugins)[id := WithoutReference(old(plugins)[id], r)]
      ensures live == old(live)[id := old(live)[id] - multiset{r}]
      ensures Live(plugins[id])
      ensures plugins[id].operators == old(plugins)[id].operators && plugins[id].state == old(plugins)[id].state
      ensures plugins[id].count == 0 <==> live[id] == multiset{}
      ensures plugins[id].references == [] <==> live[id] == multiset{}
      ensures HeldBut(plugins, id)
      ensures !(plugins[id].state.Retiring? && live[id] == multiset{}) ==> RetiringHeld(plugins)
    {
      var q := WithoutReference(plugins[id], r);
      Released(plugins[id], live[id], r);
      Changed(Now(), live, nextId, id, q, live[id] - multiset{r});
      HeldAfter(plugins, id, q);
      plugins, live := plugins[id := q], live[id := live[id] - multiset{r}];
    }

    /** The lease of an operator instance ends; the last one unloads a retiring plugin. */
    method ReleaseLease(id: PluginId, r: Reference)
      requires Valid() && id in live && r in live[id]
      modifies this
      ensures Valid() && Follows(old(Now()), Now())
      ensures live == old(live)[id := old(live)[id] - multiset{r}]
      ensures id in old(plugins) && id in plugins
      ensures old(plugins)[id].state.Retiring? && live[id] == multiset{} ==>
                && plugins[id].state.LogicallyUnloaded? && generation == old(generation) + 1
                && keys == old(keys) - Keys(old(plugins)[id].operators)
      ensures !(old(plugins)[id].state.Retiring? && live[id] == multiset{}) ==>
                && keys == old(keys) && plugins[id].state == old(plugins)[id].state
                && generation == old(generation)
      ensures plugins == old(plugins)[id := old(plugins)[id].(
                state := plugins[id].state, references := plugins[id].references, count := plugins[id].count)]
    {
      DropReference(id, r);
      if plugins[id].state.Retiring? && plugins[id].count == 0 {
        ghost var mid := Now();
        Unload(id);
        FollowsTrans(old(Now()), mid, Now());
        SetTwice(old(plugins), id, mid.plugins[id], plugins[id]);
      }
    }
  }
}
