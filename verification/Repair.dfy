/** Detecting a broken installation, refusing to work on one, and repairing it. */
module Repair {
  import opened Strings
  import opened Stores
  import opened Transitions
  import opened Monitor
  import opened Services
  import opened Qan

  // ---------- disagreement ----------

  /** Names on which the catalog and the local services disagree. */
  function Disagreement(w: World, client: string): set<string> {
    var wanted := Wanted(w.Services(client));
    (wanted - w.units.Keys) + (w.units.Keys - wanted)
  }

  // ---------- CheckInstallation ----------

  /** Every element once. */
  predicate Distinct(list: seq<string>) {
    forall i, j | 0 <= i < j < |list| :: list[i] != list[j]
  }

  predicate IsOrphaned(w: World, client: string, s: string) {
    s in w.units && s !in Wanted(w.Services(client))
  }

  predicate IsMissing(w: World, client: string, id: string) {
    id in w.Services(client) && UnitOfService(w.Services(client)[id]) !in w.units
  }

  /** The first labelled loop: local services that no catalog service calls for. */
  method FindOrphaned(locals: seq<string>, ids: seq<string>, services: map<string,
                      Service>) returns (orphaned: seq<string>)
    requires Distinct(locals) && forall id :: id in ids <==> id in services
    ensures Distinct(orphaned)
    ensures forall s :: s in orphaned <==> s in locals && s !in Wanted(services)
  {
    hide UnitName;
    orphaned := [];
    label Locals:
    for i := 0 to |locals|
      invariant Distinct(orphaned)
      invariant forall s :: s in orphaned <==> s in locals[..i] && s !in Wanted(services)
    {
      for j := 0 to |ids|
        invariant forall id | id in ids[..j] :: UnitOfService(services[id]) != locals[i]
      {
        if locals[i] == UnitOfService(services[ids[j]]) { continue Locals; }
      }
      assert ids == ids[..|ids|];
      assert locals[i] !in orphaned;
      orphaned := orphaned + [locals[i]];
    }
    assert locals == locals[..|locals|];
  }

  /** The second: catalog services whose local service does not exist. */
  method FindMissing(locals: seq<string>, ids: seq<string>, services: map<string,
                     Service>) returns (missing: seq<string>)
    requires Distinct(ids) && forall id :: id in ids <==> id in services
    ensures Distinct(missing)
    ensures forall id :: id in missing <==> id in services && UnitOfService(services[id]) !in locals
  {
    hide UnitName;
    missing := [];
    label Remote:
    for i := 0 to |ids|
      invariant Distinct(missing)
      invariant forall id :: id in missing <==> id in ids[..i] && UnitOfService(services[id]) !in locals
    {
      for j := 0 to |locals|
        invariant UnitOfService(services[ids[i]]) !in locals[..j]
      {
        if locals[j] == UnitOfService(services[ids[i]]) { continue Remote; }
      }
      assert locals == locals[..|locals|];
      missing := missing + [ids[i]];
    }
    assert ids == ids[..|ids|];
  }

  /**
   * The two lists are exactly the two halves of the disagreement, unless the catalog could not be read:
   * then all local services count as orphaned.
   */
  method CheckInstallation(a: Admin) returns (orphaned: seq<string>, missing: seq<string>)
    modifies a`faults
    ensures a.faults >= old(a.faults)
    ensures Distinct(orphaned) && Distinct(missing)
    ensures forall s :: s in orphaned <==>
      if a.faults == old(a.faults) then IsOrphaned(a.State(), a.config.clientName, s) else s in a.units
    ensures forall id :: id in missing <==>
      a.faults == old(a.faults) && IsMissing(a.State(), a.config.clientName, id)
  {
    hide UnitOfService;
    var locals := Listing(a.units.Keys);
    var failed, node := a.ReadNode(a.config.clientName);
    if failed || node.None? || |node.value.services| == 0 {
      assert !failed ==> a.Services() == map[];
      return locals, [];
    }
    var services := node.value.services;
    var ids := Listing(services.Keys);
    orphaned := FindOrphaned(locals, ids, services);
    missing := FindMissing(locals, ids, services);
  }

  /** The lists are empty exactly when nothing disagrees. */
  lemma NoListsNoDisagreement(w: World, client: string)
    ensures (forall s :: !IsOrphaned(w, client, s)) && (forall id :: !IsMissing(w, client, id)) <==>
      Disagreement(w, client) == {}
  {
    hide UnitOfService;
    var services := w.Services(client);
    if forall id :: !IsMissing(w, client, id) {
      forall u | u in Wanted(services)
        ensures u in w.units
      {
        var id :| id in services && UnitOfService(services[id]) == u;
        assert !IsMissing(w, client, id);
      }
    }
    if Disagreement(w, client) == {} {
      forall id
        ensures !IsMissing(w, client, id)
      {
        if id in services {
          assert UnitOfService(services[id]) in Wanted(services);
        }
      }
    }
    if forall s :: !IsOrphaned(w, client, s) {
      forall s | s in w.units
        ensures s in Wanted(services)
      {
        assert !IsOrphaned(w, client, s);
      }
    }
  }

  /**
   * The check before every command that works on services. With the catalog readable it lets a command
   * through exactly when nothing disagrees; unreadable, exactly when there are no local services.
   */
  method Gate(a: Admin) returns (open: bool)
    modifies a`faults
    ensures a.faults >= old(a.faults)
    ensures open <==>
      if a.faults == old(a.faults) then Disagreement(a.State(), a.config.clientName) == {} else a.units == map[]
  {
    hide Disagreement, IsOrphaned, IsMissing;
    var orphaned, missing := CheckInstallation(a);
    NoListsNoDisagreement(a.State(), a.config.clientName);
    open := |orphaned| == 0 && |missing| == 0;
    EmptyList(orphaned);
    EmptyList(missing);
  }

  lemma EmptyList(list: seq<string>)
    ensures |list| == 0 <==> forall s :: s !in list
  {
    if |list| > 0 {
      assert list[0] in list;
    }
  }

  // ---------- RepairInstallation ----------

  predicate IsUuidKey(key: string) {
    HasSuffix(key, "/qan_mysql_uuid") || HasSuffix(key, "/qan_mongodb_uuid")
  }

  /** A UUID stored below a prefix under one of the two names repair looks for. */
  ghost predicate UuidBelow(kv: map<string, string>, prefix: string, u: string) {
    exists key | key in kv :: prefix <= key && IsUuidKey(key) && kv[key] == u
  }

  /** An instance is as it was, or deleted for a reason. */
  predicate SameOrDeleted(was: map<string, Instance>, now: map<string, Instance>, u: string)
    requires u in was && u in now
  {
    now[u] == was[u] || now[u] == was[u].(deleted := true)
  }

  ghost predicate Forgotten(was: map<string, Instance>, now: map<string, Instance>, kv: map<string, string>,
                            prefix: string) {
    && now.Keys == was.Keys
    && forall u | u in was :: SameOrDeleted(was, now, u) && (now[u] != was[u] ==> UuidBelow(kv, prefix, u))
  }

  /** Exactly the instances whose UUIDs are stored below the prefix are deleted. */
  ghost predicate AllForgotten(was: map<string, Instance>, now: map<string, Instance>, kv: map<string, string>,
                               prefix: string) {
    && now.Keys == was.Keys
    && forall u | u in was :: now[u] == if UuidBelow(kv, prefix, u) then was[u].(deleted := true) else was[u]
  }

  /** One of these keys stores the UUID. */
  predicate UuidAmong(kv: map<string, string>, keys: seq<string>, u: string) {
    exists key | key in keys :: IsUuidKey(key) && key in kv && kv[key] == u
  }

  /** The loop, a few keys on: exactly the instances whose UUIDs they store are deleted. */
  ghost predicate ForgottenSoFar(was: map<string, Instance>, now: map<string, Instance>, kv: map<string, string>,
                                 keys: seq<string>) {
    && now.Keys == was.Keys
    && forall u | u in was :: now[u] == if UuidAmong(kv, keys, u) then was[u].(deleted := true) else was[u]
  }

  lemma NothingForgotten(was: map<string, Instance>, kv: map<string, string>)
    ensures ForgottenSoFar(was, was, kv, [])
  {
  }

  lemma UuidAmongMore(kv: map<string, string>, keys: seq<string>, i: nat, u: string)
    requires i < |keys| && keys[i] in kv
    ensures UuidAmong(kv, keys[..i + 1], u) <==>
      UuidAmong(kv, keys[..i], u) || (IsUuidKey(keys[i]) && kv[keys[i]] == u)
  {
    hide IsUuidKey;
    assert keys[..i + 1] == keys[..i] + [keys[i]] && keys[i] in keys[..i + 1];
  }

  lemma OneMoreForgotten(was: map<string, Instance>, mid: map<string, Instance>, now: map<string, Instance>,
                         kv: map<string, string>, keys: seq<string>, i: nat)
    requires i < |keys| && keys[i] in kv && ForgottenSoFar(was, mid, kv, keys[..i])
    requires now == if IsUuidKey(keys[i]) then MarkedDeleted(mid, kv[keys[i]]) else mid
    ensures ForgottenSoFar(was, now, kv, keys[..i + 1])
  {
    hide IsUuidKey, UuidAmong;
    forall u | u in was
      ensures now[u] == if UuidAmong(kv, keys[..i + 1], u) then was[u].(deleted := true) else was[u]
    {
      UuidAmongMore(kv, keys, i, u);
    }
  }

  lemma WholeListForgotten(was: map<string, Instance>, now: map<string, Instance>, kv: map<string, string>,
                           keys: seq<string>, prefix: string)
    requires forall key :: key in keys <==> key in kv && prefix <= key
    requires ForgottenSoFar(was, now, kv, keys)
    ensures AllForgotten(was, now, kv, prefix)
  {
    hide IsUuidKey;
    forall u
      ensures UuidAmong(kv, keys, u) <==> UuidBelow(kv, prefix, u)
    {
    }
  }

  /** Deleting the instances of a service that goes away; every failure here is ignored. */
  method ForgetInstances(a: Admin, prefix: string)
    modifies a`instances, a`faults
    ensures a.faults >= old(a.faults)
    ensures Forgotten(old(a.instances), a.instances, a.kv, prefix)
    ensures a.faults == old(a.faults) ==> AllForgotten(old(a.instances), a.instances, a.kv, prefix)
  {
    hide IsUuidKey, ForgottenSoFar, AllForgotten, MarkedDeleted;
    ghost var was := a.instances;
    NothingForgotten(was, a.kv);
    var failed, names := a.Keys(prefix);
    if !failed {
      for i := 0 to |names|
        invariant a.faults >= old(a.faults)
        invariant Forgotten(was, a.instances, a.kv, prefix)
        invariant a.faults == old(a.faults) ==> ForgottenSoFar(was, a.instances, a.kv, names[..i])
      {
        ghost var mid, faults := a.instances, a.faults;
        assert names[i] in names;
        if IsUuidKey(names[i]) {
          var failed, value := a.Get(names[i]);
          if !failed && value.Some? {
            assert UuidBelow(a.kv, prefix, value.value);
            var r := DeleteInstance(a, value.value);
            UnknownInstance(mid, value.value);
            OneMoreGone(was, mid, a.kv, prefix, value.value);
          }
        }
        if a.faults == old(a.faults) {
          OneMoreForgotten(was, mid, a.instances, a.kv, names, i);
        }
      }
      assert names[..|names|] == names;
      if a.faults == old(a.faults) {
        WholeListForgotten(was, a.instances, a.kv, names, prefix);
      }
    }
  }

  /** There is nothing to delete for a UUID that the server does not know. */
  lemma UnknownInstance(instances: map<string, Instance>, u: string)
    ensures u !in instances ==> MarkedDeleted(instances, u) == instances
  {
  }

  lemma OneMoreGone(was: map<string, Instance>, mid: map<string, Instance>, kv: map<string, string>, prefix: string,
                    u: string)
    requires Forgotten(was, mid, kv, prefix) && UuidBelow(kv, prefix, u)
    ensures Forgotten(was, MarkedDeleted(mid, u), kv, prefix)
  {
    hide UuidBelow;
  }

  /** The services that are kept: those whose local service exists. */
  function Matched(w: World, client: string): map<string, Service> {
    map id | id in w.Services(client) && UnitOfService(w.Services(client)[id]) in w.units :: w.Services(client)[id]
  }

  /** The local services that are kept: those the catalog calls for. */
  function WantedUnits(w: World, client: string): map<string, bool> {
    map u | u in w.units && u in Wanted(w.Services(client)) :: w.units[u]
  }

  predicate UnderMissing(w: World, client: string, key: string) {
    exists id | id in w.Services(client) :: IsMissing(w, client, id) && Dir(client, id) <= key
  }

  /** Keys outside the missing services' directories are kept. */
  ghost predicate KeysKept(was: World, now: World, client: string) {
    && (forall key | key in now.kv :: key in was.kv && now.kv[key] == was.kv[key])
    && (forall key | key in was.kv && key !in now.kv :: UnderMissing(was, client, key))
  }

  /** The UUID is stored under a missing service. */
  predicate UuidUnderMissing(w: World, client: string, u: string) {
    exists key | key in w.kv :: UnderMissing(w, client, key) && IsUuidKey(key) && w.kv[key] == u
  }

  /** An instance is deleted only for a UUID stored under a missing service. */
  ghost predicate InstancesKept(was: World, now: World, client: string) {
    && now.instances.Keys == was.instances.Keys
    && forall u | u in was.instances :: SameOrDeleted(was.instances, now.instances, u) &&
         (now.instances[u] != was.instances[u] ==> UuidUnderMissing(was, client, u))
  }

  /** Other clients are left alone, and so are the agent's files. */
  predicate OtherNodesKept(was: World, now: World, client: string) {
    now.catalog - {client} == was.catalog - {client} && now.files == was.files
  }

  /** Both sides are cut down to what they have in common; nothing else is touched. */
  ghost predicate Repaired(was: World, now: World, client: string) {
    && now.Services(client) == Matched(was, client)
    && now.units == WantedUnits(was, client)
    && OtherNodesKept(was, now, client) && KeysKept(was, now, client) && InstancesKept(was, now, client)
  }

  /** Nothing was left out: with the missing services all their keys are gone, and their instances are deleted. */
  ghost predicate FullyRepaired(was: World, now: World, client: string) {
    && Repaired(was, now, client)
    && (forall key | key in was.kv :: key in now.kv <==> !UnderMissing(was, client, key))
    && forall u | u in was.instances :: now.instances[u] ==
         if UuidUnderMissing(was, client, u) then was.instances[u].(deleted := true) else was.instances[u]
  }

  /** A repair that stopped: some of what disagreed is gone, everything that agreed is still there. */
  ghost predicate PartlyRepaired(was: World, now: World, client: string) {
    && (forall u | u in WantedUnits(was, client) :: u in now.units && now.units[u] == was.units[u])
    && now.units.Keys <= was.units.Keys
    && (forall id | id in Matched(was, client) :: id in now.Services(client))
    && (forall id | id in now.Services(client) ::
          id in was.Services(client) && now.Services(client)[id] == was.Services(client)[id])
    && (now.Services(client) != was.Services(client) ==> now.units == WantedUnits(was, client))
    && OtherNodesKept(was, now, client) && KeysKept(was, now, client) && InstancesKept(was, now, client)
  }

  /** After a repair nothing disagrees, and every pair that matched before still does. */
  lemma RepairedAgrees(was: World, now: World, client: string)
    requires Repaired(was, now, client)
    ensures Disagreement(now, client) == {}
    ensures forall id | id in was.Services(client) && UnitOfService(was.Services(client)[id]) in was.units ::
      id in now.Services(client) && now.Services(client)[id] == was.Services(client)[id] &&
      UnitOfService(was.Services(client)[id]) in now.units &&
      now.units[UnitOfService(was.Services(client)[id])] == was.units[UnitOfService(was.Services(client)[id])]
  {
    hide UnitOfService, KeysKept, InstancesKept, OtherNodesKept;
    var before, after := was.Services(client), now.Services(client);
    forall u | u in Wanted(after)
      ensures u in now.units
    {
      var id :| id in after && UnitOfService(after[id]) == u;
      assert before[id] == after[id];
    }
    forall u | u in now.units
      ensures u in Wanted(after)
    {
      var id :| id in before && UnitOfService(before[id]) == u;
      assert id in after;
    }
    forall id | id in before && UnitOfService(before[id]) in was.units
      ensures UnitOfService(before[id]) in Wanted(before)
    {
    }
  }

  /** Where nothing disagrees a repair changes nothing at all. */
  lemma SecondRepair(was: World, now: World, client: string)
    requires Repaired(was, now, client) && Disagreement(was, client) == {}
    ensures now.Services(client) == was.Services(client) && now.units == was.units
    ensures now.kv == was.kv && now.instances == was.instances
  {
    hide UnitOfService, IsUuidKey;
    var services := was.Services(client);
    forall id | id in services
      ensures UnitOfService(services[id]) in was.units
    {
      assert UnitOfService(services[id]) in Wanted(services);
    }
    assert forall id :: !IsMissing(was, client, id);
    assert forall key :: !UnderMissing(was, client, key);
    forall u | u in was.instances
      ensures now.instances[u] == was.instances[u]
    {
      assert SameOrDeleted(was.instances, now.instances, u);
    }
  }

  /** A repair that stops part way leaves no more disagreement than there was. */
  lemma PartlyRepairedShrinks(was: World, now: World, client: string)
    requires PartlyRepaired(was, now, client)
    ensures Disagreement(now, client) <= Disagreement(was, client)
  {
    hide UnitOfService, KeysKept, InstancesKept, OtherNodesKept;
    var before, after := was.Services(client), now.Services(client);
    forall u | u in Wanted(before) && u in was.units
      ensures u in Wanted(after) && u in now.units
    {
      var id :| id in before && UnitOfService(before[id]) == u;
      assert id in Matched(was, client);
      assert u in WantedUnits(was, client);
    }
    forall u | u in Wanted(after)
      ensures u in Wanted(before)
    {
      var id :| id in after && UnitOfService(after[id]) == u;
      assert id in before;
    }
  }

  /** Repair after some of the missing services are dropped. */
  ghost predicate Progress(was: World, now: World, client: string, dropped: seq<string>) {
    && now.Services(client) == was.Services(client) - (set id | id in dropped)
    && now.units == WantedUnits(was, client)
    && OtherNodesKept(was, now, client) && KeysKept(was, now, client) && InstancesKept(was, now, client)
  }

  /** One missing service goes: out of the catalog, with its instances and its keys as far as possible. */
  method DropService(a: Admin, id: string) returns (r: Outcome)
    modifies a`catalog, a`kv, a`instances, a`faults
    ensures a.faults >= old(a.faults)
    ensures r.Err? ==> a.State() == old(a.State()) && a.faults > old(a.faults)
    ensures r.Ok? ==> a.catalog == WithoutService(old(a.catalog), a.config.clientName, id)
    ensures
      var prefix := Dir(a.config.clientName, id);
      && (a.kv == old(a.kv) || a.kv == DeleteTree(old(a.kv), prefix))
      && Forgotten(old(a.instances), a.instances, old(a.kv), prefix)
      && (a.faults == old(a.faults) ==>
            && r.Ok? && a.kv == DeleteTree(old(a.kv), prefix)
            && AllForgotten(old(a.instances), a.instances, old(a.kv), prefix))
  {
    hide WithoutService, Dir, DeleteTree, UuidBelow;
    var failed := a.Deregister(a.config.clientName, id);
    if failed { return Err(Failed); }
    var prefix := Dir(a.config.clientName, id);
    ForgetInstances(a, prefix);
    failed := a.DeleteSubtree(prefix);
    return Ok;
  }

  lemma DropKeepsKeys(was: World, mid: World, now: World, client: string, id: string)
    requires KeysKept(was, mid, client) && InstancesKept(was, mid, client) && IsMissing(was, client, id)
    requires now.kv == mid.kv || now.kv == DeleteTree(mid.kv, Dir(client, id))
    requires Forgotten(mid.instances, now.instances, mid.kv, Dir(client, id))
    ensures KeysKept(was, now, client) && InstancesKept(was, now, client)
  {
    hide IsUuidKey, IsMissing, Dir;
    forall key | key in was.kv && Dir(client, id) <= key
      ensures UnderMissing(was, client, key)
    {
      assert id in was.Services(client) by { MissingIsService(was, client, id); }
    }
    forall u | u in was.instances
      ensures SameOrDeleted(was.instances, now.instances, u)
      ensures now.instances[u] != was.instances[u] ==> UuidUnderMissing(was, client, u)
    {
      assert SameOrDeleted(was.instances, mid.instances, u) && SameOrDeleted(mid.instances, now.instances, u);
      if now.instances[u] != mid.instances[u] {
        var key :| key in mid.kv && Dir(client, id) <= key && IsUuidKey(key) && mid.kv[key] == u;
        assert key in was.kv && UnderMissing(was, client, key);
      }
    }
  }

  lemma MissingIsService(w: World, client: string, id: string)
    requires IsMissing(w, client, id)
    ensures id in w.Services(client)
  {
  }

  lemma DropProgress(was: World, mid: World, now: World, client: string, dropped: seq<string>, id: string)
    requires Progress(was, mid, client, dropped) && IsMissing(was, client, id)
    requires now.catalog == WithoutService(mid.catalog, client, id) && now.units == mid.units && now.files == mid.files
    requires now.kv == mid.kv || now.kv == DeleteTree(mid.kv, Dir(client, id))
    requires Forgotten(mid.instances, now.instances, mid.kv, Dir(client, id))
    ensures Progress(was, now, client, dropped + [id])
  {
    DropKeepsKeys(was, mid, now, client, id);
    hide KeysKept, InstancesKept, DeleteTree, Dir, Forgotten, UnitOfService, IsMissing;
    assert now.Services(client) == mid.Services(client) - {id};
    assert now.catalog - {client} == mid.catalog - {client};
  }

  /** Repair after some of the missing services are dropped without a failure. */
  ghost predicate FullProgress(was: World, now: World, client: string, dropped: seq<string>) {
    && (forall key | key in was.kv :: key in now.kv <==> !BelowOneOf(client, dropped, key))
    && (forall key | key in now.kv :: key in was.kv && now.kv[key] == was.kv[key])
    && now.instances.Keys == was.instances.Keys
    && forall u | u in was.instances :: now.instances[u] ==
         if UuidBelowOneOf(was.kv, client, dropped, u) then was.instances[u].(deleted := true) else was.instances[u]
  }

  predicate BelowOneOf(client: string, ids: seq<string>, key: string) {
    exists id | id in ids :: Dir(client, id) <= key
  }

  predicate UuidBelowOneOf(kv: map<string, string>, client: string, ids: seq<string>, u: string) {
    exists key | key in kv :: BelowOneOf(client, ids, key) && IsUuidKey(key) && kv[key] == u
  }

  lemma BelowOneMore(client: string, ids: seq<string>, id: string, key: string)
    ensures BelowOneOf(client, ids + [id], key) <==> BelowOneOf(client, ids, key) || Dir(client, id) <= key
  {
    hide Dir;
    assert (ids + [id])[|ids|] == id;
    if BelowOneOf(client, ids, key) {
      var i :| i in ids && Dir(client, i) <= key;
      assert i in ids + [id];
    }
  }

  /** A key that is gone already was below a service dropped before, and so its UUID is dealt with. */
  lemma UuidBelowOneMore(was: World, mid: World, client: string, ids: seq<string>, id: string, u: string)
    requires FullProgress(was, mid, client, ids)
    ensures UuidBelowOneOf(was.kv, client, ids + [id], u) <==>
      UuidBelowOneOf(was.kv, client, ids, u) || UuidBelow(mid.kv, Dir(client, id), u)
  {
    hide IsUuidKey, Dir, BelowOneOf;
    if UuidBelowOneOf(was.kv, client, ids + [id], u) {
      var key :| key in was.kv && BelowOneOf(client, ids + [id], key) && IsUuidKey(key) && was.kv[key] == u;
      BelowOneMore(client, ids, id, key);
    }
    if UuidBelowOneOf(was.kv, client, ids, u) {
      var key :| key in was.kv && BelowOneOf(client, ids, key) && IsUuidKey(key) && was.kv[key] == u;
      BelowOneMore(client, ids, id, key);
    }
    if UuidBelow(mid.kv, Dir(client, id), u) {
      var key :| key in mid.kv && Dir(client, id) <= key && IsUuidKey(key) && mid.kv[key] == u;
      BelowOneMore(client, ids, id, key);
    }
  }

  lemma DropFullProgress(was: World, mid: World, now: World, client: string, dropped: seq<string>, id: string)
    requires FullProgress(was, mid, client, dropped)
    requires now.kv == DeleteTree(mid.kv, Dir(client, id))
    requires AllForgotten(mid.instances, now.instances, mid.kv, Dir(client, id))
    ensures FullProgress(was, now, client, dropped + [id])
  {
    hide Dir, BelowOneOf, UuidBelowOneOf, UuidBelow;
    forall key | key in was.kv
      ensures key in now.kv <==> !BelowOneOf(client, dropped + [id], key)
    {
      BelowOneMore(client, dropped, id, key);
    }
    forall u | u in was.instances
      ensures now.instances[u] ==
        if UuidBelowOneOf(was.kv, client, dropped + [id], u) then was.instances[u].(deleted := true)
        else was.instances[u]
    {
      UuidBelowOneMore(was, mid, client, dropped, id, u);
    }
  }

  lemma NothingFullyDropped(was: World, now: World, client: string)
    requires now.kv == was.kv && now.instances == was.instances
    ensures FullProgress(was, now, client, [])
  {
  }

  lemma AllFullyDropped(was: World, now: World, client: string, missing: seq<string>)
    requires Repaired(was, now, client) && FullProgress(was, now, client, missing)
    requires forall id :: id in missing <==> IsMissing(was, client, id)
    ensures FullyRepaired(was, now, client)
  {
    hide Repaired, IsMissing, Dir, IsUuidKey;
    forall key
      ensures BelowOneOf(client, missing, key) <==> UnderMissing(was, client, key)
    {
      if BelowOneOf(client, missing, key) {
        var id :| id in missing && Dir(client, id) <= key;
        MissingIsService(was, client, id);
      }
    }
    hide UnderMissing, BelowOneOf;
    forall u
      ensures UuidBelowOneOf(was.kv, client, missing, u) <==> UuidUnderMissing(was, client, u)
    {
    }
  }

  lemma NothingDropped(was: World, now: World, client: string)
    requires now == was.(units := WantedUnits(was, client))
    ensures Progress(was, now, client, [])
  {
  }

  lemma AllDropped(was: World, now: World, client: string, missing: seq<string>)
    requires Progress(was, now, client, missing)
    requires forall id :: id in missing <==> IsMissing(was, client, id)
    ensures Repaired(was, now, client)
  {
    hide KeysKept, InstancesKept, OtherNodesKept, UnitOfService;
  }

  lemma SomeDropped(was: World, now: World, client: string, dropped: seq<string>)
    requires Progress(was, now, client, dropped)
    requires forall id | id in dropped :: IsMissing(was, client, id)
    ensures PartlyRepaired(was, now, client)
  {
    hide KeysKept, InstancesKept, OtherNodesKept, UnitOfService;
  }

  /** The local half: orphaned services are uninstalled one after the other. */
  method UninstallAll(a: Admin, list: seq<string>) returns (r: Outcome)
    requires Distinct(list) && forall s | s in list :: s in a.units
    modifies a`units, a`faults
    ensures a.faults >= old(a.faults)
    ensures r.Ok? <==> a.faults == old(a.faults)
    ensures r.Ok? ==> a.units == old(a.units) - (set s | s in list)
    ensures a.units.Keys <= old(a.units).Keys
    ensures forall u | u in old(a.units) && u !in list :: u in a.units && a.units[u] == old(a.units)[u]
  {
    for i := 0 to |list|
      invariant a.faults == old(a.faults)
      invariant a.units == old(a.units) - (set s | s in list[..i])
    {
      assert list[i] in list && list[i] !in list[..i];
      var gone;
      ghost var answered, stopped;
      gone, answered, stopped := UninstallService(a, list[i]);
      if gone.Err? { return gone; }
    }
    assert list == list[..|list|];
    return Ok;
  }

  lemma OrphansGone(was: World, now: World, client: string, orphaned: seq<string>)
    requires forall s :: s in orphaned <==> IsOrphaned(was, client, s)
    requires now == was.(units := now.units)
    ensures now.units == was.units - (set s | s in orphaned) ==> now == was.(units := WantedUnits(was, client))
    ensures
      var kept := forall u | u in was.units && u !in orphaned :: u in now.units && now.units[u] == was.units[u];
      now.units.Keys <= was.units.Keys && kept ==> PartlyRepaired(was, now, client)
  {
    hide UnitOfService;
    if now.units == was.units - (set s | s in orphaned) {
      assert now.units == WantedUnits(was, client);
    }
  }

  /**
   * From any state, reachable or not: with the catalog readable, success means both sides are cut down to
   * what they have in common, and a failure leaves part of that done. Without it, every local service is
   * taken for orphaned and uninstalled while the catalog is left alone.
   */
  method RepairInstallation(a: Admin) returns (r: Outcome, ghost readable: bool)
    modifies a`catalog, a`kv, a`units, a`instances, a`faults
    ensures a.faults >= old(a.faults)
    ensures a.faults == old(a.faults) ==> r.Ok? && readable
    ensures readable && r.Ok? ==> Repaired(old(a.State()), a.State(), a.config.clientName)
    ensures readable && r.Err? ==> PartlyRepaired(old(a.State()), a.State(), a.config.clientName)
    ensures a.faults == old(a.faults) ==> FullyRepaired(old(a.State()), a.State(), a.config.clientName)
    ensures !readable ==> a.State() == old(a.State()).(units := a.units) && (r.Ok? ==> a.units == map[])
    ensures a.units.Keys <= old(a.units).Keys
  {
    hide UnitOfService, Repaired, PartlyRepaired, FullyRepaired, WithoutService, DeleteTree, Dir, Forgotten,
      AllForgotten, IsOrphaned, IsMissing, Wanted, Progress, FullProgress;
    ghost var was, client := a.State(), a.config.clientName;
    var orphaned, missing := CheckInstallation(a);
    readable := a.faults == old(a.faults);
    assert forall s | s in orphaned :: s in a.units by { OrphansAreLocal(was, client); }
    r := UninstallAll(a, orphaned);
    if readable {
      OrphansGone(was, a.State(), client, orphaned);
    }
    if r.Err? { return; }
    EmptyList(missing);
    ghost var units := a.units;
    if readable {
      NothingDropped(was, a.State(), client);
      NothingFullyDropped(was, a.State(), client);
    }
    for i := 0 to |missing|
      invariant a.faults >= old(a.faults) && a.units == units
      invariant readable ==> Progress(was, a.State(), client, missing[..i])
      invariant !readable ==>
        |missing| == 0 && a.faults > old(a.faults) && a.State() == was.(units := a.units) && a.units == map[]
      invariant a.faults == old(a.faults) ==> FullProgress(was, a.State(), client, missing[..i])
    {
      ghost var mid := a.State();
      r := DropService(a, missing[i]);
      if r.Err? {
        SomeDropped(was, a.State(), client, missing[..i]);
        return;
      }
      assert missing[i] in missing;
      DropProgress(was, mid, a.State(), client, missing[..i], missing[i]);
      assert missing[..i + 1] == missing[..i] + [missing[i]];
      if a.faults == old(a.faults) {
        DropFullProgress(was, mid, a.State(), client, missing[..i], missing[i]);
      }
    }
    assert missing == missing[..|missing|];
    if readable {
      AllDropped(was, a.State(), client, missing);
    }
    if a.faults == old(a.faults) {
      AllFullyDropped(was, a.State(), client, missing);
    }
    r := Ok;
  }

  lemma OrphansAreLocal(w: World, client: string)
    ensures forall s | IsOrphaned(w, client, s) :: s in w.units
  {
  }
}
