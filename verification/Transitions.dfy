/**
 * What each registry command makes of the stores when none of its calls fails, and the proof that
 * on the registry this is one insertion or one deletion.
 */
module Transitions {
  import opened Stores
  import opened Registry

  // ---------- the commands on the stores ----------

  function ExporterService(k: Key, e: Entry): Service
    requires e.Exporter?
  {
    Service(k.kind, [AliasTag(k.alias)] + e.extra, e.port)
  }

  function AddedMetrics(w: World, client: string, address: string, k: Key, e: Entry): World
    requires e.Exporter?
  {
    var id := ServiceID(k.kind, e.port);
    w.Register(client, address, id, ExporterService(k, e))
     .(kv := w.kv + Below(Dir(client, id), e.data), units := w.units[UnitName(k.kind, e.port) := true])
  }

  function RemovedMetrics(w: World, client: string, id: string, kind: string, port: int): World {
    w.Deregister(client, id)
     .(kv := DeleteTree(w.kv, Dir(client, id)), units := w.units - {UnitName(kind, port)})
  }

  /** The tags a queries service has after one more alias is added to those it had. */
  function TagsWith(tags: seq<string>, alias: string): seq<string> { tags + [AliasTag(alias)] }

  function AddedQueries(w: World, client: string, address: string, k: Key, port: int, tags: seq<string>,
                        dsn: string, uuid: string, instances: map<string, Instance>): World
  {
    var id := ServiceID(k.kind, port);
    var dir := Dir(client, id);
    w.Register(client, address, id, Service(k.kind, TagsWith(tags, k.alias), port))
     .(kv := w.kv[dir + DsnSub(k.alias) := dsn][dir + UuidSub(k.alias, NameOf(k.kind)) := uuid],
       units := w.units[UnitName(k.kind, port) := true],
       instances := instances)
  }

  /** The alias tags that remain when one alias is taken out; every other tag is dropped as well. */
  function OtherAliases(tags: seq<string>, alias: string): seq<string> {
    if tags == [] then []
    else
      var last := tags[|tags| - 1];
      OtherAliases(tags[..|tags| - 1], alias) +
      if IsAliasTag(last) && last != AliasTag(alias) then [last] else []
  }

  function MarkedDeleted(instances: map<string, Instance>, uuid: string): map<string, Instance> {
    if uuid in instances then instances[uuid := instances[uuid].(deleted := true)] else instances
  }

  function RemovedQueries(w: World, client: string, address: string, id: string, svc: Service, alias: string,
                          uuid: string): World
  {
    var tags := OtherAliases(svc.tags, alias);
    var unit := UnitName(svc.kind, svc.port);
    var w1 := w.(kv := DeleteTree(w.kv, Dir(client, id) + alias + "/"),
                 instances := MarkedDeleted(w.instances, uuid));
    if tags == []
    then w1.Deregister(client, id).(units := w.units - {unit})
    else w1.Register(client, address, id, svc.(tags := tags)).(units := w.units[unit := true])
  }

  // ---------- catalog ----------

  /** Registering a service that carries k beside everything its ID carried before. */
  lemma CatalogPut(services: map<string, Service>, reg: Registry, id: string, svc: Service, k: Key, e: Entry)
    requires CatalogAgrees(services, reg) && k !in reg && id == IdOf(k, e)
    requires Carries(svc, k, e) && HasAliases(svc)
    requires forall k' | k' in reg && IdOf(k', reg[k']) == id :: Carries(svc, k', reg[k'])
    requires forall t | t in svc.tags && IsAliasTag(t) :: AliasOf(t) == k.alias || Accounted(reg, id, svc, t)
    ensures CatalogAgrees(services[id := svc], reg[k := e])
  {
    hide ServiceID, AliasTag, IsAliasTag, AliasOf, HasAliases;
    var services', reg' := services[id := svc], reg[k := e];
    forall k' | k' in reg'
      ensures Served(services', k', reg'[k'])
    {
      if k' != k {
        assert Served(services, k', reg[k']);
      }
    }
    forall id' | id' in services'
      ensures Backed(reg', id', services'[id'])
    {
      if id' != id {
        assert Backed(reg, id', services[id']);
      }
    }
  }

  /** Deregistering the service of an entry that no other entry shares. */
  lemma CatalogDrop(services: map<string, Service>, reg: Registry, k: Key)
    requires CatalogAgrees(services, reg) && k in reg
    requires forall k' | k' in reg && k' != k :: IdOf(k', reg[k']) != IdOf(k, reg[k])
    ensures CatalogAgrees(services - {IdOf(k, reg[k])}, reg - {k})
  {
    hide ServiceID, AliasTag, IsAliasTag, AliasOf, HasAliases;
    var id := IdOf(k, reg[k]);
    var services', reg' := services - {id}, reg - {k};
    forall k' | k' in reg'
      ensures Served(services', k', reg'[k'])
    {
      assert Served(services, k', reg[k']);
    }
    forall id' | id' in services'
      ensures Backed(reg', id', services'[id'])
    {
      assert Backed(reg, id', services[id']);
    }
  }

  /** The same service without the alias tag of k. */
  ghost predicate Without(svc: Service, was: Service, k: Key) {
    && svc.kind == was.kind && svc.port == was.port && HasAliases(svc)
    && forall t | IsAliasTag(t) :: t in svc.tags <==> t in was.tags && AliasOf(t) != k.alias
  }

  lemma StillCarries(svc: Service, was: Service, k: Key, k': Key, e: Entry)
    requires Without(svc, was, k) && Carries(was, k', e)
    requires e.Source? && k'.kind == k.kind && k' != k
    ensures Carries(svc, k', e)
  {
    AliasTagInverse(k'.alias);
  }

  /** Taking one alias off a service that has others. */
  lemma CatalogShrink(services: map<string, Service>, reg: Registry, k: Key, svc: Service)
    requires CatalogAgrees(services, reg) && k in reg
    requires Without(svc, services[IdOf(k, reg[k])], k)
    requires forall k' | k' in reg && IdOf(k', reg[k']) == IdOf(k, reg[k]) :: reg[k'].Source? && k'.kind == k.kind
    ensures CatalogAgrees(services[IdOf(k, reg[k]) := svc], reg - {k})
  {
    hide ServiceID, AliasTag, IsAliasTag, AliasOf, HasAliases, Carries;
    var id := IdOf(k, reg[k]);
    var services', reg' := services[id := svc], reg - {k};
    assert Served(services, k, reg[k]);
    forall k' | k' in reg'
      ensures Served(services', k', reg'[k'])
    {
      assert Served(services, k', reg[k']);
      if IdOf(k', reg[k']) == id {
        StillCarries(svc, services[id], k, k', reg[k']);
      }
    }
    forall id' | id' in services'
      ensures Backed(reg', id', services'[id'])
    {
      assert Backed(reg, id', services[id']);
    }
  }

  // ---------- local services ----------

  lemma UnitsPut(units: map<string, bool>, reg: Registry, k: Key, e: Entry, running: bool)
    requires UnitsAgree(units, reg) && k !in reg
    ensures UnitsAgree(units[UnitOf(k, e) := running], reg[k := e])
  {
    hide UnitName;
    var units', reg' := units[UnitOf(k, e) := running], reg[k := e];
    forall u | u in units'
      ensures exists k' :: IsUnitOf(u, k', reg')
    {
      if u == UnitOf(k, e) {
        assert IsUnitOf(u, k, reg');
      } else {
        var k' :| IsUnitOf(u, k', reg);
        assert IsUnitOf(u, k', reg');
      }
    }
  }

  lemma UnitsDrop(units: map<string, bool>, reg: Registry, k: Key)
    requires UnitsAgree(units, reg) && k in reg
    requires forall k' | k' in reg && k' != k :: UnitOf(k', reg[k']) != UnitOf(k, reg[k])
    ensures UnitsAgree(units - {UnitOf(k, reg[k])}, reg - {k})
  {
    hide UnitName;
    var units' := units - {UnitOf(k, reg[k])};
    forall u | u in units'
      ensures exists k' :: IsUnitOf(u, k', reg - {k})
    {
      var k' :| IsUnitOf(u, k', reg);
      assert IsUnitOf(u, k', reg - {k});
    }
  }

  /** An entry whose local service another entry uses too can go without it. */
  lemma UnitsShared(units: map<string, bool>, reg: Registry, k: Key, k2: Key, running: bool)
    requires UnitsAgree(units, reg) && k in reg && k2 in reg && k2 != k
    requires UnitOf(k, reg[k]) == UnitOf(k2, reg[k2])
    ensures UnitsAgree(units[UnitOf(k, reg[k]) := running], reg - {k})
  {
    hide UnitName;
    var units' := units[UnitOf(k, reg[k]) := running];
    forall u | u in units'
      ensures exists k' :: IsUnitOf(u, k', reg - {k})
    {
      var k' :| IsUnitOf(u, k', reg);
      assert IsUnitOf(u, if k' == k then k2 else k', reg - {k});
    }
  }

  // ---------- key-value tree ----------

  lemma KeysPut(kv: map<string, string>, client: string, reg: Registry, k: Key, e: Entry)
    requires KeysAgree(kv, client, reg) && k !in reg
    requires forall key, k' | IsKeyOf(client, key, k', reg) :: key !in Below(Dir(client, IdOf(k, e)), DataOf(k, e))
    ensures KeysAgree(kv + Below(Dir(client, IdOf(k, e)), DataOf(k, e)), client, reg[k := e])
  {
    hide ServiceID;
    var dir := Dir(client, IdOf(k, e));
    var fresh' := Below(dir, DataOf(k, e));
    var kv', reg' := kv + fresh', reg[k := e];
    forall key, k' | IsKeyOf(client, key, k', reg')
      ensures key in kv' && kv'[key] == ValueAt(client, key, k', reg')
    {
      BelowFacts(dir, DataOf(k, e), key);
      if k' != k {
        assert IsKeyOf(client, key, k', reg);
      }
    }
    forall key | key in kv' && client + "/" <= key
      ensures exists k' :: IsKeyOf(client, key, k', reg')
    {
      BelowFacts(dir, DataOf(k, e), key);
      if key in fresh' {
        assert IsKeyOf(client, key, k, reg');
      } else {
        var k' :| IsKeyOf(client, key, k', reg);
        assert IsKeyOf(client, key, k', reg');
      }
    }
  }

  /** Deleting a subtree that contains the keys of k and of nothing else. */
  lemma KeysDrop(kv: map<string, string>, client: string, reg: Registry, k: Key, prefix: string)
    requires KeysAgree(kv, client, reg) && k in reg
    requires forall key, k' | IsKeyOf(client, key, k', reg) :: prefix <= key <==> k' == k
    ensures KeysAgree(DeleteTree(kv, prefix), client, reg - {k})
  {
    var kv', reg' := DeleteTree(kv, prefix), reg - {k};
    forall key, k' | IsKeyOf(client, key, k', reg')
      ensures key in kv' && kv'[key] == ValueAt(client, key, k', reg')
    {
      assert IsKeyOf(client, key, k', reg);
    }
    forall key | key in kv' && client + "/" <= key
      ensures exists k' :: IsKeyOf(client, key, k', reg')
    {
      var k' :| IsKeyOf(client, key, k', reg);
      assert IsKeyOf(client, key, k', reg');
    }
  }

  // ---------- QAN instances ----------

  /** The instance was created, or an existing one with the same identity was revived. */
  predicate Acquired(was: map<string, Instance>, now: map<string, Instance>,
                     uuid: string, subsystem: string, name: string, parent: string)
  {
    && uuid in now && now == was[uuid := now[uuid]]
    && now[uuid].subsystem == subsystem && now[uuid].name == name && now[uuid].parent == parent
    && !now[uuid].deleted
    && (uuid in was ==> was[uuid].subsystem == subsystem && was[uuid].name == name && was[uuid].parent == parent)
  }

  lemma InstancesPut(was: map<string, Instance>, now: map<string, Instance>, parent: string,
                     reg: Registry, k: Key, e: Entry)
    requires InstancesAgree(was, parent, reg) && k !in reg
    requires ValidEntry(k, e) && e.Source?
    requires Acquired(was, now, e.uuid, Subsystem(k.kind), k.alias, parent)
    ensures InstancesAgree(now, parent, reg[k := e])
  {
    SubsystemInverse(k.kind);
    hide Subsystem, KindOfSubsystem, IsSourceType, ValidEntry;
    var reg' := reg[k := e];
    assert KeyOfInstance(now[e.uuid]) == k;
    forall k' | k' in reg'
      ensures Analysed(now, parent, k', reg'[k'])
    {
      if k' != k {
        assert Analysed(was, parent, k', reg[k']);
      }
    }
    forall u | Live(now, u, parent)
      ensures Expected(reg', u, now[u])
    {
      if u != e.uuid {
        assert now[u] == was[u] && Live(was, u, parent) && Expected(reg, u, was[u]);
      }
    }
  }

  lemma InstancesDrop(instances: map<string, Instance>, parent: string, reg: Registry, k: Key)
    requires InstancesAgree(instances, parent, reg) && k in reg && reg[k].Source?
    ensures InstancesAgree(MarkedDeleted(instances, reg[k].uuid), parent, reg - {k})
  {
    hide KindOfSubsystem, IsSourceType;
    var now := MarkedDeleted(instances, reg[k].uuid);
    assert Analysed(instances, parent, k, reg[k]);
    forall k' | k' in reg - {k}
      ensures Analysed(now, parent, k', reg[k'])
    {
      assert Analysed(instances, parent, k', reg[k']);
    }
    forall u | Live(now, u, parent)
      ensures Expected(reg - {k}, u, now[u])
    {
      assert Live(instances, u, parent) && Expected(reg, u, instances[u]);
    }
  }

  lemma InstancesKeep(instances: map<string, Instance>, parent: string, reg: Registry, k: Key, e: Entry)
    requires InstancesAgree(instances, parent, reg) && e.Exporter?
    ensures k !in reg ==> InstancesAgree(instances, parent, reg[k := e])
    ensures k in reg && reg[k].Exporter? ==> InstancesAgree(instances, parent, reg - {k})
  {
    hide KindOfSubsystem, IsSourceType;
  }

  // ---------- adding and removing an exporter ----------

  /** The service that getConsulService looks for. */
  predicate Matches(svc: Service, kind: string, name: string) {
    svc.kind == kind && (name == "" || AliasTag(name) in svc.tags)
  }

  /** Where the catalog agrees, a lookup by kind and alias finds the entry's own service, and nothing else. */
  lemma LookupFindsEntry(services: map<string, Service>, reg: Registry, kind: string, alias: string)
    requires CatalogAgrees(services, reg) && alias != ""
    ensures forall id | id in services && Matches(services[id], kind, alias) ::
      Key(kind, alias) in reg && id == IdOf(Key(kind, alias), reg[Key(kind, alias)])
    ensures Key(kind, alias) in reg ==>
      var id := IdOf(Key(kind, alias), reg[Key(kind, alias)]);
      id in services && Matches(services[id], kind, alias)
  {
    hide ServiceID;
    var k := Key(kind, alias);
    AliasTagInverse(alias);
    forall id | id in services && Matches(services[id], kind, alias)
      ensures k in reg && id == IdOf(k, reg[k])
    {
      assert Backed(reg, id, services[id]);
      assert Accounted(reg, id, services[id], AliasTag(alias));
    }
    if k in reg {
      assert Served(services, k, reg[k]);
    }
  }

  /** An exporter's ID and local service are its own. */
  lemma ExporterIsAlone(reg: Registry, k: Key)
    requires ValidRegistry(reg) && k in reg && reg[k].Exporter?
    ensures forall k' | k' in reg && k' != k ::
      IdOf(k', reg[k']) != IdOf(k, reg[k]) && UnitOf(k', reg[k']) != UnitOf(k, reg[k])
  {
    forall k' | k' in reg && k' != k
      ensures IdOf(k', reg[k']) != IdOf(k, reg[k]) && UnitOf(k', reg[k']) != UnitOf(k, reg[k])
    {
      if IdOf(k', reg[k']) == IdOf(k, reg[k]) { SameId(reg, k, k'); }
      if UnitOf(k', reg[k']) == UnitOf(k, reg[k]) { SameUnit(reg, k, k'); }
    }
  }

  lemma FreshPortIsFreshId(services: map<string, Service>, reg: Registry, k: Key, e: Entry)
    requires CatalogAgrees(services, reg) && ValidRegistry(reg) && ValidEntry(k, e)
    requires forall id | id in services :: services[id].port != PortOf(e)
    ensures forall k' | k' in reg :: PortOf(reg[k']) != PortOf(e) && IdOf(k', reg[k']) != IdOf(k, e)
  {
    hide DistinctPorts;
    forall k' | k' in reg
      ensures PortOf(reg[k']) != PortOf(e) && IdOf(k', reg[k']) != IdOf(k, e)
    {
      assert Served(services, k', reg[k']);
      if IdOf(k', reg[k']) == IdOf(k, e) {
        ServiceIDInjective(k.kind, PortOf(e), k'.kind, PortOf(reg[k']));
      }
    }
  }

  lemma ExporterCarries(k: Key, e: Entry)
    requires e.Exporter? && ValidEntry(k, e)
    ensures var svc := ExporterService(k, e);
      Carries(svc, k, e) && HasAliases(svc) &&
      forall t | t in svc.tags && IsAliasTag(t) :: AliasOf(t) == k.alias
  {
    AliasTagInverse(k.alias);
    var tags := [AliasTag(k.alias)] + e.extra;
    assert tags[0] in tags;
    assert forall j | 0 < j < |tags| :: tags[j] == e.extra[j - 1];
  }

  /** A key that lies in the directory of an ID no entry has is no entry's key. */
  lemma FreshDir(client: string, reg: Registry, k: Key, e: Entry)
    requires '/' !in client && ValidRegistry(reg) && ValidEntry(k, e)
    requires forall k' | k' in reg :: IdOf(k', reg[k']) != IdOf(k, e)
    ensures forall key, k' | IsKeyOf(client, key, k', reg) :: key !in Below(Dir(client, IdOf(k, e)), DataOf(k, e))
  {
    var dir := Dir(client, IdOf(k, e));
    ServiceIDHasNoSlash(k.kind, PortOf(e));
    forall key, k' | IsKeyOf(client, key, k', reg)
      ensures key !in Below(dir, DataOf(k, e))
    {
      BelowFacts(dir, DataOf(k, e), key);
      if dir <= key {
        KeyInOneDir(client, IdOf(k, e), key, k', reg);
      }
    }
  }

  /** The four parts of a representation, put together. */
  lemma Whole(w: World, client: string, parent: string, reg: Registry)
    requires '/' !in client && ValidRegistry(reg)
    requires CatalogAgrees(w.Services(client), reg) && UnitsAgree(w.units, reg)
    requires KeysAgree(w.kv, client, reg) && InstancesAgree(w.instances, parent, reg)
    ensures Represents(w, client, parent, reg)
  {
  }

  lemma Parts(w: World, client: string, parent: string, reg: Registry)
    requires Represents(w, client, parent, reg)
    ensures '/' !in client && ValidRegistry(reg)
    ensures CatalogAgrees(w.Services(client), reg) && UnitsAgree(w.units, reg)
    ensures KeysAgree(w.kv, client, reg) && InstancesAgree(w.instances, parent, reg)
  {
  }

  /** An entry at a free port keeps the registry valid. */
  lemma ValidPut(services: map<string, Service>, reg: Registry, k: Key, e: Entry)
    requires CatalogAgrees(services, reg) && ValidRegistry(reg) && ValidEntry(k, e) && k !in reg
    requires e.Exporter? ==> forall id | id in services :: services[id].port != e.port
    ensures ValidRegistry(reg[k := e])
  {
    hide ServiceID, ValidEntry;
    if e.Exporter? {
      forall k' | k' in reg
        ensures PortOf(reg[k']) != e.port
      {
        assert Served(services, k', reg[k']);
      }
    }
  }

  lemma ValidDrop(reg: Registry, k: Key)
    requires ValidRegistry(reg)
    ensures ValidRegistry(reg - {k})
  {
    hide ValidEntry;
  }

  lemma CatalogAddExporter(services: map<string, Service>, reg: Registry, k: Key, e: Entry)
    requires CatalogAgrees(services, reg) && ValidRegistry(reg) && k !in reg && e.Exporter? && ValidEntry(k, e)
    requires forall id | id in services :: services[id].port != e.port
    ensures CatalogAgrees(services[IdOf(k, e) := ExporterService(k, e)], reg[k := e])
  {
    FreshPortIsFreshId(services, reg, k, e);
    ExporterCarries(k, e);
    hide CatalogAgrees, ServiceID, Carries, HasAliases, AliasTag, IsAliasTag, ValidEntry, ValidRegistry;
    CatalogPut(services, reg, IdOf(k, e), ExporterService(k, e), k, e);
  }

  lemma KeysAddExporter(w: World, client: string, reg: Registry, k: Key, e: Entry)
    requires '/' !in client && CatalogAgrees(w.Services(client), reg) && ValidRegistry(reg)
    requires KeysAgree(w.kv, client, reg) && k !in reg && e.Exporter? && ValidEntry(k, e)
    requires forall id | id in w.Services(client) :: w.Services(client)[id].port != e.port
    ensures KeysAgree(w.kv + Below(Dir(client, IdOf(k, e)), e.data), client, reg[k := e])
  {
    hide KeysAgree, ServiceID, ValidEntry, DistinctPorts, Below, Dir, IsKeyOf;
    FreshPortIsFreshId(w.Services(client), reg, k, e);
    hide CatalogAgrees;
    FreshDir(client, reg, k, e);
    KeysPut(w.kv, client, reg, k, e);
  }

  lemma AddedMetricsStores(w: World, client: string, address: string, k: Key, e: Entry)
    requires e.Exporter?
    ensures var now := AddedMetrics(w, client, address, k, e);
      && now.Services(client) == w.Services(client)[IdOf(k, e) := ExporterService(k, e)]
      && now.kv == w.kv + Below(Dir(client, IdOf(k, e)), e.data)
      && now.units == w.units[UnitOf(k, e) := true]
      && now.instances == w.instances && now.files == w.files
  {
    hide ServiceID, UnitName, ExporterService, Dir, Below;
  }

  /** Adding an exporter on a free port is one insertion into the registry. */
  lemma AddMetricsInserts(w: World, client: string, address: string, parent: string, reg: Registry, k: Key, e: Entry)
    requires Represents(w, client, parent, reg) && k !in reg
    requires e.Exporter? && ValidEntry(k, e)
    requires forall id | id in w.Services(client) :: w.Services(client)[id].port != e.port
    ensures Represents(AddedMetrics(w, client, address, k, e), client, parent, reg[k := e])
  {
    hide *;
    Parts(w, client, parent, reg);
    ValidPut(w.Services(client), reg, k, e);
    CatalogAddExporter(w.Services(client), reg, k, e);
    UnitsPut(w.units, reg, k, e, true);
    KeysAddExporter(w, client, reg, k, e);
    InstancesKeep(w.instances, parent, reg, k, e);
    AddedMetricsStores(w, client, address, k, e);
    Whole(AddedMetrics(w, client, address, k, e), client, parent, reg[k := e]);
  }

  lemma KeysDropExporter(kv: map<string, string>, client: string, reg: Registry, k: Key)
    requires '/' !in client && ValidRegistry(reg) && KeysAgree(kv, client, reg) && k in reg && reg[k].Exporter?
    ensures KeysAgree(DeleteTree(kv, Dir(client, IdOf(k, reg[k]))), client, reg - {k})
  {
    hide KeysAgree, ServiceID, DistinctPorts, DataOf, PlainKind;
    var id := IdOf(k, reg[k]);
    ServiceIDHasNoSlash(k.kind, PortOf(reg[k]));
    ExporterIsAlone(reg, k);
    forall key, k' | IsKeyOf(client, key, k', reg)
      ensures Dir(client, id) <= key <==> k' == k
    {
      if Dir(client, id) <= key {
        KeyInOneDir(client, id, key, k', reg);
      }
    }
    KeysDrop(kv, client, reg, k, Dir(client, id));
  }

  lemma RemovedMetricsStores(w: World, client: string, id: string, kind: string, port: int)
    ensures var now := RemovedMetrics(w, client, id, kind, port);
      && now.Services(client) == w.Services(client) - {id}
      && now.kv == DeleteTree(w.kv, Dir(client, id))
      && now.units == w.units - {UnitName(kind, port)}
      && now.instances == w.instances && now.files == w.files
  {
    hide Dir, UnitName, DeleteTree;
  }

  /** Removing it is one deletion. */
  lemma RemoveMetricsDeletes(w: World, client: string, parent: string, reg: Registry, k: Key)
    requires Represents(w, client, parent, reg) && k in reg && reg[k].Exporter?
    ensures Represents(RemovedMetrics(w, client, IdOf(k, reg[k]), k.kind, reg[k].port), client, parent, reg - {k})
  {
    hide *;
    Parts(w, client, parent, reg);
    ValidDrop(reg, k);
    ExporterIsAlone(reg, k);
    CatalogDrop(w.Services(client), reg, k);
    UnitsDrop(w.units, reg, k);
    KeysDropExporter(w.kv, client, reg, k);
    InstancesKeep(w.instances, parent, reg, k, reg[k]);
    assert UnitOf(k, reg[k]) == UnitName(k.kind, reg[k].port) by { UnitOfExporter(k, reg[k]); }
    RemovedMetricsStores(w, client, IdOf(k, reg[k]), k.kind, reg[k].port);
    Whole(RemovedMetrics(w, client, IdOf(k, reg[k]), k.kind, reg[k].port), client, parent, reg - {k});
  }

  lemma UnitOfExporter(k: Key, e: Entry)
    requires e.Exporter?
    ensures UnitOf(k, e) == UnitName(k.kind, e.port) && IdOf(k, e) == ServiceID(k.kind, e.port)
  {
    hide UnitName, ServiceID;
  }
}
