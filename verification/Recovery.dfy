/** What a repair makes of a command that stopped part way, and what it cannot mend. */
module Recovery {
  import opened Strings
  import opened Stores
  import opened Registry
  import opened Transitions
  import opened Monitor
  import opened Lookup
  import opened Metrics
  import opened Refinement
  import opened Runs
  import opened Repair

  lemma RepresentedAgrees(w: World, client: string, parent: string, reg: Registry)
    requires Represents(w, client, parent, reg)
    ensures Disagreement(w, client) == {}
    ensures w.units.Keys == Wanted(w.Services(client))
  {
    hide Represents, Wanted;
    UnitsMatchServices(w, client, parent, reg);
  }

  /** The representation looks at which local services exist, not at whether they run. */
  lemma RunningDoesNotMatter(w: World, now: World, client: string, parent: string, reg: Registry)
    requires Represents(w, client, parent, reg)
    requires now.Services(client) == w.Services(client) && now.units.Keys == w.units.Keys
    requires now.kv == w.kv && now.instances == w.instances
    ensures Represents(now, client, parent, reg)
  {
    Parts(w, client, parent, reg);
    hide Represents, CatalogAgrees, KeysAgree, InstancesAgree, ValidRegistry, IsUnitOf, UnitOf;
    assert forall u :: u in now.units <==> u in w.units;
    Whole(now, client, parent, reg);
  }

  /** Repairing a represented state changes nothing. */
  lemma RepairOfRepresented(was: World, now: World, client: string, parent: string, reg: Registry)
    requires Represents(was, client, parent, reg) && Repaired(was, now, client)
    ensures Represents(now, client, parent, reg)
  {
    hide Represents, Repaired, Disagreement;
    RepresentedAgrees(was, client, parent, reg);
    SecondRepair(was, now, client);
    RunningDoesNotMatter(was, now, client, parent, reg);
  }

  // ---------- a failed AddMetrics ----------

  /** No data the plugin stores looks like the UUID of an instance. */
  predicate NoLookalikes(data: map<string, string>) {
    forall s | s in data :: !IsUuidKey("/" + s)
  }

  /** Nor does it in its place. */
  predicate NoUuids(dir: string, data: map<string, string>) {
    forall s | s in data :: !IsUuidKey(dir + s)
  }

  /** No stored key of the client lies in the directory of a service that is not registered. */
  lemma NothingInFreshDir(w: World, client: string, parent: string, reg: Registry, id: string, key: string)
    requires Represents(w, client, parent, reg) && '/' !in id
    requires forall k | k in reg :: IdOf(k, reg[k]) != id
    requires key in w.kv
    ensures !(Dir(client, id) <= key)
  {
    Parts(w, client, parent, reg);
    hide Represents, ServiceID, CatalogAgrees, UnitsAgree, InstancesAgree, ValidRegistry, DataOf, PlainKind;
    if Dir(client, id) <= key {
      DirIsBelow(client, id, key);
      var k :| IsKeyOf(client, key, k, reg);
      KeyInOneDir(client, id, key, k, reg);
    }
  }

  /** The state in between: the exporter is registered, its local service is not installed. */
  predicate HalfAdded(was: World, mid: World, client: string, id: string, svc: Service, data: map<string, string>) {
    && id !in was.Services(client)
    && mid.Services(client) == was.Services(client)[id := svc]
    && UnitOfService(svc) !in was.units
    && mid.units == was.units && mid.instances == was.instances
    && (forall key | key in mid.kv && key !in was.kv :: key in Below(Dir(client, id), data))
    && (forall key | key in was.kv ::
          key in mid.kv && (key !in Below(Dir(client, id), data) ==> mid.kv[key] == was.kv[key]))
  }

  lemma OnlyOneMissing(was: World, mid: World, client: string, parent: string, reg: Registry, id: string, svc: Service,
                       data: map<string, string>)
    requires Represents(was, client, parent, reg) && HalfAdded(was, mid, client, id, svc, data)
    ensures forall i :: IsMissing(mid, client, i) <==> i == id
    ensures Matched(mid, client) == was.Services(client)
    ensures WantedUnits(mid, client) == was.units
  {
    hide Represents, UnitOfService, Dir, Below;
    RepresentedAgrees(was, client, parent, reg);
    var before, services := was.Services(client), mid.Services(client);
    assert services[id] == svc;
    forall i | i in before
      ensures services[i] == before[i] && UnitOfService(before[i]) in was.units
    {
      assert UnitOfService(before[i]) in Wanted(before);
    }
    forall u | u in was.units
      ensures u in Wanted(services)
    {
      var i :| i in before && UnitOfService(before[i]) == u;
      assert i in services && UnitOfService(services[i]) == u;
    }
    assert Matched(mid, client).Keys == before.Keys;
  }

  lemma HalfAddedKeys(was: World, mid: World, now: World, client: string, parent: string, reg: Registry,
                      id: string, svc: Service, data: map<string, string>)
    requires Represents(was, client, parent, reg) && HalfAdded(was, mid, client, id, svc, data)
    requires '/' !in id && forall k | k in reg :: IdOf(k, reg[k]) != id
    requires forall i :: IsMissing(mid, client, i) <==> i == id
    requires KeysKept(mid, now, client) && forall key | key in now.kv :: !UnderMissing(mid, client, key)
    ensures now.kv == was.kv
  {
    hide Represents, UnitOfService, Dir, Below, IsMissing, IdOf;
    var dir := Dir(client, id);
    assert forall key :: UnderMissing(mid, client, key) <==> dir <= key;
    forall key
      ensures key in Below(dir, data) ==> dir <= key
      ensures key in was.kv ==> !(dir <= key)
    {
      BelowFacts(dir, data, key);
      if key in was.kv {
        NothingInFreshDir(was, client, parent, reg, id, key);
      }
    }
  }

  lemma HalfAddedInstances(was: World, mid: World, now: World, client: string, parent: string, reg: Registry,
                           id: string, svc: Service, data: map<string, string>)
    requires Represents(was, client, parent, reg) && HalfAdded(was, mid, client, id, svc, data)
    requires '/' !in id && forall k | k in reg :: IdOf(k, reg[k]) != id
    requires forall i :: IsMissing(mid, client, i) <==> i == id
    requires NoUuids(Dir(client, id), data)
    requires InstancesKept(mid, now, client)
    ensures now.instances == was.instances
  {
    hide Represents, UnitOfService, Dir, Below, IsMissing, IsUuidKey, IdOf;
    var dir := Dir(client, id);
    forall key | key in mid.kv && UnderMissing(mid, client, key)
      ensures !IsUuidKey(key)
    {
      assert dir <= key;
      if key in was.kv {
        NothingInFreshDir(was, client, parent, reg, id, key);
      }
      BelowFacts(dir, data, key);
      assert key == dir + key[|dir|..];
    }
    forall u | u in was.instances
      ensures now.instances[u] == was.instances[u]
    {
      assert SameOrDeleted(mid.instances, now.instances, u);
    }
  }

  /** Repairing it takes the exporter out again, keys and all. */
  lemma RepairUndoesHalfAdded(was: World, mid: World, now: World, client: string, parent: string, reg: Registry,
                              id: string, svc: Service, data: map<string, string>)
    requires Represents(was, client, parent, reg) && HalfAdded(was, mid, client, id, svc, data)
    requires '/' !in id && forall k | k in reg :: IdOf(k, reg[k]) != id
    requires NoUuids(Dir(client, id), data)
    requires Repaired(mid, now, client) && forall key | key in now.kv :: !UnderMissing(mid, client, key)
    ensures Represents(now, client, parent, reg)
  {
    OnlyOneMissing(was, mid, client, parent, reg, id, svc, data);
    hide Represents, HalfAdded, NoUuids, KeysKept, InstancesKept, UnderMissing, IsMissing, Matched, WantedUnits, IdOf,
      Dir;
    HalfAddedKeys(was, mid, now, client, parent, reg, id, svc, data);
    HalfAddedInstances(was, mid, now, client, parent, reg, id, svc, data);
    RunningDoesNotMatter(was, now, client, parent, reg);
  }

  lemma PartlyAddedIsHalfAdded(was: World, mid: World, client: string, address: string, parent: string, reg: Registry,
                               k: Key, e: Entry)
    requires Represents(was, client, parent, reg) && k !in reg && e.Exporter? && ValidEntry(k, e)
    requires forall id | id in was.Services(client) :: was.Services(client)[id].port != e.port
    requires
      var full := AddedMetrics(was, client, address, k, e);
      mid.catalog == full.catalog && Between(was.kv, mid.kv, full.kv)
    requires mid.units == was.units && mid.instances == was.instances
    ensures HalfAdded(was, mid, client, IdOf(k, e), ExporterService(k, e), e.data)
    ensures '/' !in IdOf(k, e) && forall k' | k' in reg :: IdOf(k', reg[k']) != IdOf(k, e)
  {
    hide *;
    ExporterIsNew(was, client, parent, reg, k, e);
    AddedMetricsStores(was, client, address, k, e);
    SameCatalog(mid, AddedMetrics(was, client, address, k, e), client);
    BetweenBelow(was.kv, mid.kv, Dir(client, IdOf(k, e)), e.data);
    HalfAddedIntro(was, mid, client, IdOf(k, e), ExporterService(k, e), e.data);
  }

  lemma SameCatalog(a: World, b: World, client: string)
    requires a.catalog == b.catalog
    ensures a.Services(client) == b.Services(client)
  {
  }

  lemma HalfAddedIntro(was: World, mid: World, client: string, id: string, svc: Service, data: map<string, string>)
    requires id !in was.Services(client) && mid.Services(client) == was.Services(client)[id := svc]
    requires UnitOfService(svc) !in was.units && mid.units == was.units && mid.instances == was.instances
    requires forall key | key in mid.kv && key !in was.kv :: key in Below(Dir(client, id), data)
    requires forall key | key in was.kv ::
      key in mid.kv && (key !in Below(Dir(client, id), data) ==> mid.kv[key] == was.kv[key])
    ensures HalfAdded(was, mid, client, id, svc, data)
  {
    hide UnitOfService, Dir, Below;
  }

  lemma BetweenBelow(was: map<string, string>, mid: map<string, string>, dir: string, data: map<string, string>)
    requires Between(was, mid, was + Below(dir, data))
    ensures forall key | key in mid && key !in was :: key in Below(dir, data)
    ensures forall key | key in was :: key in mid && (key !in Below(dir, data) ==> mid[key] == was[key])
  {
    hide Below;
    forall key
      ensures key in mid && key !in was ==> key in Below(dir, data)
      ensures key in was ==> key in mid && (key !in Below(dir, data) ==> mid[key] == was[key])
    {
      assert At(mid, key) == At(was, key) || At(mid, key) == At(was + Below(dir, data), key);
    }
  }

  /** A free port means a new ID, a new local service and an empty directory. */
  lemma ExporterIsNew(w: World, client: string, parent: string, reg: Registry, k: Key, e: Entry)
    requires Represents(w, client, parent, reg) && e.Exporter? && ValidEntry(k, e)
    requires forall id | id in w.Services(client) :: w.Services(client)[id].port != e.port
    ensures IdOf(k, e) !in w.Services(client) && '/' !in IdOf(k, e)
    ensures forall k' | k' in reg :: IdOf(k', reg[k']) != IdOf(k, e)
    ensures UnitOfService(ExporterService(k, e)) !in w.units
  {
    UnitIsFresh(w, client, parent, reg, k, e);
    ServiceIDHasNoSlash(k.kind, e.port);
    Parts(w, client, parent, reg);
    FreshPortIsFreshId(w.Services(client), reg, k, e);
    hide Represents, ServiceID, UnitName, CatalogAgrees, UnitsAgree, KeysAgree, InstancesAgree, ValidEntry,
      ValidRegistry;
    if IdOf(k, e) in w.Services(client) {
      var k' := ServicesAreNamed(w, client, parent, reg, IdOf(k, e));
    }
  }

  lemma UnitIsFresh(w: World, client: string, parent: string, reg: Registry, k: Key, e: Entry)
    requires Represents(w, client, parent, reg) && e.Exporter? && ValidEntry(k, e)
    requires forall id | id in w.Services(client) :: w.Services(client)[id].port != e.port
    ensures UnitName(k.kind, e.port) !in w.units
  {
    hide Represents, ServiceID, UnitName, RoleOf, NameOf, SvcTypes;
    if UnitName(k.kind, e.port) in w.units {
      var k' := UnitHasEntry(w, client, parent, reg, UnitName(k.kind, e.port));
      ValidOf(w, client, parent, reg, k');
      UnitNameInjective(k'.kind, PortOf(reg[k']), k.kind, e.port);
      ServiceOfEntry(w, client, parent, reg, k');
    }
  }

  /**
   * An AddMetrics that failed anywhere, followed by a repair in which no call fails, leaves a registry that
   * is either the one before or the one a complete addition gives: the two together are atomic.
   */
  lemma AddMetricsThenRepair(was: World, mid: World, now: World, config: Config, parent: string, reg: Registry,
                             alias: string, requested: int, m: Plugin, force: bool, disableSSL: bool)
    requires Represents(was, config.clientName, parent, reg) && m.Valid() && ServiceName(alias)
    requires NoLookalikes(m.data)
    requires if MayRegister(was, config, alias, requested, m, force)
      then AddedAt(was, mid, config, alias, requested, m, disableSSL, false) else mid == was
    requires Repaired(mid, now, config.clientName)
    requires forall key | key in now.kv :: !UnderMissing(mid, config.clientName, key)
    ensures mid.units == was.units ==> Represents(now, config.clientName, parent, reg)
    ensures mid.units != was.units ==>
      var port := ChosenPort(was.Services(config.clientName), requested, m.defaultPort);
      && port.Some?
      && Represents(now, config.clientName, parent, reg[Key(m.Kind(), alias) := m.Registered(port.value, disableSSL)])
  {
    hide *;
    var client, address, services := config.clientName, config.clientAddress, was.Services(config.clientName);
    if mid == was {
      RepairOfRepresented(mid, now, client, parent, reg);
      return;
    }
    Allowed(was, mid, config, alias, requested, m, force, disableSSL);
    ChosenPortIsLeast(services, requested, m.defaultPort);
    var port := ChosenPort(services, requested, m.defaultPort).value;
    var k, e := Key(m.Kind(), alias), m.Registered(port, disableSSL);
    NewExporter(was, config, parent, reg, alias, requested, m, disableSSL, port);
    var full := FullyAdded(was, config, alias, m, port, disableSSL);
    PartlyAddedCases(was, mid, full, UnitName(m.Kind(), port));
    if mid.units == was.units {
      PartlyAddedIsHalfAdded(was, mid, client, address, parent, reg, k, e);
      NoUuidsInDir(client, IdOf(k, e), e.data);
      RepairUndoesHalfAdded(was, mid, now, client, parent, reg, IdOf(k, e), ExporterService(k, e), e.data);
    } else {
      AddMetricsInserts(was, client, address, parent, reg, k, e);
      InstalledButStopped(was, mid, full, config, m, alias, port, disableSSL);
      RunningDoesNotMatter(full, mid, client, parent, reg[k := e]);
      RepairOfRepresented(mid, now, client, parent, reg[k := e]);
    }
  }

  /** An addition that left a trace was allowed. */
  lemma Allowed(was: World, mid: World, config: Config, alias: string, requested: int, m: Plugin, force: bool,
                disableSSL: bool)
    requires mid != was
    requires if MayRegister(was, config, alias, requested, m, force)
      then AddedAt(was, mid, config, alias, requested, m, disableSSL, false) else mid == was
    ensures GloballyUnique(was, config.clientName, config.clientAddress, m.Kind(), alias)
    ensures
      var port := ChosenPort(was.Services(config.clientName), requested, m.defaultPort);
      port.Some? &&
        PartlyAdded(was, mid, FullyAdded(was, config, alias, m, port.value, disableSSL), UnitName(m.Kind(), port.value))
  {
    hide GloballyUnique, IsDuplicate, ChosenPort, PartlyAdded, FullyAdded, UnitName;
  }

  /** Data that does not look like a UUID by itself does not do so in its place. */
  lemma NoUuidsInDir(client: string, id: string, data: map<string, string>)
    requires NoLookalikes(data)
    ensures NoUuids(Dir(client, id), data)
  {
    hide HasSuffix;
    forall s | s in data
      ensures !IsUuidKey(Dir(client, id) + s)
    {
      var dir := client + "/" + id;
      assert Dir(client, id) + s == dir + "/" + s;
      assert "/qan_mysql_uuid" == "/" + "qan_mysql_uuid" && "/qan_mongodb_uuid" == "/" + "qan_mongodb_uuid";
      SuffixAfter(dir, s, "qan_mysql_uuid");
      SuffixAfter(dir, s, "qan_mongodb_uuid");
    }
  }

  lemma NewExporter(w: World, config: Config, parent: string, reg: Registry, alias: string, requested: int, m: Plugin,
                    disableSSL: bool, port: int)
    requires Represents(w, config.clientName, parent, reg) && m.Valid() && ServiceName(alias)
    requires GloballyUnique(w, config.clientName, config.clientAddress, m.Kind(), alias)
    requires ChosenPort(w.Services(config.clientName), requested, m.defaultPort) == Some(port)
    ensures
      var k, e := Key(m.Kind(), alias), m.Registered(port, disableSSL);
      && k !in reg && e.Exporter? && ValidEntry(k, e) && e.data == m.data
      && IdOf(k, e) == ServiceID(m.Kind(), port)
      && (forall id | id in w.Services(config.clientName) :: w.Services(config.clientName)[id].port != e.port)
      && FullyAdded(w, config, alias, m, port, disableSSL) ==
           AddedMetrics(w, config.clientName, config.clientAddress, k, e)
  {
    ChosenPortIsLeast(w.Services(config.clientName), requested, m.defaultPort);
    hide Represents, ChosenPort, GloballyUnique, AddedMetrics, ServiceID, MetricsKind, ValidEntry, KnownName;
    UniqueIsNew(w, config.clientName, config.clientAddress, parent, reg, m.Kind(), alias);
    RegisteredIsValid(m, alias, port, disableSSL);
  }

  lemma PartlyAddedCases(was: World, mid: World, full: World, unit: string)
    requires PartlyAdded(was, mid, full, unit) && mid != was
    ensures mid.catalog == full.catalog && mid.instances == was.instances && Between(was.kv, mid.kv, full.kv)
    ensures mid.units != was.units ==> unit !in was.units && mid.units == was.units[unit := false] && mid.kv == full.kv
  {
    hide Between;
  }

  lemma InstalledButStopped(was: World, mid: World, full: World, config: Config, m: Plugin, alias: string, port: int,
                            disableSSL: bool)
    requires full == FullyAdded(was, config, alias, m, port, disableSSL)
    requires mid.catalog == full.catalog && mid.instances == was.instances && mid.kv == full.kv
    requires mid.units == was.units[UnitName(m.Kind(), port) := false]
    ensures mid.Services(config.clientName) == full.Services(config.clientName)
    ensures mid.units.Keys == full.units.Keys && mid.kv == full.kv && mid.instances == full.instances
  {
    hide UnitName, ServiceID, Below, Dir;
    FullyAddedStores(was, config, alias, m, port, disableSSL);
  }

  // ---------- a failed RemoveMetrics ----------

  /** Once the service is out of the catalog, repair removes its local service and leaves the keys as they are. */
  lemma RepairFinishesRemoval(full: World, mid: World, now: World, client: string, parent: string, reg: Registry,
                              unit: string)
    requires Represents(full, client, parent, reg) && unit !in full.units
    requires mid.catalog == full.catalog && mid.instances == full.instances
    requires mid.units - {unit} == full.units
    requires Repaired(mid, now, client)
    ensures now.Services(client) == full.Services(client) && now.units == full.units
    ensures now.kv == mid.kv && now.instances == full.instances
  {
    hide Represents, UnitOfService, Wanted, Matched, WantedUnits, KeysKept, InstancesKept, Disagreement;
    RepresentedAgrees(full, client, parent, reg);
    SameCatalog(mid, full, client);
    AllWantedExist(mid, client, full.units);
    NothingMissing(mid, now, client);
  }

  lemma AllWantedExist(w: World, client: string, units: map<string, bool>)
    requires units.Keys == Wanted(w.Services(client))
    requires forall u | u in units :: u in w.units && w.units[u] == units[u]
    ensures forall id :: !IsMissing(w, client, id)
    ensures Matched(w, client) == w.Services(client) && WantedUnits(w, client) == units
  {
    hide UnitOfService;
    var services := w.Services(client);
    forall id | id in services
      ensures UnitOfService(services[id]) in w.units
    {
      assert UnitOfService(services[id]) in Wanted(services);
    }
    assert Matched(w, client).Keys == services.Keys;
    assert WantedUnits(w, client).Keys == units.Keys;
  }

  lemma NothingMissing(was: World, now: World, client: string)
    requires forall id :: !IsMissing(was, client, id)
    requires KeysKept(was, now, client) && InstancesKept(was, now, client)
    ensures now.kv == was.kv && now.instances == was.instances
  {
    hide IsMissing, IsUuidKey, Dir;
    assert forall key :: !UnderMissing(was, client, key);
    forall u | u in was.instances
      ensures now.instances[u] == was.instances[u]
    {
      assert SameOrDeleted(was.instances, now.instances, u);
    }
  }

  /**
   * A RemoveMetrics that failed after deregistering, followed by a repair, removes the exporter; but its keys
   * stay behind unless the failed command had come past deleting them, until a service with the same ID is
   * removed.
   */
  lemma RemoveMetricsThenRepair(was: World, mid: World, now: World, client: string, parent: string, reg: Registry,
                                k: Key)
    requires Represents(was, client, parent, reg) && k in reg && reg[k].Exporter?
    requires
      PartlyRemoved(was, mid, RemovedMetrics(was, client, IdOf(k, reg[k]), k.kind, reg[k].port),
                    UnitName(k.kind, reg[k].port))
    requires Repaired(mid, now, client)
    ensures mid == was ==> Represents(now, client, parent, reg)
    ensures
      var full := RemovedMetrics(was, client, IdOf(k, reg[k]), k.kind, reg[k].port);
      mid != was ==> (Represents(now, client, parent, reg - {k}) <==> mid.kv == full.kv)
  {
    hide *;
    var id, unit := IdOf(k, reg[k]), UnitName(k.kind, reg[k].port);
    var full := RemovedMetrics(was, client, id, k.kind, reg[k].port);
    ExporterRemoval(was, client, parent, reg, k);
    if mid == was {
      RepairOfRepresented(mid, now, client, parent, reg);
    } else {
      PartlyRemovedCases(was, mid, full, unit);
      RepairFinishesRemoval(full, mid, now, client, parent, reg - {k}, unit);
      if mid.kv == full.kv {
        RunningDoesNotMatter(full, now, client, parent, reg - {k});
      } else if Represents(now, client, parent, reg - {k}) {
        var key := LeftoverKey(mid.kv, Dir(client, id));
        NothingInFreshDir(now, client, parent, reg - {k}, id, key);
      }
    }
  }

  lemma PartlyRemovedCases(was: World, mid: World, full: World, unit: string)
    requires PartlyRemoved(was, mid, full, unit) && mid != was && full.units == was.units - {unit}
    ensures mid.catalog == full.catalog && mid.instances == was.instances && (mid.kv == was.kv || mid.kv == full.kv)
    ensures mid.units - {unit} == full.units
  {
  }

  lemma LeftoverKey(kv: map<string, string>, prefix: string) returns (key: string)
    requires kv != DeleteTree(kv, prefix)
    ensures key in kv && prefix <= key
  {
    key :| key in kv && prefix <= key;
  }

  lemma ExporterRemoval(w: World, client: string, parent: string, reg: Registry, k: Key)
    requires Represents(w, client, parent, reg) && k in reg && reg[k].Exporter?
    ensures
      var id := IdOf(k, reg[k]);
      var full := RemovedMetrics(w, client, id, k.kind, reg[k].port);
      && Represents(full, client, parent, reg - {k})
      && full.kv == DeleteTree(w.kv, Dir(client, id))
      && full.units == w.units - {UnitName(k.kind, reg[k].port)}
      && full.instances == w.instances
      && '/' !in id
      && forall k' | k' in reg - {k} :: IdOf(k', reg[k']) != id
  {
    RemoveMetricsDeletes(w, client, parent, reg, k);
    RemovedMetricsStores(w, client, IdOf(k, reg[k]), k.kind, reg[k].port);
    Parts(w, client, parent, reg);
    ExporterIsAlone(reg, k);
    ValidOf(w, client, parent, reg, k);
    ServiceIDHasNoSlash(k.kind, reg[k].port);
  }
}
