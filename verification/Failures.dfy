/**
 * Commands whose calls may fail at any point: how much of an installation they can put out of agreement, one
 * by one, several in one invocation, and over runs with repairs.
 */
module Failures {
  import opened Stores
  import opened Registry
  import opened Transitions
  import opened QueryTransitions
  import opened Monitor
  import opened Lookup
  import opened Sanitize
  import opened Qan
  import opened Metrics
  import opened Queries
  import opened Refinement
  import opened Runs
  import opened Repair

  // ---------- one command, one name ----------

  /** Every service is registered under the ID made of its own kind and port. */
  ghost predicate WellNamed(services: map<string, Service>) {
    forall id | id in services :: PlainKind(services[id].kind) && id == ServiceID(services[id].kind, services[id].port)
  }

  /** Where the catalog agrees with a registry, it is well named. */
  lemma AgreedIsWellNamed(services: map<string, Service>, reg: Registry)
    requires CatalogAgrees(services, reg) && ValidRegistry(reg)
    ensures WellNamed(services)
  {
    hide ServiceID, PlainKind, SvcTypes, DistinctPorts, IsAliasTag;
    forall id | id in services
      ensures PlainKind(services[id].kind) && id == ServiceID(services[id].kind, services[id].port)
    {
      var k := IdHasEntry(services, reg, id);
      assert Served(services, k, reg[k]) && ValidEntry(k, reg[k]);
    }
  }

  /** The two sides are as they were, except perhaps for one name. */
  ghost predicate OnlyUnit(was: World, now: World, client: string, unit: string) {
    && WellNamed(now.Services(client))
    && forall u | u != unit ::
         (u in Wanted(now.Services(client)) <==> u in Wanted(was.Services(client))) &&
           (u in now.units <==> u in was.units)
  }

  lemma PutTouchesOne(services: map<string, Service>, svc: Service)
    requires WellNamed(services) && PlainKind(svc.kind)
    ensures var after := services[ServiceID(svc.kind, svc.port) := svc];
      WellNamed(after) &&
      forall u | u != UnitOfService(svc) :: u in Wanted(after) <==> u in Wanted(services)
  {
    var id := ServiceID(svc.kind, svc.port);
    var after := services[id := svc];
    hide PlainKind, UnitName;
    forall u | u != UnitOfService(svc)
      ensures u in Wanted(after) <==> u in Wanted(services)
    {
      if u in Wanted(after) {
        var i :| i in after && UnitOfService(after[i]) == u;
        assert i != id && i in services;
      }
      if u in Wanted(services) {
        var i :| i in services && UnitOfService(services[i]) == u;
        if i == id {
          ServiceIDInjective(services[i].kind, services[i].port, svc.kind, svc.port);
        }
        assert i in after && after[i] == services[i];
      }
    }
  }

  lemma DropTouchesOne(services: map<string, Service>, id: string)
    requires WellNamed(services) && id in services
    ensures var after := services - {id};
      WellNamed(after) &&
      forall u | u != UnitOfService(services[id]) :: u in Wanted(after) <==> u in Wanted(services)
  {
    hide PlainKind, UnitOfService, ServiceID;
    var after := services - {id};
    forall u | u != UnitOfService(services[id])
      ensures u in Wanted(after) <==> u in Wanted(services)
    {
      if u in Wanted(services) {
        var i :| i in services && UnitOfService(services[i]) == u;
        assert i in after;
      }
    }
  }

  lemma Unchanged(w: World, client: string)
    requires WellNamed(w.Services(client))
    ensures OnlyUnit(w, w, client, "")
  {
  }

  predicate SameUnitsBut(was: map<string, bool>, now: map<string, bool>, unit: string) {
    now.Keys - {unit} == was.Keys - {unit}
  }

  /** A command that leaves the catalog as it was or as it should become, and touches one local service. */
  lemma StageTouchesOne(was: World, now: World, full: World, client: string, unit: string)
    requires now.catalog == was.catalog || now.catalog == full.catalog
    requires SameUnitsBut(was.units, now.units, unit)
    requires WellNamed(was.Services(client)) && WellNamed(full.Services(client))
    requires forall u | u != unit :: u in Wanted(full.Services(client)) <==> u in Wanted(was.Services(client))
    ensures OnlyUnit(was, now, client, unit)
  {
    hide WellNamed, Wanted;
    forall u | u != unit
      ensures u in now.units <==> u in was.units
    {
      assert u in now.units.Keys - {unit} <==> u in now.units;
      assert u in was.units.Keys - {unit} <==> u in was.units;
    }
  }

  /** AddMetrics, however far it gets. */
  lemma AddMetricsTouchesOne(was: World, now: World, config: Config, alias: string, m: Plugin, port: int,
                             disableSSL: bool)
    requires WellNamed(was.Services(config.clientName)) && m.Valid()
    requires
      var full := FullyAdded(was, config, alias, m, port, disableSSL);
      now == full || PartlyAdded(was, now, full, UnitName(m.Kind(), port))
    ensures OnlyUnit(was, now, config.clientName, UnitName(m.Kind(), port))
  {
    hide UnitName, ServiceID, PlainKind, KnownName, AddedMetrics, Between, Below, Dir, WellNamed, Wanted, OnlyUnit,
      Plugin.ExtraTags;
    var k, e, client := Key(m.Kind(), alias), m.Registered(port, disableSSL), config.clientName;
    KnownMetrics(m.name);
    AddedMetricsStores(was, client, config.clientAddress, k, e);
    PutTouchesOne(was.Services(client), ExporterService(k, e));
    StageTouchesOne(was, now, FullyAdded(was, config, alias, m, port, disableSSL), client, UnitName(m.Kind(), port));
  }

  /** RemoveMetrics, however far it gets. */
  lemma RemoveMetricsTouchesOne(was: World, now: World, client: string, kind: string, alias: string, ok: bool,
                                faultless: bool)
    returns (unit: string)
    requires WellNamed(was.Services(client)) && RemovedAMatch(was, now, client, kind, alias, ok, faultless)
    ensures OnlyUnit(was, now, client, unit)
  {
    hide UnitName, Matches, WellNamed, Wanted, RemovedMetrics, OnlyUnit;
    var services := was.Services(client);
    var id :| id in services && RemoveOutcome(was, now, client, id, ok, faultless);
    var full := RemovedMetrics(was, client, id, services[id].kind, services[id].port);
    unit := UnitName(services[id].kind, services[id].port);
    assert RemoveOutcome(was, now, client, id, ok, faultless);
    RemovedMetricsStores(was, client, id, services[id].kind, services[id].port);
    DropTouchesOne(services, id);
    StageTouchesOne(was, now, full, client, unit);
  }

  /** What every outcome of AddQueries has in common. */
  lemma AdditionKeeps(was: World, now: World, client: string, address: string, parent: string, alias: string, q: Source,
                      dsn: string, b: Base, uuid: string, ok: bool, faultless: bool)
    requires AddOutcome(was, now, client, address, parent, alias, q, dsn, b, uuid, ok, faultless)
    ensures
      var full := FullyAddedSource(was, client, address, alias, q, b, dsn, uuid, now.instances);
      (now.catalog == was.catalog || now.catalog == full.catalog) &&
      SameUnitsBut(was.units, now.units, UnitName(q.Kind(), b.port))
  {
    hide UnitName, IsBase, FullyAddedSource, InstanceStage, UnitReady, SanitizeDSN, Acquired, DsnKey, QueriesKind;
    FullyAddedSourceFields(was, client, address, alias, q, b, dsn, uuid, now.instances);
  }

  /** Either catalog and keys are as before, or the alias is registered and at most its two keys are written. */
  lemma AdditionShape(was: World, now: World, client: string, address: string, parent: string, alias: string, q: Source,
                      dsn: string, b: Base, uuid: string, ok: bool, faultless: bool)
    requires AddOutcome(was, now, client, address, parent, alias, q, dsn, b, uuid, ok, faultless)
    ensures IsBase(was.Services(client), q.Kind(), b)
    ensures
      var id, dir := ServiceID(q.Kind(), b.port), Dir(client, ServiceID(q.Kind(), b.port));
      var first := was.kv[dir + DsnSub(alias) := SanitizeDSN(dsn)];
      || (now.Services(client) == was.Services(client) && now.kv == was.kv)
      || (now.Services(client) == was.Services(client)[id := Service(q.Kind(), TagsWith(b.tags, alias), b.port)] &&
          (now.kv == was.kv || now.kv == first || now.kv == first[dir + UuidSub(alias, NameOf(q.Kind())) := uuid]))
    ensures forall u | u in was.units :: u in now.units
  {
    hide UnitName, IsBase, FullyAddedSource, InstanceStage, UnitReady, SanitizeDSN, Acquired, QueriesKind, ServiceID,
      Dir, DsnSub, UuidSub, NameOf, TagsWith, DsnsKept;
    FullyAddedSourceFields(was, client, address, alias, q, b, dsn, uuid, now.instances);
  }

  /** A removal of a source marks at most the instance whose UUID is stored for it. */
  lemma RemovalRecords(was: World, now: World, client: string, address: string, id: string, alias: string,
                       name: string, ok: bool, faultless: bool)
    requires RemoveSourceOutcome(was, now, client, address, id, alias, name, ok, faultless)
    ensures
      var key := UuidKey(client, id, alias, name);
      now.instances == was.instances || (key in was.kv && now.instances == MarkedDeleted(was.instances, was.kv[key]))
  {
    hide UnitName, UuidKey, RemovedQueries, MarkedDeleted, OtherAliases;
    var svc, uuid := was.Services(client)[id], StoredUuid(was, client, id, alias, name);
    RemovedQueriesFields(was, client, address, id, svc, alias, uuid);
  }

  lemma InitIsKnown(w: World, client: string, address: string, name: string, q: Source)
    requires CanAddQueries(w, client, address, name, q)
    ensures q.init.Some?
  {
    hide GloballyUnique, Monitored;
  }

  /** AddQueries, however far it gets. */
  lemma AddQueriesTouchesOne(was: World, now: World, client: string, address: string, parent: string, alias: string,
                             q: Source, dsn: string, ok: bool, faultless: bool)
    returns (unit: string)
    requires WellNamed(was.Services(client)) && q.Valid()
    requires AddedSomehow(was, now, client, address, parent, alias, q, dsn, ok, faultless)
    ensures OnlyUnit(was, now, client, unit)
  {
    hide UnitName, ServiceID, PlainKind, WellNamed, Wanted, FullyAddedSource, OnlyUnit, SanitizeDSN, TagsWith,
      AddOutcome,
      SameUnitsBut, QueriesKind;
    var b, uuid :| AddOutcome(was, now, client, address, parent, alias, q, dsn, b, uuid, ok, faultless);
    unit := UnitName(q.Kind(), b.port);
    var full := FullyAddedSource(was, client, address, alias, q, b, dsn, uuid, now.instances);
    AdditionKeeps(was, now, client, address, parent, alias, q, dsn, b, uuid, ok, faultless);
    FullyAddedSourceFields(was, client, address, alias, q, b, dsn, uuid, now.instances);
    SourceIsValid(q, "x", "", "");
    var svc := Service(q.Kind(), TagsWith(b.tags, alias), b.port);
    assert full.Services(client) == was.Services(client)[ServiceID(q.Kind(), b.port) := svc];
    PutTouchesOne(was.Services(client), svc);
    StageTouchesOne(was, now, full, client, unit);
  }

  /** RemoveQueries, however far it gets. */
  lemma RemoveQueriesTouchesOne(was: World, now: World, client: string, address: string, kind: string, alias: string,
                                name: string, ok: bool, faultless: bool)
    returns (unit: string)
    requires WellNamed(was.Services(client))
    requires RemovedASource(was, now, client, address, kind, alias, name, ok, faultless)
    ensures OnlyUnit(was, now, client, unit)
  {
    hide UnitName, Matches, Wanted, RemovedQueries, OnlyUnit, CanRemoveSource, OtherAliases, DeleteTree, MarkedDeleted,
      PlainKind, ServiceID, StoredUuid, UuidKey, Dir;
    var services := was.Services(client);
    var id :| id in services && RemoveSourceOutcome(was, now, client, address, id, alias, name, ok, faultless);
    var svc := services[id];
    unit := UnitName(svc.kind, svc.port);
    var uuid := StoredUuid(was, client, id, alias, name);
    var full := RemovedQueries(was, client, address, id, svc, alias, uuid);
    assert RemoveSourceOutcome(was, now, client, address, id, alias, name, ok, faultless);
    RemovedQueriesStores(was, client, address, id, svc, alias, uuid);
    DropTouchesOne(services, id);
    PutTouchesOne(services, svc.(tags := OtherAliases(svc.tags, alias)));
    StageTouchesOne(was, now, full, client, unit);
  }

  // ---------- runs with failures ----------

  /** The command is tried: it may be refused, succeed, or fail at any call. */
  ghost predicate Attempts(c: Command, was: World, now: World, config: Config, parent: string) {
    var client, address := config.clientName, config.clientAddress;
    now == was ||
    match c
    case AddExporter(m, alias, requested, force, disableSSL) =>
      MayRegister(was, config, alias, requested, m, force) &&
      exists ok :: AddedAt(was, now, config, alias, requested, m, disableSSL, ok)
    case RemoveExporter(name, alias) =>
      exists ok, faultless :: RemovedAMatch(was, now, client, MetricsKind(name), alias, ok, faultless)
    case AddSource(q, alias) =>
      CanAddQueries(was, client, address, alias, q) &&
      exists ok, faultless :: AddedSomehow(was, now, client, address, parent, alias, q, q.init.value.dsn, ok, faultless)
    case RemoveSource(name, alias) =>
      exists ok, faultless :: RemovedASource(was, now, client, address, QueriesKind(name), alias, name, ok, faultless)
  }

  /** Whatever happens to a command, it touches one name. */
  lemma AttemptTouchesOne(c: Command, was: World, now: World, config: Config, parent: string) returns (unit: string)
    requires c.Valid() && WellNamed(was.Services(config.clientName)) && Attempts(c, was, now, config, parent)
    ensures OnlyUnit(was, now, config.clientName, unit)
  {
    hide WellNamed, OnlyUnit, PartlyAdded, GloballyUnique, IsDuplicate, RemovedAMatch, AddedSomehow, RemovedASource,
      FullyAdded, UnitName,
      KnownName, MetricsKind, QueriesKind, ServiceName, ChosenPort;
    var client, address := config.clientName, config.clientAddress;
    if now == was {
      Unchanged(was, client);
      return "";
    }
    match c {
      case AddExporter(m, alias, requested, force, disableSSL) =>
        var port := ChosenPort(was.Services(client), requested, m.defaultPort).value;
        var ok :| AddedAt(was, now, config, alias, requested, m, disableSSL, ok);
        assert AddedAt(was, now, config, alias, requested, m, disableSSL, ok);
        AddMetricsTouchesOne(was, now, config, alias, m, port, disableSSL);
        unit := UnitName(m.Kind(), port);
      case RemoveExporter(name, alias) =>
        var ok, faultless :| RemovedAMatch(was, now, client, MetricsKind(name), alias, ok, faultless);
        unit := RemoveMetricsTouchesOne(was, now, client, MetricsKind(name), alias, ok, faultless);
      case AddSource(q, alias) =>
        var ok, faultless :| AddedSomehow(was, now, client, address, parent, alias, q, q.init.value.dsn, ok, faultless);
        unit := AddQueriesTouchesOne(was, now, client, address, parent, alias, q, q.init.value.dsn, ok, faultless);
      case RemoveSource(name, alias) =>
        var ok, faultless :| RemovedASource(was, now, client, address, QueriesKind(name), alias, name, ok, faultless);
        unit := RemoveQueriesTouchesOne(was, now, client, address, QueriesKind(name), alias, name, ok, faultless);
    }
  }

  lemma OnlyUnitGrowsByOne(was: World, now: World, client: string, unit: string)
    requires OnlyUnit(was, now, client, unit)
    ensures Disagreement(now, client) <= Disagreement(was, client) + {unit}
    ensures |Disagreement(now, client)| <= |Disagreement(was, client)| + 1
  {
    hide Wanted, WellNamed, World.Services;
    var before, after := Disagreement(was, client), Disagreement(now, client);
    forall u | u in after
      ensures u in before + {unit}
    {
    }
    hide Disagreement, OnlyUnit;
    SubsetSize(after, before + {unit});
  }

  /** One command adds at most one name to the disagreement. */
  lemma AttemptGrowsByOne(c: Command, was: World, now: World, config: Config, parent: string)
    requires c.Valid() && WellNamed(was.Services(config.clientName)) && Attempts(c, was, now, config, parent)
    ensures WellNamed(now.Services(config.clientName))
    ensures |Disagreement(now, config.clientName)| <= |Disagreement(was, config.clientName)| + 1
  {
    hide Attempts, WellNamed, Disagreement;
    var unit := AttemptTouchesOne(c, was, now, config, parent);
    OnlyUnitGrowsByOne(was, now, config.clientName, unit);
  }

  // ---------- several commands without a check in between ----------

  /** At most n commands one after the other, whatever becomes of each. */
  ghost predicate Chain(was: World, now: World, n: nat, config: Config, parent: string)
    decreases n
  {
    || now == was
    || (n > 0 &&
        exists mid, c: Command ::
          c.Valid() && Chain(was, mid, n - 1, config, parent) && Attempts(c, mid, now, config, parent))
  }

  lemma OneMoreInChain(was: World, mid: World, now: World, n: nat, c: Command, config: Config, parent: string)
    requires Chain(was, mid, n, config, parent) && c.Valid() && Attempts(c, mid, now, config, parent)
    ensures Chain(was, now, n + 1, config, parent)
  {
    hide Attempts, Command.Valid;
  }

  /** A composite of n commands adds at most n names. */
  lemma {:induction false} CompositeGrowsByN(was: World, now: World, n: nat, config: Config, parent: string)
    requires Chain(was, now, n, config, parent) && WellNamed(was.Services(config.clientName))
    ensures WellNamed(now.Services(config.clientName))
    ensures |Disagreement(now, config.clientName)| <= |Disagreement(was, config.clientName)| + n
    decreases n
  {
    hide Attempts, WellNamed, Disagreement, Command.Valid;
    if now != was {
      var mid, c: Command :|
        c.Valid() && Chain(was, mid, n - 1, config, parent) && Attempts(c, mid, now, config, parent);
      CompositeGrowsByN(was, mid, n - 1, config, parent);
      AttemptGrowsByOne(c, mid, now, config, parent);
    }
  }

  lemma LongerChain(was: World, now: World, m: nat, n: nat, config: Config, parent: string)
    requires m <= n && Chain(was, now, m, config, parent)
    ensures Chain(was, now, n, config, parent)
    decreases m
  {
    hide Attempts, Command.Valid;
    if now != was {
      var mid, c: Command :|
        c.Valid() && Chain(was, mid, m - 1, config, parent) && Attempts(c, mid, now, config, parent);
      LongerChain(was, mid, m - 1, n - 1, config, parent);
    }
  }

  // ---------- which names removals leave ----------

  /** Another service of a well-named catalog calls for another local service. */
  lemma OwnUnit(services: map<string, Service>, id: string)
    requires WellNamed(services) && id in services
    ensures UnitOfService(services[id]) !in Wanted(services - {id})
  {
    hide UnitName, ServiceID, PlainKind;
    var unit, rest := UnitOfService(services[id]), services - {id};
    if unit in Wanted(rest) {
      var i :| i in rest && UnitOfService(rest[i]) == unit;
      UnitNameInjective(services[i].kind, services[i].port, services[id].kind, services[id].port);
    }
  }

  /** The name of the removed service disagrees afterwards exactly if it left the catalog but not the local services. */
  ghost predicate Leaves(was: World, now: World, client: string, id: string)
    requires id in was.Services(client)
  {
    var unit := UnitOfService(was.Services(client)[id]);
    && Disagreement(now, client) - {unit} == Disagreement(was, client) - {unit}
    && (unit in Disagreement(now, client) <==>
          if id in now.Services(client) then unit in Disagreement(was, client) else unit in now.units)
  }

  lemma RemoveMetricsLeaves(was: World, now: World, client: string, id: string, ok: bool, faultless: bool)
    requires WellNamed(was.Services(client)) && RemoveOutcome(was, now, client, id, ok, faultless)
    ensures Leaves(was, now, client, id)
  {
    hide UnitName, WellNamed, RemovedMetrics, DeleteTree, Dir, Wanted;
    var services := was.Services(client);
    var full := RemovedMetrics(was, client, id, services[id].kind, services[id].port);
    RemovedMetricsStores(was, client, id, services[id].kind, services[id].port);
    SameCatalogs(was, now, full, client);
    OwnUnit(services, id);
    WantedWithout(services, id);
    DisagreementLeft(was, now, client, id);
  }

  lemma SameCatalogs(was: World, now: World, full: World, client: string)
    ensures now.catalog == was.catalog ==> now.Services(client) == was.Services(client)
    ensures now.catalog == full.catalog ==> now.Services(client) == full.Services(client)
  {
  }

  lemma WantedWithout(services: map<string, Service>, id: string)
    requires id in services
    ensures forall u | u != UnitOfService(services[id]) :: u in Wanted(services - {id}) <==> u in Wanted(services)
    ensures UnitOfService(services[id]) in Wanted(services)
  {
    hide UnitName;
    forall u | u != UnitOfService(services[id]) && u in Wanted(services)
      ensures u in Wanted(services - {id})
    {
      var i :| i in services && UnitOfService(services[i]) == u;
      assert (services - {id})[i] == services[i];
    }
  }

  /** Both sides know the name exactly if they did before. */
  predicate SameAtName(was: World, now: World, client: string, unit: string) {
    && (unit in Wanted(now.Services(client)) <==> unit in Wanted(was.Services(client)))
    && (unit in now.units <==> unit in was.units)
  }

  lemma DisagreementLeft(was: World, now: World, client: string, id: string)
    requires id in was.Services(client)
    requires
      var unit := UnitOfService(was.Services(client)[id]);
      && (forall u | u != unit :: SameAtName(was, now, client, u))
      && (id in now.Services(client) ==> SameAtName(was, now, client, unit))
      && (id !in now.Services(client) ==> unit !in Wanted(now.Services(client)))
    ensures Leaves(was, now, client, id)
  {
    hide UnitOfService, Wanted;
    var unit := UnitOfService(was.Services(client)[id]);
    forall u | u != unit
      ensures u in Disagreement(now, client) <==> u in Disagreement(was, client)
    {
      assert SameAtName(was, now, client, u);
    }
  }

  lemma RemoveQueriesLeaves(was: World, now: World, client: string, address: string, id: string, alias: string,
                            name: string,
                            ok: bool, faultless: bool)
    requires WellNamed(was.Services(client))
    requires RemoveSourceOutcome(was, now, client, address, id, alias, name, ok, faultless)
    ensures Leaves(was, now, client, id)
  {
    hide UnitName, WellNamed, RemovedQueries, DeleteTree, Dir, Wanted, OtherAliases, MarkedDeleted, UuidKey, StoredUuid;
    var services := was.Services(client);
    var svc, uuid := services[id], StoredUuid(was, client, id, alias, name);
    var full := RemovedQueries(was, client, address, id, svc, alias, uuid);
    var tags := OtherAliases(svc.tags, alias);
    RemovedQueriesStores(was, client, address, id, svc, alias, uuid);
    SameCatalogs(was, now, full, client);
    OwnUnit(services, id);
    WantedWithout(services, id);
    SameWanted(services, id, tags);
    DisagreementLeft(was, now, client, id);
  }

  lemma SameWanted(services: map<string, Service>, id: string, tags: seq<string>)
    requires id in services
    ensures Wanted(services[id := services[id].(tags := tags)]) == Wanted(services)
  {
    hide UnitName;
    var after := services[id := services[id].(tags := tags)];
    assert forall i | i in services :: UnitOfService(after[i]) == UnitOfService(services[i]);
  }

  // ---------- removals up to the first failure ----------

  lemma RemovedMeansFaultless(was: World, now: World, client: string, kind: string, alias: string, faultless: bool)
    requires RemovedAMatch(was, now, client, kind, alias, true, faultless)
    ensures faultless
  {
    hide RemovedMetrics, Matches, UnitName;
  }

  lemma WithdrawnMeansFaultless(was: World, now: World, client: string, address: string, kind: string, alias: string,
                                name: string, faultless: bool)
    requires RemovedASource(was, now, client, address, kind, alias, name, true, faultless)
    ensures faultless
  {
    hide RemovedQueries, Matches, UnitName, CanRemoveSource;
  }

  /** One removal of several: done, or tried without success; a kind that is not known is passed over. */
  ghost predicate Removes(was: World, now: World, config: Config, parent: string, ok: bool) {
    now == was ||
    exists c: Command :: c.Valid() && !c.Adds() &&
      if ok then c.Performs(was, now, config, parent) else Attempts(c, was, now, config, parent)
  }

  /** At most n removals that all succeed. */
  ghost predicate Removals(was: World, now: World, n: nat, config: Config, parent: string)
    decreases n
  {
    || now == was
    || (n > 0 && exists mid :: Removals(was, mid, n - 1, config, parent) && Removes(mid, now, config, parent, true))
  }

  /** Removals one after the other, up to the first that fails. */
  ghost predicate Sweep(was: World, now: World, config: Config, parent: string) {
    exists mid, n :: Removals(was, mid, n, config, parent) && Removes(mid, now, config, parent, false)
  }

  lemma RemovalIsAttempt(c: Command, was: World, now: World, config: Config, parent: string)
    requires !c.Adds() && c.Performs(was, now, config, parent)
    ensures Attempts(c, was, now, config, parent)
  {
    hide RemovedAMatch, RemovedASource;
  }

  lemma OneMoreRemoval(was: World, mid: World, now: World, n: nat, config: Config, parent: string, ok: bool)
    requires Removals(was, mid, n, config, parent) && Removes(mid, now, config, parent, ok)
    ensures if ok then Removals(was, now, n + 1, config, parent) else Sweep(was, now, config, parent)
  {
    hide Removes;
  }

  /** A removal that succeeds adds no name to the disagreement. */
  lemma RemovalShrinks(c: Command, was: World, now: World, config: Config, parent: string)
    requires WellNamed(was.Services(config.clientName)) && c.Valid() && !c.Adds()
    requires c.Performs(was, now, config, parent)
    ensures WellNamed(now.Services(config.clientName))
    ensures Disagreement(now, config.clientName) <= Disagreement(was, config.clientName)
  {
    hide WellNamed, Disagreement, Matches, UnitName, RemoveSourceOutcome, RemoveOutcome, KnownName, MetricsKind,
      QueriesKind, Attempts, OnlyUnit;
    var client, address := config.clientName, config.clientAddress;
    RemovalIsAttempt(c, was, now, config, parent);
    AttemptGrowsByOne(c, was, now, config, parent);
    match c {
      case RemoveExporter(name, alias) =>
        var id :| id in was.Services(client) && RemoveOutcome(was, now, client, id, true, true);
        RemoveMetricsLeaves(was, now, client, id, true, true);
        ExporterLeft(was, now, client, id);
      case RemoveSource(name, alias) =>
        var id :|
          id in was.Services(client) && RemoveSourceOutcome(was, now, client, address, id, alias, name, true, true);
        RemoveQueriesLeaves(was, now, client, address, id, alias, name, true, true);
        SourceLeft(was, now, client, address, id, alias, name);
    }
  }

  lemma ExporterLeft(was: World, now: World, client: string, id: string)
    requires id in was.Services(client) && Leaves(was, now, client, id)
    requires RemoveOutcome(was, now, client, id, true, true)
    ensures Disagreement(now, client) <= Disagreement(was, client)
  {
    hide Disagreement, UnitName, RemovedMetrics;
    RemovedMetricsStores(was, client, id, was.Services(client)[id].kind, was.Services(client)[id].port);
    WithinRest(Disagreement(now, client), Disagreement(was, client), UnitOfService(was.Services(client)[id]));
  }

  lemma SourceLeft(was: World, now: World, client: string, address: string, id: string, alias: string, name: string)
    requires id in was.Services(client) && Leaves(was, now, client, id)
    requires RemoveSourceOutcome(was, now, client, address, id, alias, name, true, true)
    ensures Disagreement(now, client) <= Disagreement(was, client)
  {
    hide Disagreement, UnitName, RemovedQueries, CanRemoveSource, StoredUuid, OtherAliases;
    RemovedQueriesStores(was, client, address, id, was.Services(client)[id], alias,
                         StoredUuid(was, client, id, alias, name));
    WithinRest(Disagreement(now, client), Disagreement(was, client), UnitOfService(was.Services(client)[id]));
  }

  lemma WithinRest(s: set<string>, t: set<string>, x: string)
    requires s - {x} == t - {x} && (x in s ==> x in t)
    ensures s <= t
  {
    forall y | y in s
      ensures y in t
    {
      assert y != x ==> y in s - {x};
    }
  }

  lemma {:induction false} RemovalsShrink(was: World, now: World, n: nat, config: Config, parent: string)
    requires Removals(was, now, n, config, parent) && WellNamed(was.Services(config.clientName))
    ensures WellNamed(now.Services(config.clientName))
    ensures Disagreement(now, config.clientName) <= Disagreement(was, config.clientName)
    decreases n
  {
    hide WellNamed, Disagreement, Command.Valid, Command.Performs;
    if now != was {
      var mid :| Removals(was, mid, n - 1, config, parent) && Removes(mid, now, config, parent, true);
      RemovalsShrink(was, mid, n - 1, config, parent);
      if now != mid {
        var c: Command :| c.Valid() && !c.Adds() && c.Performs(mid, now, config, parent);
        RemovalShrinks(c, mid, now, config, parent);
      }
    }
  }

  /** However many removals there are, stopping at the first failure adds at most one name. */
  lemma SweepAddsOne(was: World, now: World, config: Config, parent: string)
    requires Sweep(was, now, config, parent) && WellNamed(was.Services(config.clientName))
    ensures WellNamed(now.Services(config.clientName))
    ensures |Disagreement(now, config.clientName)| <= |Disagreement(was, config.clientName)| + 1
  {
    hide WellNamed, Disagreement, Command.Valid, Attempts;
    var mid, n :| Removals(was, mid, n, config, parent) && Removes(mid, now, config, parent, false);
    RemovalsShrink(was, mid, n, config, parent);
    SubsetSize(Disagreement(mid, config.clientName), Disagreement(was, config.clientName));
    if now != mid {
      var c: Command :| c.Valid() && !c.Adds() && Attempts(c, mid, now, config, parent);
      AttemptGrowsByOne(c, mid, now, config, parent);
    }
  }

  // ---------- names that are left behind ----------

  /** Out of the catalog, still among the local services. */
  function HalfRemoved(w: World, client: string, ids: seq<string>): World
    decreases |ids|
  {
    if ids == [] then w else HalfRemoved(w, client, ids[..|ids| - 1]).Deregister(client, ids[|ids| - 1])
  }

  lemma {:induction false} HalfRemovedStores(w: World, client: string, ids: seq<string>)
    ensures
      var now := HalfRemoved(w, client, ids);
      && now.Services(client) == w.Services(client) - (set id | id in ids)
      && now.units == w.units && now.kv == w.kv && now.instances == w.instances
  {
    if ids != [] {
      var n := |ids| - 1;
      HalfRemovedStores(w, client, ids[..n]);
      assert ids == ids[..n] + [ids[n]];
      assert w.Services(client) - (set id | id in ids[..n]) - {ids[n]} == w.Services(client) - (set id | id in ids);
    }
  }

  /** RemoveMetrics can stop right after the catalog. */
  lemma CanStopAfterCatalog(w: World, client: string, id: string, name: string, alias: string, config: Config,
                            parent: string)
    requires client == config.clientName && id in w.Services(client)
    requires Matches(w.Services(client)[id], MetricsKind(name), alias)
    ensures Attempts(RemoveExporter(name, alias), w, w.Deregister(client, id), config, parent)
  {
    hide UnitName, MetricsKind, DeleteTree, Dir, Matches;
    assert RemoveOutcome(w, w.Deregister(client, id), client, id, false, false);
    assert RemovedAMatch(w, w.Deregister(client, id), client, MetricsKind(name), alias, false, false);
  }

  /** So can RemoveQueries of a last alias; by then instance and keys are gone. */
  function QueriesHalfRemoved(w: World, client: string, id: string, alias: string, uuid: string): World
    requires id in w.Services(client)
  {
    w.Deregister(client, id).(kv := DeleteTree(w.kv, Dir(client, id) + alias + "/"),
                              instances := MarkedDeleted(w.instances, uuid),
                              units := w.units[UnitOfService(w.Services(client)[id]) := true])
  }

  lemma CanStopAfterLastAlias(w: World, client: string, id: string, name: string, alias: string, config: Config,
                              parent: string)
    requires client == config.clientName && id in w.Services(client)
    requires Matches(w.Services(client)[id], QueriesKind(name), alias)
    requires OtherAliases(w.Services(client)[id].tags, alias) == []
    requires CanRemoveSource(w, client, id, UnitOfService(w.Services(client)[id]), alias, name)
    ensures Attempts(RemoveSource(name, alias), w,
                     QueriesHalfRemoved(w, client, id, alias, StoredUuid(w, client, id, alias, name)), config, parent)
  {
    hide UnitName, QueriesKind, DeleteTree, Dir, Matches, UuidKey, MarkedDeleted, OtherAliases;
    var now := QueriesHalfRemoved(w, client, id, alias, StoredUuid(w, client, id, alias, name));
    assert RemoveSourceOutcome(w, now, client, config.clientAddress, id, alias, name, false, false);
    assert RemovedASource(w, now, client, config.clientAddress, QueriesKind(name), alias, name, false, false);
  }

  /** An exporter and a query source of one alias have different services. */
  lemma ThreeIds(w: World, client: string, parent: string, reg: Registry, k: Key, k': Key)
    requires Represents(w, client, parent, reg) && k in reg && k' in reg && k.kind != k'.kind
    ensures IdOf(k, reg[k]) != IdOf(k', reg[k'])
  {
    hide Represents, ServiceID;
    ServiceOfEntry(w, client, parent, reg, k);
    ServiceOfEntry(w, client, parent, reg, k');
  }

  /**
   * The removal of everything for a MySQL instance can leave three names in disagreement: from any installation
   * in agreement that monitors the system, the exporter and, as their last alias, the queries under the name.
   */
  lemma RemoveMySQLCanLeaveThree(w: World, config: Config, parent: string, reg: Registry,
                                 alias: string) returns (now: World)
    requires Represents(w, config.clientName, parent, reg)
    requires Key(MetricsKind("linux"), alias) in reg && Key(MetricsKind("mysql"), alias) in reg
    requires Key(QueriesKind("mysql"), alias) in reg
    requires forall k | k in reg && k.kind == QueriesKind("mysql") :: k.alias == alias
    ensures Chain(w, now, 3, config, parent) && |Disagreement(now, config.clientName)| == 3
  {
    hide Represents, ServiceID, UnitName, MetricsKind, QueriesKind, Matches, Attempts, HalfRemoved, CanRemoveSource,
      OtherAliases,
      StoredUuid, NameOf, Disagreement, ValidEntry, QueriesHalfRemoved, KnownName;
    var client := config.clientName;
    var k1, k2, k3 := Key(MetricsKind("linux"), alias), Key(MetricsKind("mysql"), alias), Key(QueriesKind("mysql"),
                                                                                              alias);
    var id1, id2, id3 := IdOf(k1, reg[k1]), IdOf(k2, reg[k2]), IdOf(k3, reg[k3]);
    ThreeKinds();
    ThreeIds(w, client, parent, reg, k1, k2);
    ThreeIds(w, client, parent, reg, k1, k3);
    ThreeIds(w, client, parent, reg, k2, k3);
    EntryMatches(w, client, parent, reg, k1, alias);
    EntryMatches(w, client, parent, reg, k2, alias);
    EntryMatches(w, client, parent, reg, k3, alias);
    var w1, w2 := HalfRemoved(w, client, [id1]), HalfRemoved(w, client, [id1, id2]);
    HalfRemovedStores(w, client, [id1]);
    HalfRemovedStores(w, client, [id1, id2]);
    TwoSteps(w, client, id1, id2);
    CanStopAfterCatalog(w, client, id1, "linux", alias, config, parent);
    CanStopAfterCatalog(w1, client, id2, "mysql", alias, config, parent);
    SourceOfMySQL(w, client, parent, reg, k3);
    SourceIsRemovable(w, client, parent, reg, k3);
    LastAliasOnly(w, client, parent, reg, k3);
    SameRemovability(w, w2, client, id3, UnitOfService(w.Services(client)[id3]), alias, "mysql");
    CanStopAfterLastAlias(w2, client, id3, "mysql", alias, config, parent);
    now := QueriesHalfRemoved(w2, client, id3, alias, StoredUuid(w2, client, id3, alias, "mysql"));
    ThreeInChain(w, w1, w2, now, RemoveExporter("linux", alias), RemoveExporter("mysql", alias),
                 RemoveSource("mysql", alias),
                 config, parent);
    RemovableHasUnit(w2, client, id3, UnitOfService(w.Services(client)[id3]), alias, "mysql");
    QueriesHalfRemovedStores(w2, client, id3, alias, StoredUuid(w2, client, id3, alias, "mysql"));
    ThreeUnits(w, now, client, parent, reg, id1, id2, id3);
  }

  lemma ThreeKinds()
    ensures MetricsKind("linux") != MetricsKind("mysql") && MetricsKind("linux") != QueriesKind("mysql")
    ensures MetricsKind("mysql") != QueriesKind("mysql")
    ensures KnownName("linux") && KnownName("mysql")
  {
    KnownMetrics("linux");
    KnownMetrics("mysql");
    KnownQueries("mysql");
    assert "linux"[0] != "mysql"[0] && "metrics"[0] != "queries"[0];
  }

  lemma TwoSteps(w: World, client: string, id1: string, id2: string)
    ensures HalfRemoved(w, client, [id1]) == w.Deregister(client, id1)
    ensures HalfRemoved(w, client, [id1, id2]) == HalfRemoved(w, client, [id1]).Deregister(client, id2)
  {
    assert [id1, id2][..1] == [id1] && [id1][..0] == [];
    assert HalfRemoved(w, client, []) == w;
  }

  lemma SourceOfMySQL(w: World, client: string, parent: string, reg: Registry, k: Key)
    requires Represents(w, client, parent, reg) && k in reg && k.kind == QueriesKind("mysql")
    ensures reg[k].Source? && NameOf(k.kind) == "mysql"
  {
    hide Represents;
    KnownQueries("mysql");
    ValidOf(w, client, parent, reg, k);
  }

  /** With no other entry of its kind, a source's service has no other alias. */
  lemma LastAliasOnly(w: World, client: string, parent: string, reg: Registry, k: Key)
    requires Represents(w, client, parent, reg) && k in reg && reg[k].Source?
    requires forall k' | k' in reg && k'.kind == k.kind :: k' == k
    ensures IdOf(k,
                 reg[k]) in w.Services(client) && OtherAliases(w.Services(client)[IdOf(k, reg[k])].tags, k.alias) == []
  {
    hide Represents, ServiceID, UnitsAgree, KeysAgree, InstancesAgree, ValidRegistry, HasAliases, AliasTag, AliasOf,
      IsAliasTag, OtherAliases;
    Parts(w, client, parent, reg);
    ServiceOfEntry(w, client, parent, reg, k);
    var id := IdOf(k, reg[k]);
    var svc := w.Services(client)[id];
    var others := OtherAliases(svc.tags, k.alias);
    if others != [] {
      var t := others[0];
      OtherAliasesMembers(svc.tags, k.alias, t);
      assert Backed(reg, id, svc) && Accounted(reg, id, svc, t);
      TagOfAlias(t);
    }
  }

  lemma SameRemovability(was: World, now: World, client: string, id: string, unit: string, alias: string, name: string)
    requires now.units == was.units && now.kv == was.kv && now.instances == was.instances
    ensures CanRemoveSource(now, client, id, unit, alias, name) == CanRemoveSource(was, client, id, unit, alias, name)
  {
    hide UuidKey;
  }

  lemma ThreeInChain(w: World, w1: World, w2: World, now: World, c1: Command, c2: Command, c3: Command, config: Config,
                     parent: string)
    requires c1.Valid() && c2.Valid() && c3.Valid()
    requires Attempts(c1, w, w1, config,
                      parent) && Attempts(c2, w1, w2, config, parent) && Attempts(c3, w2, now, config, parent)
    ensures Chain(w, now, 3, config, parent)
  {
    hide Attempts, Command.Valid, Chain;
    assert Chain(w, w, 0, config, parent) by { ChainStart(w, config, parent); }
    OneMoreInChain(w, w, w1, 0, c1, config, parent);
    OneMoreInChain(w, w1, w2, 1, c2, config, parent);
    OneMoreInChain(w, w2, now, 2, c3, config, parent);
  }

  lemma ChainStart(w: World, config: Config, parent: string)
    ensures Chain(w, w, 0, config, parent)
  {
  }

  lemma QueriesHalfRemovedStores(w: World, client: string, id: string, alias: string, uuid: string)
    requires id in w.Services(client) && UnitOfService(w.Services(client)[id]) in w.units
    ensures QueriesHalfRemoved(w, client, id, alias, uuid).Services(client) == w.Services(client) - {id}
    ensures QueriesHalfRemoved(w, client, id, alias, uuid).units.Keys == w.units.Keys
  {
    hide UnitName, DeleteTree, Dir, MarkedDeleted;
  }

  lemma RemovableHasUnit(w: World, client: string, id: string, unit: string, alias: string, name: string)
    requires CanRemoveSource(w, client, id, unit, alias, name)
    ensures unit in w.units
  {
  }

  lemma {:induction false} ImageSize(ids: set<string>, names: map<string, string>)
    requires ids <= names.Keys && forall i, j | i in ids && j in ids && i != j :: names[i] != names[j]
    ensures |set i | i in ids :: names[i]| == |ids|
    decreases |ids|
  {
    if ids != {} {
      var id :| id in ids;
      var rest := ids - {id};
      ImageSize(rest, names);
      assert (set i | i in ids :: names[i]) == (set i | i in rest :: names[i]) + {names[id]};
    }
  }

  /** Services that leave a catalog of distinct names leave as many names behind. */
  lemma NamesLeftBehind(services: map<string, Service>, ids: set<string>)
    requires ids <= services.Keys
    requires OneUnitEach(services)
    ensures |Wanted(services) - Wanted(services - ids)| == |ids| && Wanted(services - ids) <= Wanted(services)
  {
    hide UnitOfService;
    var names := map i | i in services :: UnitOfService(services[i]);
    var rest := services - ids;
    ImageSize(ids, names);
    assert forall i | i in rest :: i !in ids && rest[i] == services[i];
    forall u | u in Wanted(services) - Wanted(rest)
      ensures u in set i | i in ids :: names[i]
    {
      var i :| i in services && UnitOfService(services[i]) == u;
    }
    assert Wanted(services) - Wanted(rest) == set i | i in ids :: names[i];
  }

  lemma ThreeUnits(w: World, now: World, client: string, parent: string, reg: Registry, id1: string, id2: string,
                   id3: string)
    requires Represents(w, client, parent, reg)
    requires id1 in w.Services(client) && id2 in w.Services(client) && id3 in w.Services(client)
    requires id1 != id2 && id1 != id3 && id2 != id3
    requires now.Services(client) == w.Services(client) - {id1, id2} - {id3} && now.units.Keys == w.units.Keys
    ensures |Disagreement(now, client)| == 3
  {
    hide Represents, UnitOfService, Wanted, World.Services;
    UnitNamesAreDistinct(w, client, parent, reg);
    UnitsMatchServices(w, client, parent, reg);
    var ids := {id1, id2, id3};
    assert |ids| == 3;
    assert w.Services(client) - {id1, id2} - {id3} == w.Services(client) - ids;
    NamesLeftBehind(w.Services(client), ids);
    OrphansOnly(w, now, client);
  }

  lemma OrphansOnly(was: World, now: World, client: string)
    requires was.units.Keys == Wanted(was.Services(client)) == now.units.Keys
    requires Wanted(now.Services(client)) <= Wanted(was.Services(client))
    ensures Disagreement(now, client) == Wanted(was.Services(client)) - Wanted(now.Services(client))
  {
    hide Wanted, World.Services;
  }

  // ---------- runs of invocations ----------

  /**
   * One invocation of the program: refused or without effect; up to n commands behind one check; any number of
   * removals behind one check, up to the first that fails; or a repair.
   * A check that could read the catalog lets through what agrees, one that could not, what has no local
   * services; a repair that could not read it uninstalls local services and does nothing else.
   */
  ghost predicate Invocation(was: World, now: World, n: nat, readable: bool, config: Config, parent: string) {
    var client := config.clientName;
    || now == was
    || ((if readable then Disagreement(was, client) == {} else was.units == map[]) &&
        (Chain(was, now, n, config, parent) || Sweep(was, now, config, parent)))
    || (if readable then Repaired(was, now, client) || PartlyRepaired(was, now, client)
        else now == was.(units := now.units) && now.units.Keys <= was.units.Keys)
  }

  /** An invocation of few commands is one of at most as many. */
  lemma FewerCommands(was: World, now: World, m: nat, n: nat, readable: bool, config: Config, parent: string)
    requires m <= n && Invocation(was, now, m, readable, config, parent)
    ensures Invocation(was, now, n, readable, config, parent)
  {
    hide Chain, Sweep, Repaired, PartlyRepaired, Disagreement;
    if Chain(was, now, m, config, parent) {
      LongerChain(was, now, m, n, config, parent);
    }
  }

  lemma RepairKeepsNames(was: World, now: World, client: string)
    requires WellNamed(was.Services(client)) && (Repaired(was, now, client) || PartlyRepaired(was, now, client))
    ensures WellNamed(now.Services(client))
    ensures |Disagreement(now, client)| <= |Disagreement(was, client)|
  {
    if Repaired(was, now, client) {
      RepairedAgrees(was, now, client);
      hide Wanted, KeysKept, InstancesKept, OtherNodesKept, PlainKind, ServiceID, Disagreement;
    } else {
      PartlyRepairedShrinks(was, now, client);
      hide Wanted, KeysKept, InstancesKept, OtherNodesKept, PlainKind, ServiceID, Disagreement, Repaired;
      SubsetSize(Disagreement(now, client), Disagreement(was, client));
    }
  }

  /**
   * As long as every check can read the catalog, a run of invocations of at most n commands each never has
   * more than n names in disagreement, whatever else fails: one, if every invocation is a single command, a
   * removal of everything or a repair.
   */
  lemma {:induction false} GatedRunsStayClose(states: seq<World>, n: nat, config: Config, parent: string)
    requires |states| > 0 && n > 0 && WellNamed(states[0].Services(config.clientName))
    requires |Disagreement(states[0], config.clientName)| <= n
    requires forall i | 0 <= i < |states| - 1 :: Invocation(states[i], states[i + 1], n, true, config, parent)
    ensures forall i | 0 <= i < |states| ::
      WellNamed(states[i].Services(config.clientName)) && |Disagreement(states[i], config.clientName)| <= n
  {
    hide WellNamed, Disagreement, Invocation;
    if |states| > 1 {
      var k := |states| - 2;
      GatedRunsStayClose(states[..k + 1], n, config, parent);
      InvocationStaysClose(states[k], states[k + 1], n, config, parent);
    }
  }

  lemma InvocationStaysClose(was: World, now: World, n: nat, config: Config, parent: string)
    requires n > 0 && WellNamed(was.Services(config.clientName)) && |Disagreement(was, config.clientName)| <= n
    requires Invocation(was, now, n, true, config, parent)
    ensures WellNamed(now.Services(config.clientName)) && |Disagreement(now, config.clientName)| <= n
  {
    hide WellNamed, Disagreement, Chain, Sweep, Repaired, PartlyRepaired;
    if Repaired(was, now, config.clientName) || PartlyRepaired(was, now, config.clientName) {
      RepairKeepsNames(was, now, config.clientName);
    } else if Sweep(was, now, config, parent) {
      SweepAddsOne(was, now, config, parent);
    } else if now != was {
      CompositeGrowsByN(was, now, n, config, parent);
    }
  }

  /** Distinct local service names are as many as the services. */
  lemma WantedSize(services: map<string, Service>)
    requires OneUnitEach(services)
    ensures |Wanted(services)| == |services|
  {
    hide UnitOfService;
    var names := map i | i in services :: UnitOfService(services[i]);
    ImageSize(services.Keys, names);
    assert Wanted(services) == set i | i in services.Keys :: names[i];
    assert |services.Keys| == |services|;
  }

  /** A repair that cannot read the catalog puts every service of an installation in agreement out of agreement. */
  lemma UnreadableRepairLosesAll(w: World, config: Config, parent: string, reg: Registry)
    requires Represents(w, config.clientName, parent, reg)
    ensures
      var now := w.(units := map[]);
      && Invocation(w, now, 0, false, config, parent)
      && Disagreement(now, config.clientName) == Wanted(w.Services(config.clientName))
      && |Disagreement(now, config.clientName)| == |w.Services(config.clientName)|
  {
    hide Represents, UnitOfService, Chain, Sweep, Disagreement, Wanted, World.Services;
    UnitNamesAreDistinct(w, config.clientName, parent, reg);
    WantedSize(w.Services(config.clientName));
    WithoutUnits(w, config.clientName);
  }

  lemma WithoutUnits(w: World, client: string)
    ensures Disagreement(w.(units := map[]), client) == Wanted(w.Services(client))
  {
    hide Wanted;
    assert w.(units := map[]).Services(client) == w.Services(client);
  }
}
