/**
 * Every successful registry command, in any state that represents a registry, is one step on that registry;
 * so every run of successful commands keeps the four stores in agreement.
 */
module Refinement {
  import opened Stores
  import opened Registry
  import opened Transitions
  import opened QueryTransitions
  import opened Monitor
  import opened Lookup
  import opened Sanitize
  import opened Metrics
  import opened Queries

  /** What NameRegex guarantees of a client or service name. */
  predicate ServiceName(name: string) {
    name != "" && '/' !in name
  }

  // ---------- exporters ----------

  lemma RegisteredIsValid(m: Plugin, alias: string, port: int, disableSSL: bool)
    requires m.Valid() && ServiceName(alias) && port > 0
    ensures ValidEntry(Key(m.Kind(), alias), m.Registered(port, disableSSL))
  {
    KnownMetrics(m.name);
    var tags := m.ExtraTags(disableSSL);
    assert tags[0][0] == 's';
    assert |tags| == 2 ==> tags[1][0] == 'c';
    assert "alias_"[0] == 'a';
    hide PlainKind, IsQueries, NameOf, RoleOf;
    assert m.Kind() in SvcTypes;
  }

  /** Whatever is registered is offered by the catalog under its alias. */
  lemma EntryIsOffered(w: World, client: string, reg: Registry, k: Key)
    requires CatalogAgrees(w.Services(client), reg) && k in reg
    ensures w.Offered(k.kind, AliasTag(k.alias))
  {
    hide ServiceID, AliasTag, HasAliases;
    var id := IdOf(k, reg[k]);
    assert Served(w.Services(client), k, reg[k]);
    CarriesTag(w.Services(client)[id], k, reg[k]);
    assert client in w.catalog && id in w.catalog[client].services;
  }

  /** A name that is globally unique is not in a registry that the catalog agrees with. */
  lemma UniqueIsUnknown(w: World, client: string, address: string, reg: Registry, kind: string, alias: string)
    requires CatalogAgrees(w.Services(client), reg) && GloballyUnique(w, client, address, kind, alias)
    ensures Key(kind, alias) !in reg
  {
    hide CatalogAgrees, World.Offered;
    if Key(kind, alias) in reg {
      EntryIsOffered(w, client, reg, Key(kind, alias));
    }
  }

  lemma UniqueIsNew(w: World, client: string, address: string, parent: string, reg: Registry, kind: string,
                    alias: string)
    requires Represents(w, client, parent, reg) && GloballyUnique(w, client, address, kind, alias)
    ensures Key(kind, alias) !in reg
  {
    hide Represents, GloballyUnique;
    Parts(w, client, parent, reg);
    UniqueIsUnknown(w, client, address, reg, kind, alias);
  }

  lemma CarriesTag(svc: Service, k: Key, e: Entry)
    requires Carries(svc, k, e)
    ensures AliasTag(k.alias) in svc.tags
  {
    hide AliasTag;
    if e.Exporter? {
      assert svc.tags[0] == AliasTag(k.alias);
    }
  }

  /** A successful AddMetrics inserts the exporter, under a port nobody has. */
  lemma AddMetricsRefines(w: World, config: Config, parent: string, reg: Registry, alias: string, requested: int,
                          m: Plugin, force: bool, disableSSL: bool)
    requires Represents(w, config.clientName, parent, reg)
    requires m.Valid() && ServiceName(alias)
    requires CanAddMetrics(w, config, alias, requested, m, force)
    ensures
      var port := ChosenPort(w.Services(config.clientName), requested, m.defaultPort).value;
      var k := Key(m.Kind(), alias);
      && k !in reg
      && (m.multiple || force || forall k' | k' in reg :: k'.kind != m.Kind())
      && Represents(FullyAdded(w, config, alias, m, port, disableSSL), config.clientName, parent,
                    reg[k := m.Registered(port, disableSSL)])
  {
    var services := w.Services(config.clientName);
    ChosenPortIsLeast(services, requested, m.defaultPort);
    var port := ChosenPort(services, requested, m.defaultPort).value;
    hide Represents, ChosenPort, Matches, BaseName, UnitName, ValidEntry, AddedMetrics, MetricsKind, GloballyUnique,
      IsDuplicate;
    DuplicateMeans(w, config.clientName, parent, reg, m, force, alias);
    UniqueIsNew(w, config.clientName, config.clientAddress, parent, reg, m.Kind(), alias);
    RegisteredIsValid(m, alias, port, disableSSL);
    AddMetricsInserts(w, config.clientName, config.clientAddress, parent, reg, Key(m.Kind(), alias),
                      m.Registered(port, disableSSL));
  }

  /** A represented exporter has its local service. */
  lemma EntryHasUnit(w: World, client: string, parent: string, reg: Registry, k: Key)
    requires Represents(w, client, parent, reg) && k in reg
    ensures UnitOf(k, reg[k]) in w.units
  {
    hide UnitName, CatalogAgrees, KeysAgree, InstancesAgree, ValidRegistry;
  }

  lemma ServiceOfEntry(w: World, client: string, parent: string, reg: Registry, k: Key)
    requires Represents(w, client, parent, reg) && k in reg
    ensures IdOf(k, reg[k]) in w.Services(client)
    ensures
      var svc := w.Services(client)[IdOf(k, reg[k])];
      svc.kind == k.kind && svc.port == PortOf(reg[k])
  {
    hide ServiceID, UnitsAgree, KeysAgree, InstancesAgree, ValidRegistry, AliasTag;
    assert Served(w.Services(client), k, reg[k]);
  }

  /** A service that a lookup finds is that of an entry with the name looked for. */
  lemma MatchHasEntry(services: map<string, Service>, reg: Registry, id: string, kind: string,
                      name: string) returns (k: Key)
    requires CatalogAgrees(services, reg) && id in services && Matches(services[id], kind, name)
    ensures k in reg && NamedBy(k, kind, name) && IdOf(k, reg[k]) == id
  {
    hide ServiceID, CatalogAgrees;
    if name == "" {
      k := IdHasEntry(services, reg, id);
    } else {
      LookupFindsEntry(services, reg, kind, name);
      k := Key(kind, name);
    }
  }

  /** A lookup finds something exactly if the registry has an entry of the name. */
  lemma LookupFindsNamed(w: World, client: string, parent: string, reg: Registry, kind: string, name: string)
    requires Represents(w, client, parent, reg)
    ensures Monitored(w.Services(client), kind, name) <==> HasNamed(reg, kind, name)
  {
    hide Represents, CatalogAgrees, Matches, ServiceID;
    Parts(w, client, parent, reg);
    var services := w.Services(client);
    if Monitored(services, kind, name) {
      var id :| id in services && Matches(services[id], kind, name);
      var k := MatchHasEntry(services, reg, id, kind, name);
    }
    if HasNamed(reg, kind, name) {
      var k :| k in reg && NamedBy(k, kind, name);
      EntryMatches(w, client, parent, reg, k, name);
    }
  }

  /** An exporter is a duplicate exactly if its kind is known; for plugins that allow several, its very alias. */
  lemma DuplicateMeans(w: World, client: string, parent: string, reg: Registry, m: Plugin, force: bool, alias: string)
    requires Represents(w, client, parent, reg) && alias != ""
    ensures IsDuplicate(w.Services(client), m, force, alias) <==>
      if m.multiple || force then Key(m.Kind(), alias) in reg else exists k :: k in reg && k.kind == m.Kind()
  {
    hide Represents, MetricsKind, Monitored;
    LookupFindsNamed(w, client, parent, reg, m.Kind(), DuplicateName(m, force, alias));
    if HasNamed(reg, m.Kind(), DuplicateName(m, force, alias)) {
      var k :| k in reg && NamedBy(k, m.Kind(), DuplicateName(m, force, alias));
      assert DuplicateName(m, force, alias) != "" ==> k == Key(m.Kind(), alias);
    }
    if m.multiple || force {
      if Key(m.Kind(), alias) in reg {
        assert NamedBy(Key(m.Kind(), alias), m.Kind(), alias);
      }
    } else if k :| k in reg && k.kind == m.Kind() {
      assert NamedBy(k, m.Kind(), "");
    }
  }

  /** The service is tagged with the alias, and is of the kind. */
  predicate Claims(svc: Service, kind: string, alias: string) {
    svc.kind == kind && AliasTag(alias) in svc.tags
  }

  /** A service that claims an alias is that of its entry. */
  lemma ClaimHasEntry(services: map<string, Service>, reg: Registry, id: string, kind: string, alias: string)
    requires CatalogAgrees(services, reg) && id in services && Claims(services[id], kind, alias)
    ensures Key(kind, alias) in reg && IdOf(Key(kind, alias), reg[Key(kind, alias)]) == id
  {
    hide ServiceID;
    AliasTagInverse(alias);
    assert Backed(reg, id, services[id]);
    assert Accounted(reg, id, services[id], AliasTag(alias));
  }

  lemma EntryMatches(w: World, client: string, parent: string, reg: Registry, k: Key, name: string)
    requires Represents(w, client, parent, reg) && k in reg && (name == "" || k.alias == name)
    ensures IdOf(k, reg[k]) in w.Services(client) && Matches(w.Services(client)[IdOf(k, reg[k])], k.kind, name)
  {
    hide UnitsAgree, KeysAgree, InstancesAgree, ValidRegistry, ServiceID, AliasTag, HasAliases;
    assert Served(w.Services(client), k, reg[k]);
    CarriesTag(w.Services(client)[IdOf(k, reg[k])], k, reg[k]);
  }

  /**
   * RemoveMetrics finds an exporter exactly if one of the name is in the registry, succeeds exactly if no call
   * fails, and then deletes one such exporter; an empty name means any.
   */
  lemma RemoveMetricsRefines(was: World, now: World, client: string, parent: string, reg: Registry,
                             name: string, alias: string, ok: bool, faultless: bool)
    requires Represents(was, client, parent, reg) && KnownName(name)
    ensures Monitored(was.Services(client), MetricsKind(name), alias) <==> HasNamed(reg, MetricsKind(name), alias)
    ensures RemovedAMatch(was, now, client, MetricsKind(name), alias, ok, faultless) ==>
      && (ok <==> faultless)
      && (ok ==> exists k ::
            k in reg && NamedBy(k, MetricsKind(name), alias) && Represents(now, client, parent, reg - {k}))
  {
    var kind := MetricsKind(name);
    KnownMetrics(name);
    hide Represents, RemovedMetrics, Matches, ValidEntry, NameOf, RoleOf, PlainKind, KnownName, MetricsKind, UnitName,
      ServiceID;
    Parts(was, client, parent, reg);
    LookupFindsNamed(was, client, parent, reg, kind, alias);
    if RemovedAMatch(was, now, client, kind, alias, ok, faultless) {
      var id :| id in was.Services(client) && Matches(was.Services(client)[id], kind, alias) &&
        RemoveOutcome(was, now, client, id, ok, faultless);
      var k := MatchHasEntry(was.Services(client), reg, id, kind, alias);
      ValidOf(was, client, parent, reg, k);
      EntryRole(k, reg[k]);
      ServiceOfEntry(was, client, parent, reg, k);
      EntryHasUnit(was, client, parent, reg, k);
      if ok {
        RemoveMetricsDeletes(was, client, parent, reg, k);
      }
    }
  }

  lemma ValidOf(w: World, client: string, parent: string, reg: Registry, k: Key)
    requires Represents(w, client, parent, reg) && k in reg
    ensures ValidEntry(k, reg[k])
  {
  }

  lemma EntryRole(k: Key, e: Entry)
    requires ValidEntry(k, e)
    ensures k.kind in SvcTypes && (e.Source? <==> IsQueries(k.kind))
  {
  }

  // ---------- query sources ----------

  lemma SourceIsValid(q: Source, alias: string, dsn: string, uuid: string)
    requires q.Valid() && ServiceName(alias)
    ensures ValidEntry(Key(q.Kind(), alias), Entry.Source(dsn, uuid)) && NameOf(q.Kind()) == q.name
  {
    assert KnownName(q.name);
    KnownQueries(q.name);
    hide PlainKind, IsQueries, NameOf, RoleOf, Subsystem;
    assert q.Kind() in SvcTypes;
  }

  /** All services of a queries kind are one service, on port 0. */
  lemma BaseOnPort(services: map<string, Service>, reg: Registry, kind: string, b: Base) returns (k: Key)
    requires CatalogAgrees(services, reg) && ValidRegistry(reg)
    requires IsBase(services, kind, b) && b.present && IsQueries(kind)
    ensures b.port == 0 && TagsOf(services, ServiceID(kind, 0), b.tags)
    ensures k in reg && UnitOf(k, reg[k]) == UnitName(kind, 0)
  {
    hide ServiceID, UnitName, DistinctPorts, RoleOf, NameOf, PlainKind, SvcTypes;
    var id :| id in services && services[id].kind == kind && services[id].port == b.port && services[id].tags == b.tags;
    k := IdHasEntry(services, reg, id);
    assert Served(services, k, reg[k]);
    SourceNames(k, reg[k]);
  }

  /** Without a service of a kind there is no entry of it, and its ID on port 0 is free. */
  lemma KindIsAbsent(services: map<string, Service>, reg: Registry, kind: string)
    requires CatalogAgrees(services, reg) && ValidRegistry(reg) && !Monitored(services, kind, "") && PlainKind(kind)
    ensures ServiceID(kind, 0) !in services && forall k | k in reg :: k.kind != kind
  {
    hide ServiceID, DistinctPorts, PlainKind, SvcTypes;
    forall id | id in services
      ensures services[id].kind != kind
    {
      assert !Matches(services[id], kind, "");
    }
    if ServiceID(kind, 0) in services {
      var k := IdHasEntry(services, reg, ServiceID(kind, 0));
      KindAtId(k, reg[k], kind);
    }
    forall k | k in reg
      ensures k.kind != kind
    {
      assert Served(services, k, reg[k]);
    }
  }

  /** What a new source joins is the service on port 0, if there is one. */
  lemma BaseTags(services: map<string, Service>, reg: Registry, kind: string, b: Base)
    requires CatalogAgrees(services, reg) && ValidRegistry(reg) && IsBase(services, kind, b)
    requires IsQueries(kind) && PlainKind(kind)
    ensures b.port == 0 && TagsOf(services, ServiceID(kind, 0), b.tags)
  {
    hide ServiceID, ValidRegistry, CatalogAgrees, RoleOf, NameOf, PlainKind;
    if b.present {
      var k := BaseOnPort(services, reg, kind, b);
    } else {
      KindIsAbsent(services, reg, kind);
    }
  }

  lemma UnitIsAbsent(units: map<string, bool>, reg: Registry, kind: string)
    requires UnitsAgree(units, reg) && ValidRegistry(reg) && PlainKind(kind) && forall k | k in reg :: k.kind != kind
    ensures UnitName(kind, 0) !in units
  {
    hide ServiceID, UnitName, DistinctPorts, PlainKind, SvcTypes;
    if UnitName(kind, 0) in units {
      var k :| IsUnitOf(UnitName(kind, 0), k, reg);
      KindOfUnit(k, reg[k], kind);
    }
  }

  /** In a represented state all services of a queries kind are one service, on port 0. */
  lemma BaseIsShared(w: World, client: string, parent: string, reg: Registry, q: Source, b: Base)
    requires Represents(w, client, parent, reg) && q.Valid()
    requires IsBase(w.Services(client), q.Kind(), b)
    ensures b.port == 0 && TagsOf(w.Services(client), ServiceID(q.Kind(), 0), b.tags)
    ensures UnitReady(w.units, UnitName(q.Kind(), 0), b)
  {
    Parts(w, client, parent, reg);
    SourceIsValid(q, "x", "", "");
    hide ServiceID, UnitName, ValidRegistry, Represents, CatalogAgrees, UnitsAgree, KeysAgree, InstancesAgree, NameOf,
      RoleOf, PlainKind, Source.Valid, Source.Kind, SvcTypes;
    BaseTags(w.Services(client), reg, q.Kind(), b);
    if b.present {
      var k := BaseOnPort(w.Services(client), reg, q.Kind(), b);
      EntryHasUnit(w, client, parent, reg, k);
    } else {
      KindIsAbsent(w.Services(client), reg, q.Kind());
      UnitIsAbsent(w.units, reg, q.Kind());
    }
  }

  lemma KindAtId(k: Key, e: Entry, kind: string)
    requires ValidEntry(k, e) && PlainKind(kind) && IdOf(k, e) == ServiceID(kind, 0)
    ensures k.kind == kind
  {
    ServiceIDInjective(k.kind, PortOf(e), kind, 0);
  }

  lemma KindOfUnit(k: Key, e: Entry, kind: string)
    requires ValidEntry(k, e) && PlainKind(kind) && UnitOf(k, e) == UnitName(kind, 0)
    ensures k.kind == kind
  {
    UnitNameInjective(k.kind, PortOf(e), kind, 0);
  }

  /**
   * AddQueries, once allowed, succeeds exactly if no call fails, and then inserts the source with its
   * sanitised DSN and the UUID of a live instance.
   */
  lemma AddQueriesRefines(was: World, now: World, client: string, address: string, parent: string, reg: Registry,
                          alias: string, q: Source, dsn: string, ok: bool, faultless: bool)
    requires Represents(was, client, parent, reg) && q.Valid() && ServiceName(alias)
    requires CanAddQueries(was, client, address, alias, q)
    requires AddedSomehow(was, now, client, address, parent, alias, q, dsn, ok, faultless)
    ensures ok <==> faultless
    ensures Key(q.Kind(), alias) !in reg
    ensures ok ==> exists uuid ::
      Represents(now, client, parent, reg[Key(q.Kind(), alias) := Entry.Source(SanitizeDSN(dsn), uuid)])
  {
    var b, uuid :| AddOutcome(was, now, client, address, parent, alias, q, dsn, b, uuid, ok, faultless);
    hide Represents, SanitizeDSN, UnitName, ServiceID, GloballyUnique, Acquired, Monitored, TagsOf, Subsystem,
      ValidEntry;
    UniqueIsNew(was, client, address, parent, reg, q.Kind(), alias);
    BaseIsShared(was, client, parent, reg, q, b);
    SourceIsValid(q, alias, SanitizeDSN(dsn), uuid);
    if ok {
      AddQueriesInserts(was, client, address, parent, reg, Key(q.Kind(), alias), SanitizeDSN(dsn), uuid, b.tags,
                        now.instances);
    }
  }

  lemma AcquiredIsLive(was: map<string, Instance>, now: map<string, Instance>, u: string, alias: string, q: Source,
                       parent: string)
    requires q.Valid() && Acquired(was, now, u, q.instanceType, alias, parent)
    ensures Live(now, u, parent) && KeyOfInstance(now[u]) == Key(q.Kind(), alias)
  {
    KnownQueries(q.name);
    hide QueriesKind, PlainKind, RoleOf;
    assert q.Kind() in SvcTypes by { SourceIsValid(q, "x", "", ""); }
    SubsystemInverse(q.Kind());
  }

  lemma LiveHasEntry(w: World, client: string, parent: string, reg: Registry, u: string, k: Key)
    requires Represents(w, client, parent, reg) && Live(w.instances, u, parent) && KeyOfInstance(w.instances[u]) == k
    ensures k in reg && reg[k].Source? && reg[k].uuid == u
  {
    hide CatalogAgrees, UnitsAgree, KeysAgree, ValidRegistry, KeyOfInstance, IsSourceType;
    assert Expected(reg, u, w.instances[u]);
  }

  lemma LiveIsExpected(w: World, client: string, parent: string, reg: Registry, u: string)
    requires Represents(w, client, parent, reg) && Live(w.instances, u, parent)
    ensures KeyOfInstance(w.instances[u]) in reg
  {
    hide ServiceID, IsSourceType, CatalogAgrees, UnitsAgree, KeysAgree, ValidRegistry;
    assert Expected(reg, u, w.instances[u]);
  }

  lemma EntryIsLive(w: World, client: string, parent: string, reg: Registry, k: Key)
    requires Represents(w, client, parent, reg) && k in reg && reg[k].Source?
    ensures Live(w.instances, reg[k].uuid, parent) && KeyOfInstance(w.instances[reg[k].uuid]) == k
  {
    hide CatalogAgrees, UnitsAgree, KeysAgree, ValidRegistry, KeyOfInstance, IsSourceType;
    assert Analysed(w.instances, parent, k, reg[k]);
  }

  lemma UuidIsStored(kv: map<string, string>, client: string, reg: Registry, k: Key)
    requires KeysAgree(kv, client, reg) && k in reg && reg[k].Source?
    ensures
      var key := UuidKey(client, IdOf(k, reg[k]), k.alias, NameOf(k.kind));
      key in kv && kv[key] == reg[k].uuid
  {
    SubsDiffer(k.alias, NameOf(k.kind));
    hide ServiceID, DsnSub, UuidSub, Dir, NameOf, KeysAgree;
    var dir, sub := Dir(client, IdOf(k, reg[k])), UuidSub(k.alias, NameOf(k.kind));
    var key := UuidKey(client, IdOf(k, reg[k]), k.alias, NameOf(k.kind));
    assert key == dir + sub && key[|dir|..] == sub;
    assert IsKeyOf(client, key, k, reg) && ValueAt(client, key, k, reg) == reg[k].uuid;
    KeyIsThere(kv, client, reg, key, k);
  }

  lemma KeyIsThere(kv: map<string, string>, client: string, reg: Registry, key: string, k: Key)
    requires KeysAgree(kv, client, reg) && IsKeyOf(client, key, k, reg)
    ensures key in kv && kv[key] == ValueAt(client, key, k, reg)
  {
    hide IsKeyOf, ValueAt;
  }

  /** A represented source has its service, its local service, its stored UUID and its instance. */
  lemma SourceIsRemovable(w: World, client: string, parent: string, reg: Registry, k: Key)
    requires Represents(w, client, parent, reg) && k in reg && reg[k].Source?
    ensures
      var id := IdOf(k, reg[k]);
      && id in w.Services(client)
      && w.Services(client)[id].kind == k.kind
      && CanRemoveSource(w, client, id, UnitName(k.kind, w.Services(client)[id].port), k.alias, NameOf(k.kind))
      && StoredUuid(w, client, id, k.alias, NameOf(k.kind)) == reg[k].uuid
  {
    ServiceOfEntry(w, client, parent, reg, k);
    EntryHasUnit(w, client, parent, reg, k);
    Parts(w, client, parent, reg);
    hide Represents, ServiceID, UnitName, CatalogAgrees, UnitsAgree, KeysAgree, ValidRegistry, UuidKey, NameOf;
    assert Analysed(w.instances, parent, k, reg[k]);
    UuidIsStored(w.kv, client, reg, k);
  }

  /** No UUID is stored for an empty alias. */
  lemma NoNamelessUuid(w: World, client: string, parent: string, reg: Registry, k: Key, name: string)
    requires Represents(w, client, parent, reg) && k in reg && reg[k].Source?
    ensures UuidKey(client, IdOf(k, reg[k]), "", name) !in w.kv
  {
    hide Represents, CatalogAgrees, UnitsAgree, InstancesAgree, ServiceID, ValidEntry, SvcTypes, PlainKind, IsQueries;
    Parts(w, client, parent, reg);
    ValidOf(w, client, parent, reg, k);
    SlashFree(k, reg[k]);
    var dir, key := Dir(client, IdOf(k, reg[k])), UuidKey(client, IdOf(k, reg[k]), "", name);
    assert key == dir + UuidSub("", name) && key[|dir|] == '/';
    if key in w.kv {
      assert client + "/" <= dir;
      var k' :| IsKeyOf(client, key, k', reg);
      KeyInOneDir(client, IdOf(k, reg[k]), key, k', reg);
      SameId(reg, k, k');
      ValidOf(w, client, parent, reg, k');
      SlashFree(k', reg[k']);
      DataBeginsWithAlias(k', reg[k'], key[|dir|..]);
    }
  }

  lemma SlashFree(k: Key, e: Entry)
    requires ValidEntry(k, e)
    ensures '/' !in k.alias && k.alias != "" && '/' !in IdOf(k, e)
  {
    ServiceIDHasNoSlash(k.kind, PortOf(e));
  }

  lemma DataBeginsWithAlias(k: Key, e: Entry, sub: string)
    requires e.Source? && '/' !in k.alias && k.alias != "" && sub in DataOf(k, e)
    ensures sub != "" && sub[0] != '/'
  {
    assert k.alias[0] in k.alias;
    assert DsnSub(k.alias)[0] == k.alias[0] && UuidSub(k.alias, NameOf(k.kind))[0] == k.alias[0];
  }

  /**
   * RemoveQueries finds a source exactly if one of the name is in the registry. It succeeds exactly if it is
   * given a name and no call fails, and then deletes that source.
   */
  lemma RemoveQueriesRefines(was: World, now: World, client: string, address: string, parent: string, reg: Registry,
                             name: string, alias: string, ok: bool, faultless: bool)
    requires Represents(was, client, parent, reg) && KnownName(name)
    ensures Monitored(was.Services(client), QueriesKind(name), alias) <==> HasNamed(reg, QueriesKind(name), alias)
    ensures RemovedASource(was, now, client, address, QueriesKind(name), alias, name, ok, faultless) ==>
      && (ok <==> faultless && alias != "")
      && (ok ==> Key(QueriesKind(name), alias) in reg &&
                 Represents(now, client, parent, reg - {Key(QueriesKind(name), alias)}))
  {
    var kind := QueriesKind(name);
    KnownQueries(name);
    hide Represents, CanRemoveSource, StoredUuid, RemovedQueries, ValidEntry, ServiceID, UnitName, NameOf, AliasTag,
      Matches, RoleOf, PlainKind, KnownName, QueriesKind, UuidKey;
    Parts(was, client, parent, reg);
    LookupFindsNamed(was, client, parent, reg, kind, alias);
    if RemovedASource(was, now, client, address, kind, alias, name, ok, faultless) {
      var id :| id in was.Services(client) && Matches(was.Services(client)[id], kind, alias) &&
        RemoveSourceOutcome(was, now, client, address, id, alias, name, ok, faultless);
      var k := MatchHasEntry(was.Services(client), reg, id, kind, alias);
      ValidOf(was, client, parent, reg, k);
      EntryRole(k, reg[k]);
      if alias == "" {
        NoNamelessUuid(was, client, parent, reg, k, name);
        NeedsUuid(was, client, id, UnitName(was.Services(client)[id].kind, was.Services(client)[id].port), alias, name);
      } else {
        assert k == Key(kind, alias);
        SourceIsRemovable(was, client, parent, reg, k);
        if ok {
          RemoveQueriesDeletes(was, client, address, parent, reg, k, was.Services(client)[id]);
        }
      }
    }
  }

  lemma NeedsUuid(w: World, client: string, id: string, unit: string, alias: string, name: string)
    requires UuidKey(client, id, alias, name) !in w.kv
    ensures !CanRemoveSource(w, client, id, unit, alias, name)
  {
  }
}
