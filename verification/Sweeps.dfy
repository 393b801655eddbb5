/**
 * Removals that go on after failures. Whatever fails, what is left in the end are at most as many entries of the
 * registry as removals had a failing call.
 */
module Sweeps {
  import opened Stores
  import opened Registry
  import opened Transitions
  import opened QueryTransitions
  import opened Monitor
  import opened Lookup
  import opened Metrics
  import opened Queries
  import opened Refinement
  import opened Runs
  import opened Failures
  import opened GatedRuns
  import Stuck

  /** One removal, tried wherever there is something to remove; calm if none of its calls failed. */
  ghost predicate Tries(c: Command, was: World, now: World, config: Config, calm: bool) {
    var client, services := config.clientName, was.Services(config.clientName);
    match c
    case RemoveExporter(name, alias) =>
      if Monitored(services, MetricsKind(name), alias)
      then exists ok :: RemovedAMatch(was, now, client, MetricsKind(name), alias, ok, calm)
      else now == was
    case RemoveSource(name, alias) =>
      if Monitored(services, QueriesKind(name), alias)
      then exists ok ::
        RemovedASource(was, now, client, config.clientAddress, QueriesKind(name), alias, name, ok, calm)
      else now == was
    case AddExporter(_, _, _, _, _) => false
    case AddSource(_, _) => false
  }

  lemma TriesIsAttempt(c: Command, was: World, now: World, config: Config, parent: string, calm: bool)
    requires Tries(c, was, now, config, calm)
    ensures !c.Adds() && Attempts(c, was, now, config, parent)
  {
    hide RemovedAMatch, RemovedASource, Monitored, MetricsKind, QueriesKind;
  }

  /** What a removal with a name is to remove. */
  function Named(c: Command): Key
    requires !c.Adds()
  {
    match c
    case RemoveExporter(name, alias) => Key(MetricsKind(name), alias)
    case RemoveSource(name, alias) => Key(QueriesKind(name), alias)
  }

  /** No service of the kind is tagged with the alias. */
  predicate Unclaimed(services: map<string, Service>, k: Key) {
    forall id | id in services :: !Claims(services[id], k.kind, k.alias)
  }

  lemma UnclaimedMeans(services: map<string, Service>, reg: Registry, k: Key)
    requires CatalogAgrees(services, reg)
    ensures Unclaimed(services, k) <==> k !in reg
  {
    hide ServiceID, AliasTag, IsAliasTag;
    if k in reg {
      assert Served(services, k, reg[k]);
      CarriesTag(services[IdOf(k, reg[k])], k, reg[k]);
    }
    hide CatalogAgrees, Claims;
    if !Unclaimed(services, k) {
      var id :| id in services && Claims(services[id], k.kind, k.alias);
      ClaimHasEntry(services, reg, id, k.kind, k.alias);
    }
  }

  // ---------- one removal ----------

  /** Services go, or lose tags; nothing is added. */
  predicate Shrunk(services: map<string, Service>, services': map<string, Service>) {
    forall id | id in services' ::
      id in services && services'[id].kind == services[id].kind &&
      forall t | t in services'[id].tags :: t in services[id].tags
  }

  lemma ShrunkClaims(services: map<string, Service>, services': map<string, Service>, k: Key)
    requires Shrunk(services, services') && Unclaimed(services, k)
    ensures Unclaimed(services', k)
  {
    hide AliasTag;
    forall id | id in services'
      ensures !Claims(services'[id], k.kind, k.alias)
    {
      assert !Claims(services[id], k.kind, k.alias);
    }
  }

  lemma RemovalShrinks(c: Command, was: World, now: World, config: Config, calm: bool)
    requires Tries(c, was, now, config, calm)
    ensures Shrunk(was.Services(config.clientName), now.Services(config.clientName))
    ensures was.instances.Keys <= now.instances.Keys
  {
    hide UnitName, Matches, MetricsKind, QueriesKind, Dir, DeleteTree, OtherAliases, RemoveSourceOutcome, Monitored,
      UuidKey;
    var client, services := config.clientName, was.Services(config.clientName);
    if now == was { return; }
    if c.RemoveExporter? {
      var ok :| RemovedAMatch(was, now, client, MetricsKind(c.name), c.alias, ok, calm);
      var id :| id in services && RemoveOutcome(was, now, client, id, ok, calm);
      assert RemoveOutcome(was, now, client, id, ok, calm);
      RemovedMetricsStores(was, client, id, services[id].kind, services[id].port);
      SameCatalogs(was, now, RemovedMetrics(was, client, id, services[id].kind, services[id].port), client);
    } else {
      var ok :|
        RemovedASource(was, now, client, config.clientAddress, QueriesKind(c.name), c.alias, c.name, ok, calm);
      var id :| id in services &&
        RemoveSourceOutcome(was, now, client, config.clientAddress, id, c.alias, c.name, ok, calm);
      Stuck.RemovalKeeps(was, now, client, config.clientAddress, id, c.alias, c.name, ok, calm);
      RemovalRecords(was, now, client, config.clientAddress, id, c.alias, c.name, ok, calm);
      TagsShrink(services[id].tags, c.alias);
    }
  }

  lemma TagsShrink(tags: seq<string>, alias: string)
    ensures forall t | t in OtherAliases(tags, alias) :: t in tags
    ensures AliasTag(alias) !in OtherAliases(tags, alias)
  {
    hide AliasTag, IsAliasTag, OtherAliases;
    forall t | t in OtherAliases(tags, alias)
      ensures t in tags && t != AliasTag(alias)
    {
      OtherAliasesMembers(tags, alias, t);
    }
  }

  /** Without a failure, an exporter that is complete goes. */
  lemma CalmExporterGoes(c: Command, was: World, now: World, config: Config, reg: Registry)
    requires c.RemoveExporter? && c.Valid() && c.alias != "" && Tries(c, was, now, config, true)
    requires CatalogAgrees(was.Services(config.clientName), reg) && ValidRegistry(reg)
    requires Named(c) in reg && UnitOf(Named(c), reg[Named(c)]) in was.units
    ensures Unclaimed(now.Services(config.clientName), Named(c))
  {
    hide ServiceID, UnitName, Matches, MetricsKind, KnownName, CatalogAgrees, ValidRegistry, RemovedMetrics, AliasTag;
    var client, services, k := config.clientName, was.Services(config.clientName), Named(c);
    LookupFindsEntry(services, reg, k.kind, k.alias);
    ServiceAt(services, reg, k);
    var id := IdOf(k, reg[k]);
    assert Monitored(services, k.kind, k.alias);
    var ok :| RemovedAMatch(was, now, client, k.kind, c.alias, ok, true);
    var id' :| id' in services && Matches(services[id'], k.kind, c.alias) &&
      RemoveOutcome(was, now, client, id', ok, true);
    assert id' == id && RemoveOutcome(was, now, client, id, ok, true);
    RemovedMetricsStores(was, client, id, services[id].kind, services[id].port);
    OnlyClaim(services, reg, k);
    forall i | i in now.Services(client)
      ensures !Claims(now.Services(client)[i], k.kind, k.alias)
    {
      assert i in services && i != id;
    }
  }

  /** Only the entry's own service claims its alias. */
  lemma OnlyClaim(services: map<string, Service>, reg: Registry, k: Key)
    requires CatalogAgrees(services, reg) && k in reg
    ensures forall id | id in services && Claims(services[id], k.kind, k.alias) :: id == IdOf(k, reg[k])
  {
    hide CatalogAgrees, ServiceID, Claims;
    forall id | id in services && Claims(services[id], k.kind, k.alias)
      ensures id == IdOf(k, reg[k])
    {
      ClaimHasEntry(services, reg, id, k.kind, k.alias);
    }
  }

  /** Without a failure, a query source that is complete goes. */
  lemma CalmSourceGoes(c: Command, was: World, now: World, config: Config, reg: Registry)
    requires c.RemoveSource? && c.Valid() && c.alias != "" && Tries(c, was, now, config, true)
    requires CatalogAgrees(was.Services(config.clientName), reg) && ValidRegistry(reg)
    requires Named(c) in reg && UnitOf(Named(c), reg[Named(c)]) in was.units
    requires HasKeys(was.kv, config.clientName, Named(c), reg[Named(c)])
    requires reg[Named(c)].Source? && reg[Named(c)].uuid in was.instances
    ensures Unclaimed(now.Services(config.clientName), Named(c))
  {
    hide ServiceID, UnitName, Matches, QueriesKind, KnownName, CatalogAgrees, ValidRegistry, RemovedQueries, AliasTag,
      CanRemoveSource, OtherAliases, HasKeys, UuidKey, StoredUuid, RemoveSourceOutcome;
    var client, services, k := config.clientName, was.Services(config.clientName), Named(c);
    LookupFindsEntry(services, reg, k.kind, k.alias);
    ServiceAt(services, reg, k);
    var id := IdOf(k, reg[k]);
    assert Monitored(services, k.kind, k.alias);
    var ok :| RemovedASource(was, now, client, config.clientAddress, k.kind, c.alias, c.name, ok, true);
    var id' :| id' in services && Matches(services[id'], k.kind, c.alias) &&
      RemoveSourceOutcome(was, now, client, config.clientAddress, id', c.alias, c.name, ok, true);
    assert id' == id && RemoveSourceOutcome(was, now, client, config.clientAddress, id, c.alias, c.name, ok, true);
    SourceIsComplete(was, client, reg, k, c.name);
    CalmRemovalIsFull(was, now, client, config.clientAddress, id, c.alias, c.name, ok);
    OnlyClaim(services, reg, k);
    TagsShrink(services[id].tags, c.alias);
    forall i | i in now.Services(client)
      ensures !Claims(now.Services(client)[i], k.kind, k.alias)
    {
      assert i in services;
    }
  }

  lemma SourceIsComplete(w: World, client: string, reg: Registry, k: Key, name: string)
    requires CatalogAgrees(w.Services(client), reg) && k in reg && reg[k].Source? && UnitOf(k, reg[k]) in w.units
    requires HasKeys(w.kv, client, k, reg[k]) && reg[k].uuid in w.instances
    requires k.kind == QueriesKind(name) && KnownName(name)
    ensures
      var id := IdOf(k, reg[k]);
      id in w.Services(client) &&
      CanRemoveSource(w, client, id, UnitOfService(w.Services(client)[id]), k.alias, name)
  {
    hide ServiceID, UnitName, CatalogAgrees, Dir, QueriesKind, KnownName, PlainKind, DsnSub, UuidSub, RoleOf;
    ServiceAt(w.Services(client), reg, k);
    KnownQueries(name);
    SubsDiffer(k.alias, name);
    var sub := UuidSub(k.alias, name);
    assert sub in DataOf(k, reg[k]) && DataOf(k, reg[k])[sub] == reg[k].uuid;
    assert DataKey(client, k, reg[k], sub) == UuidKey(client, IdOf(k, reg[k]), k.alias, name);
  }

  lemma CalmRemovalIsFull(was: World, now: World, client: string, address: string, id: string, alias: string,
                          name: string, ok: bool)
    requires RemoveSourceOutcome(was, now, client, address, id, alias, name, ok, true)
    requires CanRemoveSource(was, client, id, UnitOfService(was.Services(client)[id]), alias, name)
    ensures
      var svc := was.Services(client)[id];
      var tags := OtherAliases(svc.tags, alias);
      now.Services(client) ==
        if tags == [] then was.Services(client) - {id} else was.Services(client)[id := svc.(tags := tags)]
  {
    hide UnitName, RemovedQueries, OtherAliases, CanRemoveSource, StoredUuid;
    RemovedQueriesStores(was, client, address, id, was.Services(client)[id], alias,
                         StoredUuid(was, client, id, alias, name));
  }

  // ---------- several ----------

  /**
   * Part way through: some registry agrees with the catalog; what is still to come is in it as it was at first, and
   * complete; what has been dealt with is not, unless it was missed.
   */
  ghost predicate Swept(reg: Registry, origin: World, now: World, client: string, left: set<Key>, missed: set<Key>) {
    exists reg', events :: SweptTo(reg, origin, now, client, left, missed, reg', events)
  }

  ghost predicate SweptTo(reg: Registry, origin: World, now: World, client: string, left: set<Key>, missed: set<Key>,
                          reg': Registry, events: seq<Event>)
  {
    && Sound(now, client, reg', events) && Conserves(reg, reg', events)
    && (forall k | k in left :: !Touched(events, k))
    && (forall k | k in reg' :: k in left || k in missed)
    && origin.instances.Keys <= now.instances.Keys
  }

  lemma SweptAtFirst(w: World, client: string, parent: string, reg: Registry, keys: set<Key>)
    requires Represents(w, client, parent, reg)
    ensures Swept(reg, w, w, client, reg.Keys + keys, {})
  {
    hide Represents, Sound, Conserves;
    RepresentedIsSound(w, client, parent, reg);
    NoneTouched(reg);
    assert SweptTo(reg, w, w, client, reg.Keys + keys, {}, reg, []);
  }

  /** Whatever is to be removed, it goes unless one of the calls fails. */
  lemma CalmRemovalClears(c: Command, origin: World, was: World, now: World, config: Config, parent: string,
                          reg: Registry, reg': Registry, events: seq<Event>)
    requires c.Valid() && !c.Adds() && Named(c).alias != "" && Tries(c, was, now, config, true)
    requires Represents(origin, config.clientName, parent, reg)
    requires Sound(was, config.clientName, reg', events) && Conserves(reg, reg', events) && !Touched(events, Named(c))
    requires origin.instances.Keys <= was.instances.Keys
    ensures Unclaimed(now.Services(config.clientName), Named(c))
  {
    hide Represents, ValidRegistry, CatalogAgrees, UnitOf, HasKeys, Unclaimed, Tries, MetricsKind, QueriesKind,
      KnownName,
      Touched;
    var k := Named(c);
    if k in reg' {
      assert Intact(was, config.clientName, k, reg'[k], false);
      if c.RemoveExporter? {
        CalmExporterGoes(c, was, now, config, reg');
      } else {
        QueriesEntry(reg', k, c.name);
        assert k in reg && reg[k] == reg'[k];
        EntryIsLive(origin, config.clientName, parent, reg, k);
        CalmSourceGoes(c, was, now, config, reg');
      }
    } else {
      UnclaimedMeans(was.Services(config.clientName), reg', k);
      RemovalShrinks(c, was, now, config, true);
      ShrunkClaims(was.Services(config.clientName), now.Services(config.clientName), k);
    }
  }

  lemma ConcernsOnly(c: Command, k: Key)
    requires !c.Adds() && Named(c).alias != ""
    ensures Touches(Tried(c), k) <==> k == Named(c)
  {
    hide MetricsKind, QueriesKind;
  }

  /** What is not in the registry does not come back by removing. */
  lemma NothingComesBack(services: map<string, Service>, services': map<string, Service>, reg: Registry, reg': Registry)
    requires CatalogAgrees(services, reg) && CatalogAgrees(services', reg') && Shrunk(services, services')
    ensures forall k | k in reg' :: k in reg
  {
    hide CatalogAgrees, Unclaimed, Shrunk;
    forall k | k in reg'
      ensures k in reg
    {
      UnclaimedMeans(services', reg', k);
      UnclaimedMeans(services, reg, k);
      if k !in reg {
        ShrunkClaims(services, services', k);
      }
    }
  }

  /** One removal further. */
  lemma OneMoreSwept(c: Command, origin: World, was: World, now: World, config: Config, parent: string, reg: Registry,
                     left: set<Key>, missed: set<Key>, calm: bool)
    requires Represents(origin, config.clientName, parent, reg)
    requires c.Valid() && !c.Adds() && Named(c).alias != "" && Tries(c, was, now, config, calm)
    requires Named(c) in left && Swept(reg, origin, was, config.clientName, left, missed)
    ensures Swept(reg, origin, now, config.clientName, left - {Named(c)},
                  if calm then missed else missed + {Named(c)})
  {
    hide Represents, Sound, Conserves, Attempts, Tries, Named, Unclaimed, Touched, Touches, Command.Valid, Shrunk,
      CatalogAgrees, ValidRegistry;
    var client, k := config.clientName, Named(c);
    var reg', events :| SweptTo(reg, origin, was, client, left, missed, reg', events);
    TriesIsAttempt(c, was, now, config, parent, calm);
    var reg'' := EventSound(Tried(c), was, now, config, parent, reg', events);
    ConservesBoth(reg, reg', reg'', events, Tried(c));
    RemovalShrinks(c, was, now, config, calm);
    if calm {
      CalmRemovalClears(c, origin, was, now, config, parent, reg, reg', events);
    }
    SoundCatalog(was, client, reg', events);
    SoundCatalog(now, client, reg'', events + [Tried(c)]);
    var missed' := if calm then missed else missed + {k};
    NothingComesBack(was.Services(client), now.Services(client), reg', reg'');
    UnclaimedMeans(now.Services(client), reg'', k);
    forall k' | k' in left - {k}
      ensures !Touched(events + [Tried(c)], k')
    {
      TouchedMore(events, Tried(c), k');
      ConcernsOnly(c, k');
    }
    assert SweptTo(reg, origin, now, client, left - {k}, missed', reg'', events + [Tried(c)]);
  }

  lemma SoundCatalog(w: World, client: string, reg: Registry, events: seq<Event>)
    requires Sound(w, client, reg, events)
    ensures CatalogAgrees(w.Services(client), reg) && ValidRegistry(reg)
  {
    hide CatalogAgrees, ValidRegistry, Intact;
  }

  /**
   * The catalog agrees with a registry that has every entry but those of some keys, as it was, and at most n of
   * those keys.
   */
  ghost predicate LeavesAtMost(services: map<string, Service>, reg: Registry, keys: set<Key>, n: nat) {
    exists rest: Registry ::
      && CatalogAgrees(services, rest) && ValidRegistry(rest)
      && (forall k | k in reg && k !in keys :: k in rest && rest[k] == reg[k])
      && (forall k | k in rest :: k in keys || k in reg)
      && |rest.Keys * keys| <= n
  }

  lemma LeavesAtMostMore(services: map<string, Service>, reg: Registry, keys: set<Key>, n: nat, m: nat)
    requires LeavesAtMost(services, reg, keys, n) && n <= m
    ensures LeavesAtMost(services, reg, keys, m)
  {
    hide CatalogAgrees, ValidRegistry;
  }

  /** In the end the catalog agrees with a registry of what was missed and of what was not to be removed. */
  lemma SweptPart(origin: World, now: World, client: string, reg: Registry, keys: set<Key>, missed: set<Key>, n: nat)
    requires Swept(reg, origin, now, client, reg.Keys - keys, missed) && |missed| <= n && missed <= keys
    ensures LeavesAtMost(now.Services(client), reg, keys, n)
  {
    hide Sound, Conserves, Touched, CatalogAgrees, ValidRegistry;
    var reg', events :| SweptTo(reg, origin, now, client, reg.Keys - keys, missed, reg', events);
    assert SweptTo(reg, origin, now, client, reg.Keys - keys, missed, reg', events);
    SoundCatalog(now, client, reg', events);
    forall k | k in reg && k !in keys
      ensures k in reg' && reg'[k] == reg[k]
    {
      assert k in reg.Keys - keys && !Touched(events, k);
      StillThere(reg, reg', events, k);
    }
    SubsetSize(reg'.Keys * keys, missed);
  }

  lemma StillThere(reg: Registry, reg': Registry, events: seq<Event>, k: Key)
    requires Conserves(reg, reg', events) && k in reg && !Touched(events, k)
    ensures k in reg' && reg'[k] == reg[k]
  {
    hide Touched;
  }
}
