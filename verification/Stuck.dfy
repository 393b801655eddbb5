/**
 * The state that no query command gets out of: an alias is registered and its local service installed, but the
 * UUID of its instance is not stored. Which failures of AddQueries and RemoveQueries end there, what repair
 * makes of the other ones, and what the state survives.
 */
module Stuck {
  import opened Strings
  import opened Stores
  import opened Registry
  import opened Transitions
  import opened QueryTransitions
  import opened Monitor
  import opened Lookup
  import opened Sanitize
  import opened Qan
  import opened Metrics
  import opened Queries
  import opened Refinement
  import opened Runs
  import opened Repair
  import opened Failures
  import opened Recovery

  /** The one service of a queries kind, with the alias among its tags. */
  ghost predicate Tagged(services: map<string, Service>, kind: string, alias: string) {
    var id := ServiceID(kind, 0);
    && WellNamed(services)
    && id in services && services[id].kind == kind && services[id].port == 0 && AliasTag(alias) in services[id].tags
    && forall i | i in services && services[i].kind == kind :: i == id
  }

  ghost predicate Stuck(w: World, client: string, kind: string, alias: string) {
    && '/' !in client && PlainKind(kind) && IsQueries(kind) && alias != "" && '/' !in alias
    && Tagged(w.Services(client), kind, alias)
    && UnitName(kind, 0) in w.units
    && UuidKey(client, ServiceID(kind, 0), alias, NameOf(kind)) !in w.kv
  }

  // ---------- what is refused ----------

  /** Adding the alias again is a duplicate; removing it fails whatever its calls do, and touches no other store. */
  lemma StuckIsRefused(w: World, client: string, kind: string, alias: string)
    requires Stuck(w, client, kind, alias)
    ensures forall address, q: Source | q.Kind() == kind :: !CanAddQueries(w, client, address, alias, q)
    ensures forall now, address, ok, faultless | RemovedASource(w, now, client, address, kind, alias, NameOf(kind), ok,
                                                                faultless) ::
      !ok && now == w.(units := now.units) && now.units.Keys == w.units.Keys
  {
    hide ServiceID, UnitName, NameOf, PlainKind, IsQueries, WellNamed, UuidKey, AliasTag, RemovedQueries;
    var services, id := w.Services(client), ServiceID(kind, 0);
    assert Matches(services[id], kind, alias);
    forall now, address, ok, faultless | RemovedASource(w, now, client, address, kind, alias, NameOf(kind), ok,
                                                        faultless)
      ensures !ok && now == w.(units := now.units) && now.units.Keys == w.units.Keys
    {
      var i :| i in services && Matches(services[i], kind, alias) &&
        RemoveSourceOutcome(w, now, client, address, i, alias, NameOf(kind), ok, faultless);
      StuckRemoval(w, now, client, address, i, alias, NameOf(kind), ok, faultless);
    }
  }

  lemma StuckRemoval(was: World, now: World, client: string, address: string, id: string, alias: string, name: string,
                     ok: bool, faultless: bool)
    requires RemoveSourceOutcome(was, now, client, address, id, alias, name, ok, faultless)
    requires UuidKey(client, id, alias, name) !in was.kv
    requires UnitOfService(was.Services(client)[id]) in was.units
    ensures !ok && now == was.(units := now.units) && now.units.Keys == was.units.Keys
  {
    hide ServiceID, UnitName, UuidKey, RemovedQueries;
  }

  // ---------- how it is reached ----------

  /** Catalog and units that agree with a registry leave nothing to report. */
  lemma AgreementHidesNothing(w: World, client: string, reg: Registry)
    requires CatalogAgrees(w.Services(client), reg) && UnitsAgree(w.units, reg) && ValidRegistry(reg)
    ensures Disagreement(w, client) == {}
  {
    hide ServiceID, UnitName, ValidRegistry;
    var services := w.Services(client);
    forall u | u in Wanted(services)
      ensures u in w.units
    {
      var id :| id in services && UnitOfService(services[id]) == u;
      var k := IdHasEntry(services, reg, id);
      assert Served(services, k, reg[k]);
    }
    forall u | u in w.units
      ensures u in Wanted(services)
    {
      var k :| IsUnitOf(u, k, reg);
      assert Served(services, k, reg[k]);
      assert UnitOfService(services[IdOf(k, reg[k])]) == u;
    }
  }

  /** In a represented state a source that is not registered has no stored UUID. */
  lemma NoUuidYet(w: World, client: string, parent: string, reg: Registry, k: Key)
    requires Represents(w, client, parent, reg) && k !in reg && ValidEntry(k, Entry.Source("", ""))
    ensures UuidKey(client, ServiceID(k.kind, 0), k.alias, NameOf(k.kind)) !in w.kv
  {
    hide Represents, ValidEntry, ServiceID, UuidSub, NameOf, Dir;
    var e := Entry.Source("", "");
    var key := UuidKey(client, ServiceID(k.kind, 0), k.alias, NameOf(k.kind));
    SourceNames(k, e);
    Parts(w, client, parent, reg);
    SourceKeysApart(client, reg, k, e);
    UuidIsUnderAlias(client, k, e);
    if key in w.kv {
      var _ := KeyHasOwner(w, client, parent, reg, key);
    }
  }

  lemma UuidIsUnderAlias(client: string, k: Key, e: Entry)
    requires e.Source?
    ensures
      var key := UuidKey(client, ServiceID(k.kind, 0), k.alias, NameOf(k.kind));
      Dir(client, IdOf(k, e)) + k.alias + "/" <= key && Dir(client, IdOf(k, e)) <= key
  {
    hide ServiceID, Dir, NameOf;
    var dir, tail := Dir(client, IdOf(k, e)), "qan_" + NameOf(k.kind) + "_uuid";
    assert UuidKey(client, ServiceID(k.kind, 0), k.alias, NameOf(k.kind)) == dir + k.alias + "/" + tail;
  }

  lemma KeyHasOwner(w: World, client: string, parent: string, reg: Registry, key: string) returns (k: Key)
    requires Represents(w, client, parent, reg) && key in w.kv && exists id :: Dir(client, id) <= key
    ensures IsKeyOf(client, key, k, reg)
  {
    hide IsKeyOf, CatalogAgrees, UnitsAgree, InstancesAgree, ValidRegistry;
    var id :| Dir(client, id) <= key;
    DirIsBelow(client, id, key);
    k :| IsKeyOf(client, key, k, reg);
  }

  lemma AllowedIsNew(w: World, client: string, address: string, parent: string, reg: Registry, alias: string, q: Source)
    requires Represents(w, client, parent, reg) && CanAddQueries(w, client, address, alias, q)
    ensures Key(q.Kind(), alias) !in reg
  {
    hide Represents, GloballyUnique;
    UniqueIsNew(w, client, address, parent, reg, q.Kind(), alias);
  }

  /** Where catalog and units agree with a registry, each of its sources has the one service of its kind. */
  lemma SourceIsTagged(w: World, client: string, reg: Registry, k: Key)
    requires CatalogAgrees(w.Services(client), reg) && UnitsAgree(w.units, reg) && ValidRegistry(reg)
    requires k in reg && reg[k].Source?
    ensures Tagged(w.Services(client), k.kind, k.alias) && UnitName(k.kind, 0) in w.units
    ensures PlainKind(k.kind) && IsQueries(k.kind) && k.alias != "" && '/' !in k.alias
  {
    hide ServiceID, UnitName, SvcTypes, PlainKind, IsQueries, WellNamed, AliasTag, HasAliases;
    var services := w.Services(client);
    AgreedIsWellNamed(services, reg);
    assert Served(services, k, reg[k]) && ValidEntry(k, reg[k]);
    forall i | i in services && services[i].kind == k.kind
      ensures i == ServiceID(k.kind, 0)
    {
      var k' := IdHasEntry(services, reg, i);
      assert ValidEntry(k', reg[k']);
    }
  }

  /** Catalog and local services once an alias is registered, whatever keys are written. */
  lemma JoinedStores(w: World, now: World, client: string, address: string, parent: string, reg: Registry,
                     alias: string,
                     q: Source, b: Base, dsn: string, uuid: string)
    requires Represents(w, client, parent, reg) && q.Valid() && ServiceName(alias) && Key(q.Kind(), alias) !in reg
    requires IsBase(w.Services(client), q.Kind(), b)
    requires
      var full := FullyAddedSource(w, client, address, alias, q, b, dsn, uuid, now.instances);
      now.catalog == full.catalog && now.units == full.units
    ensures b.port == 0
    ensures
      var reg' := reg[Key(q.Kind(), alias) := Entry.Source(SanitizeDSN(dsn), uuid)];
      CatalogAgrees(now.Services(client), reg') && UnitsAgree(now.units, reg') && ValidRegistry(reg')
  {
    hide *;
    var k, e := Key(q.Kind(), alias), Entry.Source(SanitizeDSN(dsn), uuid);
    Parts(w, client, parent, reg);
    BaseIsShared(w, client, parent, reg, q, b);
    SourceIsValid(q, alias, SanitizeDSN(dsn), uuid);
    SourceNames(k, e);
    ValidPut(w.Services(client), reg, k, e);
    CatalogAddSource(w.Services(client), reg, k, e, b.tags);
    UnitsPut(w.units, reg, k, e, true);
    AddedQueriesStores(w, client, address, k, b.tags, SanitizeDSN(dsn), uuid, now.instances);
    FullIsAdded(w, client, address, alias, q, b, dsn, uuid, now.instances);
    SameCatalog(now, AddedQueries(w, client, address, k, 0, b.tags, SanitizeDSN(dsn), uuid, now.instances), client);
  }

  lemma FullIsAdded(w: World, client: string, address: string, alias: string, q: Source, b: Base, dsn: string,
                    uuid: string, instances: map<string, Instance>)
    ensures FullyAddedSource(w, client, address, alias, q, b, dsn, uuid, instances)
      == AddedQueries(w, client, address, Key(q.Kind(), alias), b.port, b.tags, SanitizeDSN(dsn), uuid, instances)
         .(files := WithFile(w.files, instances, uuid, dsn))
  {
    hide AddedQueries, SanitizeDSN, WithFile;
  }

  /** The stage of a failed addition can be read off the catalog. */
  lemma StageOfAddition(was: World, mid: World, client: string, address: string, parent: string, alias: string,
                        q: Source, dsn: string, b: Base, uuid: string, faultless: bool)
    requires AddOutcome(was, mid, client, address, parent, alias, q, dsn, b, uuid, false, faultless)
    ensures IsBase(was.Services(client), q.Kind(), b)
    ensures mid.catalog != was.catalog ==>
      Registered(was, mid, FullyAddedSource(was, client, address, alias, q, b, dsn, uuid, mid.instances),
                 DsnKey(client, q, b, alias), SanitizeDSN(dsn))
    ensures mid.catalog == was.catalog && !Monitored(was.Services(client), q.Kind(), alias) ==>
      mid.kv == was.kv && UnitStage(was, mid, UnitName(q.Kind(), b.port), b) &&
        InstanceStage(was, mid, parent, q, alias)
  {
    hide UnitName, ServiceID, SanitizeDSN, Acquired, IsBase, FullyAddedSource, Matches, DsnKey, UnitReady;
    var full := FullyAddedSource(was, client, address, alias, q, b, dsn, uuid, mid.instances);
    if Registered(was, mid, full, DsnKey(client, q, b, alias), SanitizeDSN(dsn)) {
      FullyAddedSourceFields(was, client, address, alias, q, b, dsn, uuid, mid.instances);
      RegistrationShows(was, mid, client, address, alias, q, b);
    }
  }

  lemma RegistrationShows(was: World, mid: World, client: string, address: string, alias: string, q: Source, b: Base)
    requires mid.catalog == WithService(was.catalog, client, address, ServiceID(q.Kind(), b.port),
                                        Service(q.Kind(), TagsWith(b.tags, alias), b.port))
    ensures Monitored(mid.Services(client), q.Kind(), alias)
  {
    hide ServiceID, AliasTag;
    var id, tags := ServiceID(q.Kind(), b.port), TagsWith(b.tags, alias);
    assert tags[|b.tags|] == AliasTag(alias);
    assert Matches(mid.Services(client)[id], q.Kind(), alias);
  }

  /**
   * From every represented state, an allowed AddQueries that fails ends in the stuck state exactly if it had
   * come to register the alias; then nothing disagrees, so that the gate stays open.
   */
  lemma AddQueriesGetsStuck(was: World, mid: World, client: string, address: string, parent: string, reg: Registry,
                            alias: string, q: Source, dsn: string, faultless: bool)
    requires Represents(was, client, parent, reg) && q.Valid() && ServiceName(alias)
    requires CanAddQueries(was, client, address, alias, q)
    requires AddedSomehow(was, mid, client, address, parent, alias, q, dsn, false, faultless)
    ensures Stuck(mid, client, q.Kind(), alias) <==> mid.catalog != was.catalog
    ensures mid.catalog != was.catalog ==> Disagreement(mid, client) == {}
  {
    hide ServiceID, UnitName, Tagged, AddOutcome, SanitizeDSN, NameOf, PlainKind, IsQueries, UuidKey, CatalogAgrees,
      UnitsAgree, KeysAgree, InstancesAgree, ValidRegistry, FullyAddedSource, Acquired, IsBase, GloballyUnique,
      Source.Valid, Source.Kind, Disagreement, UnitStage, DsnKey, AliasTag, ServiceName, Matches;
    var b, uuid :| AddOutcome(was, mid, client, address, parent, alias, q, dsn, b, uuid, false, faultless);
    StageOfAddition(was, mid, client, address, parent, alias, q, dsn, b, uuid, faultless);
    AllowedIsNew(was, client, address, parent, reg, alias, q);
    if mid.catalog != was.catalog {
      RegisteredIsStuck(was, mid, client, address, parent, reg, alias, q, b, dsn, uuid);
    } else {
      TaggedIsMonitored(mid.Services(client), q.Kind(), alias);
    }
  }

  lemma TaggedIsMonitored(services: map<string, Service>, kind: string, alias: string)
    ensures Tagged(services, kind, alias) ==> Monitored(services, kind, alias)
  {
    hide ServiceID, AliasTag, WellNamed;
    if Tagged(services, kind, alias) {
      assert Matches(services[ServiceID(kind, 0)], kind, alias);
    }
  }

  lemma RegisteredIsStuck(was: World, mid: World, client: string, address: string, parent: string, reg: Registry,
                          alias: string, q: Source, b: Base, dsn: string, uuid: string)
    requires Represents(was, client, parent, reg) && q.Valid() && ServiceName(alias) && Key(q.Kind(), alias) !in reg
    requires IsBase(was.Services(client), q.Kind(), b)
    requires Registered(was, mid, FullyAddedSource(was, client, address, alias, q, b, dsn, uuid, mid.instances),
                        DsnKey(client, q, b, alias), SanitizeDSN(dsn))
    ensures Stuck(mid, client, q.Kind(), alias) && Disagreement(mid, client) == {}
  {
    hide ServiceID, UnitName, Tagged, SanitizeDSN, NameOf, PlainKind, IsQueries, CatalogAgrees, UnitsAgree, KeysAgree,
      InstancesAgree, ValidRegistry, FullyAddedSource, IsBase, Disagreement, DsnSub, UuidSub, Dir, ServiceName,
      ValidEntry,
      Source.Valid;
    var k, e := Key(q.Kind(), alias), Entry.Source(SanitizeDSN(dsn), uuid);
    JoinedStores(was, mid, client, address, parent, reg, alias, q, b, dsn, uuid);
    AgreementHidesNothing(mid, client, reg[k := e]);
    SourceIsTagged(mid, client, reg[k := e], k);
    SourceIsValid(q, alias, "", "");
    NoUuidYet(was, client, parent, reg, k);
    AliasKeysDiffer(Dir(client, ServiceID(q.Kind(), 0)), alias, NameOf(q.Kind()));
  }

  // ---------- a failed RemoveQueries ----------

  /** What a complete removal of a represented source would come to. */
  function Removal(w: World, client: string, address: string, k: Key, e: Entry): World
    requires e.Source? && IdOf(k, e) in w.Services(client)
  {
    RemovedQueries(w, client, address, IdOf(k, e), w.Services(client)[IdOf(k, e)], k.alias, e.uuid)
  }

  /** The removal of a represented source that failed at some call. */
  ghost predicate FailedRemoval(was: World, mid: World, client: string, address: string, reg: Registry, k: Key) {
    && k in reg && reg[k].Source? && IdOf(k, reg[k]) in was.Services(client)
    && PartlyRemovedSource(was, mid, Removal(was, client, address, k, reg[k]), UnitName(k.kind, 0))
  }

  lemma RemovalFields(w: World, client: string, address: string, parent: string, reg: Registry, k: Key)
    requires Represents(w, client, parent, reg) && k in reg && reg[k].Source?
    ensures IdOf(k, reg[k]) in w.Services(client) && UnitName(k.kind, 0) in w.units
    ensures
      var full := Removal(w, client, address, k, reg[k]);
      && Represents(full, client, parent, reg - {k})
      && full.kv == DeleteTree(w.kv, Dir(client, IdOf(k, reg[k])) + k.alias + "/")
      && full.instances == MarkedDeleted(w.instances, reg[k].uuid)
      && (UnitName(k.kind, 0) !in full.units ==>
            full.units == w.units - {UnitName(k.kind, 0)} &&
              full.Services(client) == w.Services(client) - {IdOf(k, reg[k])})
      && (UnitName(k.kind, 0) in full.units ==> full.units == w.units[UnitName(k.kind, 0) := true])
  {
    hide Represents, ServiceID, UnitName, DeleteTree, MarkedDeleted, RemovedQueries, OtherAliases, CatalogAgrees,
      ValidEntry, Dir;
    ServiceOfEntry(w, client, parent, reg, k);
    EntryHasUnit(w, client, parent, reg, k);
    var id := IdOf(k, reg[k]);
    RemoveQueriesDeletes(w, client, address, parent, reg, k, w.Services(client)[id]);
    RemovedQueriesStores(w, client, address, id, w.Services(client)[id], k.alias, reg[k].uuid);
  }

  /** A failing RemoveQueries on a represented source is such a removal. */
  lemma FailureIsPartial(was: World, mid: World, client: string, address: string, parent: string, reg: Registry, k: Key,
                         faultless: bool)
    requires Represents(was, client, parent, reg) && k in reg && reg[k].Source?
    requires RemovedASource(was, mid, client, address, k.kind, k.alias, NameOf(k.kind), false, faultless)
    ensures FailedRemoval(was, mid, client, address, reg, k) && !faultless
  {
    hide Represents, ServiceID, UnitName, RemovedQueries, OtherAliases, CatalogAgrees, ValidEntry, Dir,
      PartlyRemovedSource,
      CanRemoveSource, StoredUuid, Matches, NameOf;
    Parts(was, client, parent, reg);
    var id :| id in was.Services(client) && Matches(was.Services(client)[id], k.kind, k.alias) &&
      RemoveSourceOutcome(was, mid, client, address, id, k.alias, NameOf(k.kind), false, faultless);
    ValidOf(was, client, parent, reg, k);
    SlashFree(k, reg[k]);
    var k' := MatchHasEntry(was.Services(client), reg, id, k.kind, k.alias);
    assert k' == k;
    ServiceOfEntry(was, client, parent, reg, k);
    SourceIsRemovable(was, client, parent, reg, k);
  }

  /** The four stages of a failed removal, told apart by catalog, keys and instances. */
  lemma StageOfRemoval(was: World, mid: World, client: string, address: string, parent: string, reg: Registry, k: Key)
    requires Represents(was, client, parent, reg) && FailedRemoval(was, mid, client, address, reg, k)
    ensures
      var full := Removal(was, client, address, k, reg[k]);
      if mid.catalog != was.catalog
      then
        && UnitName(k.kind, 0) !in full.units && mid.catalog == full.catalog && mid.kv == full.kv
        && mid.instances == full.instances && mid.units - {UnitName(k.kind, 0)} == full.units
      else
        && mid.units.Keys == was.units.Keys
        && (mid.kv == was.kv || (mid.kv == full.kv && mid.instances == full.instances))
        && (mid.instances == was.instances || mid.instances == full.instances)
  {
    hide Represents, ServiceID, UnitName, DeleteTree, MarkedDeleted, RemovedQueries, OtherAliases, Dir, Removal;
    RemovalFields(was, client, address, parent, reg, k);
    var full := Removal(was, client, address, k, reg[k]);
    if UnitName(k.kind, 0) !in full.units {
      assert IdOf(k, reg[k]) in was.Services(client) && IdOf(k, reg[k]) !in full.Services(client);
      assert full.catalog != was.catalog;
    }
  }

  /**
   * From every represented state, a RemoveQueries that fails ends in the stuck state exactly if it had come to
   * delete the keys but not to change the catalog; then nothing disagrees either.
   */
  lemma RemoveQueriesGetsStuck(was: World, mid: World, client: string, address: string, parent: string, reg: Registry,
                               k: Key, faultless: bool)
    requires Represents(was, client, parent, reg) && k in reg && reg[k].Source?
    requires RemovedASource(was, mid, client, address, k.kind, k.alias, NameOf(k.kind), false, faultless)
    ensures Stuck(mid, client, k.kind, k.alias) <==> mid.catalog == was.catalog && mid.kv != was.kv
    ensures Stuck(mid, client, k.kind, k.alias) ==> Disagreement(mid, client) == {}
  {
    hide Represents, ServiceID, UnitName, MarkedDeleted, RemovedQueries, OtherAliases, Removal, Tagged, CatalogAgrees,
      UnitsAgree,
      KeysAgree, InstancesAgree, ValidRegistry, PlainKind, IsQueries, Disagreement, NameOf, Dir, UuidSub, DeleteTree,
      FailedRemoval, RemovedASource;
    FailureIsPartial(was, mid, client, address, parent, reg, k, faultless);
    Parts(was, client, parent, reg);
    StageOfRemoval(was, mid, client, address, parent, reg, k);
    RemovalFields(was, client, address, parent, reg, k);
    var full, id := Removal(was, client, address, k, reg[k]), IdOf(k, reg[k]);
    SourceIsTagged(was, client, reg, k);
    UuidGoes(was.kv, client, reg, k);
    if mid.catalog == was.catalog {
      SameCatalog(mid, was, client);
      SameNamesAgree(was, mid, client, parent, reg);
    } else {
      SameCatalog(mid, full, client);
      NotTagged(mid.Services(client), k.kind, k.alias);
    }
  }

  lemma NotTagged(services: map<string, Service>, kind: string, alias: string)
    requires ServiceID(kind, 0) !in services
    ensures !Tagged(services, kind, alias)
  {
  }

  /** The UUID is stored before the keys are deleted, and not afterwards. */
  lemma UuidGoes(kv: map<string, string>, client: string, reg: Registry, k: Key)
    requires KeysAgree(kv, client, reg) && ValidRegistry(reg) && k in reg && reg[k].Source?
    ensures
      var key := UuidKey(client, ServiceID(k.kind, 0), k.alias, NameOf(k.kind));
      key in kv && key !in DeleteTree(kv, Dir(client, IdOf(k, reg[k])) + k.alias + "/")
  {
    hide ServiceID, Dir, NameOf, KeysAgree, ValidRegistry;
    UuidIsStored(kv, client, reg, k);
    UuidIsUnderAlias(client, k, reg[k]);
  }

  lemma SameNamesAgree(was: World, now: World, client: string, parent: string, reg: Registry)
    requires Represents(was, client, parent, reg)
    requires now.Services(client) == was.Services(client) && now.units.Keys == was.units.Keys
    ensures Disagreement(now, client) == {}
  {
    hide Represents, Wanted;
    RepresentedAgrees(was, client, parent, reg);
  }

  // ---------- what it survives ----------

  lemma TaggedPut(services: map<string, Service>, kind: string, alias: string, id: string, svc: Service)
    requires Tagged(services, kind,
                    alias) && PlainKind(kind) && PlainKind(svc.kind) && id == ServiceID(svc.kind, svc.port)
    requires svc.kind == kind ==> svc.port == 0 && AliasTag(alias) in svc.tags
    ensures Tagged(services[id := svc], kind, alias)
  {
    hide ServiceID, PlainKind, AliasTag;
    if id == ServiceID(kind, 0) {
      ServiceIDInjective(svc.kind, svc.port, kind, 0);
    }
  }

  lemma TaggedDrop(services: map<string, Service>, kind: string, alias: string, id: string)
    requires Tagged(services, kind, alias) && id != ServiceID(kind, 0)
    ensures Tagged(services - {id}, kind, alias)
  {
    hide ServiceID, PlainKind, AliasTag;
  }

  /** Keys written for another service are not the missing one. */
  lemma OtherServicesKeys(client: string, kind: string, alias: string, kind': string, port': int, data: map<string,
                          string>)
    requires '/' !in client && PlainKind(kind) && PlainKind(kind') && ServiceID(kind', port') != ServiceID(kind, 0)
    ensures UuidKey(client, ServiceID(kind, 0), alias, NameOf(kind)) !in Below(Dir(client, ServiceID(kind', port')),
                                                                               data)
  {
    hide ServiceID, PlainKind, Dir, UuidSub, NameOf, Below;
    ServiceIDHasNoSlash(kind, 0);
    ServiceIDHasNoSlash(kind', port');
    var key, dir := UuidKey(client, ServiceID(kind, 0), alias, NameOf(kind)), Dir(client, ServiceID(kind', port'));
    BelowFacts(dir, data, key);
    if dir <= key {
      DirsDisjoint(client, ServiceID(kind', port'), ServiceID(kind, 0), UuidSub(alias, NameOf(kind)));
    }
  }

  lemma DifferentKinds(kind: string, kind': string, port': int)
    requires PlainKind(kind) && PlainKind(kind') && kind != kind'
    ensures ServiceID(kind', port') != ServiceID(kind, 0) && UnitName(kind', port') != UnitName(kind, 0)
  {
    hide ServiceID, UnitName, PlainKind;
    if ServiceID(kind', port') == ServiceID(kind, 0) {
      ServiceIDInjective(kind', port', kind, 0);
    }
    if UnitName(kind', port') == UnitName(kind, 0) {
      UnitNameInjective(kind', port', kind, 0);
    }
  }

  lemma SurvivesAddMetrics(was: World, now: World, config: Config, kind: string, alias: string, m: Plugin, name: string,
                           port: int, disableSSL: bool)
    requires Stuck(was, config.clientName, kind, alias) && m.Valid()
    requires
      var full := FullyAdded(was, config, name, m, port, disableSSL);
      now == full || PartlyAdded(was, now, full, UnitName(m.Kind(), port))
    ensures Stuck(now, config.clientName, kind, alias)
  {
    hide ServiceID, UnitName, PlainKind, NameOf, RoleOf, Below, Dir, Tagged, UuidKey, AddedMetrics, KnownName,
      MetricsKind,
      Plugin.ExtraTags;
    var client, k, e := config.clientName, Key(m.Kind(), name), m.Registered(port, disableSSL);
    var key, full := UuidKey(client, ServiceID(kind, 0), alias, NameOf(kind)), FullyAdded(was, config, name, m, port,
                                                                                          disableSSL);
    KnownMetrics(m.name);
    DifferentKinds(kind, m.Kind(), port);
    AddedMetricsStores(was, client, config.clientAddress, k, e);
    TaggedPut(was.Services(client), kind, alias, ServiceID(m.Kind(), port), ExporterService(k, e));
    OtherServicesKeys(client, kind, alias, m.Kind(), port, m.data);
    assert key !in full.kv;
    if now != full && now != was {
      assert At(now.kv, key) == At(was.kv, key) || At(now.kv, key) == At(full.kv, key);
      SameOrFull(was, now, full, client);
    }
  }

  lemma SameOrFull(was: World, now: World, full: World, client: string)
    requires now.catalog == was.catalog || now.catalog == full.catalog
    ensures now.Services(client) == was.Services(client) || now.Services(client) == full.Services(client)
    ensures now.catalog == was.catalog ==> now.Services(client) == was.Services(client)
  {
  }

  lemma SurvivesRemoveMetrics(was: World, now: World, client: string, kind: string, alias: string, name: string,
                              named: string,
                              ok: bool, faultless: bool)
    requires Stuck(was, client, kind, alias) && KnownName(name)
    requires RemovedAMatch(was, now, client, MetricsKind(name), named, ok, faultless)
    ensures Stuck(now, client, kind, alias)
  {
    hide ServiceID, UnitName, PlainKind, NameOf, RoleOf, Dir, UuidKey, RemovedMetrics, KnownName, MetricsKind,
      AliasTag, DeleteTree;
    var services := was.Services(client);
    var id :| id in services && Matches(services[id], MetricsKind(name), named) &&
      RemoveOutcome(was, now, client, id, ok, faultless);
    var svc := services[id];
    KnownMetrics(name);
    DifferentKinds(kind, svc.kind, svc.port);
    RemovedMetricsStores(was, client, id, svc.kind, svc.port);
    var full := RemovedMetrics(was, client, id, svc.kind, svc.port);
    TaggedDrop(services, kind, alias, id);
    SameOrFull(was, now, full, client);
    TreeShrinks(was.kv, Dir(client, id));
  }

  lemma TreeShrinks(kv: map<string, string>, prefix: string)
    ensures DeleteTree(kv, prefix).Keys <= kv.Keys
  {
  }

  lemma SurvivesAddQueries(was: World, now: World, client: string, address: string, parent: string, kind: string,
                           alias: string,
                           q: Source, name: string, dsn: string, ok: bool, faultless: bool)
    requires Stuck(was, client, kind,
                   alias) && q.Valid() && ServiceName(name) && CanAddQueries(was, client, address, name, q)
    requires AddedSomehow(was, now, client, address, parent, name, q, dsn, ok, faultless)
    ensures Stuck(now, client, kind, alias)
  {
    hide ServiceID, UnitName, PlainKind, NameOf, RoleOf, Dir, UuidSub, DsnSub, AliasTag, SanitizeDSN, GloballyUnique,
      Source.Kind, Source.Valid, ServiceName, IsQueries, WellNamed, AddOutcome, Tagged, TagsWith, IsBase;
    var services := was.Services(client);
    var b, uuid :| AddOutcome(was, now, client, address, parent, name, q, dsn, b, uuid, ok, faultless);
    SourceIsValid(q, name, "", "");
    KindIsPlain(q, name);
    var svc := Service(q.Kind(), TagsWith(b.tags, name), b.port);
    AdditionShape(was, now, client, address, parent, name, q, dsn, b, uuid, ok, faultless);
    BaseOfStuck(services, kind, alias, q.Kind(), b, name);
    TaggedPut(services, kind, alias, ServiceID(q.Kind(), b.port), svc);
    NewKeysAreOthers(client, kind, alias, q.Kind(), b.port, name);
  }

  lemma KindIsPlain(q: Source, name: string)
    requires q.Valid() && ServiceName(name)
    ensures PlainKind(q.Kind())
  {
    SourceIsValid(q, name, "", "");
  }

  /** A source of the same kind joins the stuck service under another alias. */
  lemma BaseOfStuck(services: map<string, Service>, kind: string, alias: string, kind': string, b: Base, name: string)
    requires Tagged(services, kind, alias) && IsBase(services, kind', b) && !Monitored(services, kind', name)
    ensures kind' == kind ==> b.port == 0 && AliasTag(alias) in TagsWith(b.tags, name) && name != alias
  {
    hide ServiceID, AliasTag, WellNamed;
    if kind' == kind {
      var id := ServiceID(kind, 0);
      assert Matches(services[id], kind, "") && Matches(services[id], kind, alias);
      assert b.present;
      var i :| i in services && services[i].kind == kind && services[i].port == b.port && services[i].tags == b.tags;
      assert i == id;
      var j :| 0 <= j < |b.tags| && b.tags[j] == AliasTag(alias);
      assert TagsWith(b.tags, name)[j] == AliasTag(alias);
    }
  }

  lemma NewKeysAreOthers(client: string, kind: string, alias: string, kind': string, port': int, name: string)
    requires '/' !in client && PlainKind(kind) && PlainKind(kind') && '/' !in alias && '/' !in name
    requires kind' == kind ==> port' == 0 && name != alias
    ensures
      var key, dir := UuidKey(client, ServiceID(kind, 0), alias, NameOf(kind)), Dir(client, ServiceID(kind', port'));
      key != dir + DsnSub(name) && key != dir + UuidSub(name, NameOf(kind'))
  {
    hide ServiceID, PlainKind, Dir, NameOf;
    var key, dir := UuidKey(client, ServiceID(kind, 0), alias, NameOf(kind)), Dir(client, ServiceID(kind', port'));
    if kind' == kind {
      var tail := "qan_" + NameOf(kind) + "_uuid";
      assert key == dir + (alias + "/" + tail);
      if key == dir + DsnSub(name) {
        assert dir + alias + "/" <= dir + (name + "/" + "dsn");
        AliasDirsDisjoint(dir, alias, name, "dsn");
      }
      if key == dir + UuidSub(name, NameOf(kind')) {
        assert dir + alias + "/" <= dir + (name + "/" + tail);
        AliasDirsDisjoint(dir, alias, name, tail);
      }
    } else {
      DifferentKinds(kind, kind', port');
      ServiceIDHasNoSlash(kind, 0);
      ServiceIDHasNoSlash(kind', port');
      if dir <= key {
        DirsDisjoint(client, ServiceID(kind', port'), ServiceID(kind, 0), UuidSub(alias, NameOf(kind)));
      }
    }
  }

  /** What every outcome of a removal has in common. */
  lemma RemovalKeeps(was: World, now: World, client: string, address: string, id: string, named: string, name: string,
                     ok: bool, faultless: bool)
    requires RemoveSourceOutcome(was, now, client, address, id, named, name, ok, faultless)
    ensures
      var svc := was.Services(client)[id];
      var tags, unit := OtherAliases(svc.tags, named), UnitName(svc.kind, svc.port);
      && (|| now.Services(client) == was.Services(client)
          || now.Services(client) == (if tags == [] then was.Services(client) - {id}
                                      else was.Services(client)[id := svc.(tags := tags)]))
      && (now.kv == was.kv || now.kv == DeleteTree(was.kv, Dir(client, id) + named + "/"))
      && now.kv.Keys <= was.kv.Keys
      && SameUnitsBut(was.units, now.units, unit)
      && (forall u | u in was.units && (u != unit || tags != []) :: u in now.units)
  {
    hide UnitName, Dir, UuidKey, RemovedQueries, DeleteTree, OtherAliases, MarkedDeleted, CanRemoveSource, StoredUuid;
    var svc, uuid := was.Services(client)[id], StoredUuid(was, client, id, named, name);
    RemovedQueriesStores(was, client, address, id, svc, named, uuid);
    TreeShrinks(was.kv, Dir(client, id) + named + "/");
    SameOrFull(was, now, RemovedQueries(was, client, address, id, svc, named, uuid), client);
  }

  lemma SurvivesRemoveQueries(was: World, now: World, client: string, address: string, kind: string, alias: string,
                              name: string, named: string, ok: bool, faultless: bool)
    requires Stuck(was, client, kind, alias) && KnownName(name)
    requires RemovedASource(was, now, client, address, QueriesKind(name), named, name, ok, faultless)
    ensures Stuck(now, client, kind, alias)
  {
    hide ServiceID, UnitName, PlainKind, NameOf, RoleOf, UuidKey, KnownName, QueriesKind, AliasTag, OtherAliases,
      WellNamed,
      IsQueries, RemoveSourceOutcome;
    var services := was.Services(client);
    var id :| id in services && Matches(services[id], QueriesKind(name), named) &&
      RemoveSourceOutcome(was, now, client, address, id, named, name, ok, faultless);
    var svc, tags := services[id], OtherAliases(services[id].tags, named);
    KnownQueries(name);
    RemovalKeeps(was, now, client, address, id, named, name, ok, faultless);
    NameAt(services, id);
    if svc.kind != kind {
      DifferentKinds(kind, svc.kind, svc.port);
      TaggedDrop(services, kind, alias, id);
      TaggedPut(services, kind, alias, id, svc.(tags := tags));
    } else if named == alias {
      StuckRemoval(was, now, client, address, id, alias, name, ok, faultless);
      assert now.Services(client) == services;
    } else {
      OtherAliasStays(svc.tags, alias, named);
      TaggedPut(services, kind, alias, id, svc.(tags := tags));
    }
  }

  lemma NameAt(services: map<string, Service>, id: string)
    requires WellNamed(services) && id in services
    ensures PlainKind(services[id].kind) && id == ServiceID(services[id].kind, services[id].port)
  {
  }

  lemma OtherAliasStays(tags: seq<string>, alias: string, named: string)
    requires AliasTag(alias) in tags && alias != named
    ensures AliasTag(alias) in OtherAliases(tags, named)
  {
    AliasTagInverse(alias);
    AliasTagInverse(named);
    OtherAliasesMembers(tags, named, AliasTag(alias));
  }

  /** The stuck state survives every command, however its calls fail. */
  lemma StuckSurvivesAttempt(c: Command, was: World, now: World, config: Config, parent: string, kind: string,
                             alias: string)
    requires Stuck(was, config.clientName, kind, alias) && c.Valid() && Attempts(c, was, now, config, parent)
    ensures Stuck(now, config.clientName, kind, alias)
  {
    hide Stuck, PartlyAdded, GloballyUnique, IsDuplicate, RemovedAMatch, AddedSomehow, RemovedASource, FullyAdded,
      UnitName, KnownName, MetricsKind,
      QueriesKind, ServiceName, ChosenPort, CanAddQueries, Plugin.Valid, Source.Valid;
    var client, address := config.clientName, config.clientAddress;
    if now != was {
      match c {
        case AddExporter(m, name, requested, force, disableSSL) =>
          var port := ChosenPort(was.Services(client), requested, m.defaultPort).value;
          var ok :| AddedAt(was, now, config, name, requested, m, disableSSL, ok);
          assert AddedAt(was, now, config, name, requested, m, disableSSL, ok);
          SurvivesAddMetrics(was, now, config, kind, alias, m, name, port, disableSSL);
        case RemoveExporter(name, named) =>
          var ok, faultless :| RemovedAMatch(was, now, client, MetricsKind(name), named, ok, faultless);
          SurvivesRemoveMetrics(was, now, client, kind, alias, name, named, ok, faultless);
        case AddSource(q, name) =>
          InitIsKnown(was, client, address, name, q);
          var ok, faultless :| AddedSomehow(was, now, client, address, parent, name, q, q.init.value.dsn, ok,
                                            faultless);
          SurvivesAddQueries(was, now, client, address, parent, kind, alias, q, name, q.init.value.dsn, ok, faultless);
        case RemoveSource(name, named) =>
          var ok, faultless :| RemovedASource(was, now, client, address, QueriesKind(name), named, name, ok, faultless);
          SurvivesRemoveQueries(was, now, client, address, kind, alias, name, named, ok, faultless);
      }
    }
  }

  /** So does it a repair that could read the catalog, complete or not. */
  lemma StuckSurvivesRepair(was: World, now: World, client: string, kind: string, alias: string)
    requires Stuck(was, client, kind, alias) && (Repaired(was, now, client) || PartlyRepaired(was, now, client))
    ensures Stuck(now, client, kind, alias)
  {
    hide ServiceID, UnitName, PlainKind, IsQueries, NameOf, UuidKey, AliasTag, InstancesKept, OtherNodesKept, WellNamed;
    var id := ServiceID(kind, 0);
    RepairKeepsNames(was, now, client);
    assert UnitOfService(was.Services(client)[id]) == UnitName(kind, 0);
    assert id in Matched(was, client);
    assert UnitName(kind, 0) in WantedUnits(was, client);
  }

  /** Over every run of commands and such repairs, gated or not, whatever fails, an alias that is stuck stays stuck. */
  lemma {:induction false} StuckForever(states: seq<World>, config: Config, parent: string, kind: string, alias: string)
    requires |states| > 0 && Stuck(states[0], config.clientName, kind, alias)
    requires forall i | 0 <= i < |states| - 1 :: CommandOrRepair(states[i], states[i + 1], config, parent)
    ensures forall i | 0 <= i < |states| :: Stuck(states[i], config.clientName, kind, alias)
  {
    hide Stuck, Attempts, Command.Valid, Repaired, PartlyRepaired;
    if |states| > 1 {
      var n := |states| - 2;
      StuckForever(states[..n + 1], config, parent, kind, alias);
      assert CommandOrRepair(states[n], states[n + 1], config, parent);
      if Repaired(states[n], states[n + 1], config.clientName) ||
        PartlyRepaired(states[n], states[n + 1], config.clientName)
      {
        StuckSurvivesRepair(states[n], states[n + 1], config.clientName, kind, alias);
      } else {
        var c: Command :| c.Valid() && Attempts(c, states[n], states[n + 1], config, parent);
        StuckSurvivesAttempt(c, states[n], states[n + 1], config, parent, kind, alias);
      }
    }
  }

  ghost predicate CommandOrRepair(was: World, now: World, config: Config, parent: string) {
    || (exists c: Command :: c.Valid() && Attempts(c, was, now, config, parent))
    || Repaired(was, now, config.clientName)
    || PartlyRepaired(was, now, config.clientName)
  }

  /**
   * The way out: once all local services are uninstalled, be it by an uninstall or by a repair that could not
   * read the catalog, a repair takes every service of the client out of the catalog. If none of its calls fails
   * the keys of these services are gone, and no others; an instance that no such key names is as it was.
   */
  lemma UninstallGetsOut(w: World, now: World, client: string, kind: string, alias: string)
    requires Repaired(w.(units := map[]), now, client)
    ensures now.Services(client) == map[] && now.units == map[] && !Stuck(now, client, kind, alias)
    ensures forall key | key in w.kv && !InSomeDir(client, key, w.Services(client).Keys) ::
      key in now.kv && now.kv[key] == w.kv[key]
    ensures (forall key | key in now.kv :: !UnderMissing(w.(units := map[]), client, key)) ==>
      now.kv.Keys == set key | key in w.kv && !InSomeDir(client, key, w.Services(client).Keys)
    ensures forall u | u in w.instances ::
      && u in now.instances
      && (now.instances[u] == w.instances[u] || NamedInSomeDir(w.kv, client, w.Services(client).Keys, u))
  {
    hide UnitOfService, ServiceID, OtherNodesKept, PlainKind, IsQueries, NameOf, UuidKey, WellNamed, IsUuidKey, Dir;
    var none := w.(units := map[]);
    assert Matched(none, client) == map[];
    assert none.Services(client) == w.Services(client);
    forall key
      ensures UnderMissing(none, client, key) <==> InSomeDir(client, key, w.Services(client).Keys)
    {
      MissingEverywhere(w, client, key);
    }
    forall u | u in w.instances
      ensures u in now.instances
      ensures (now.instances[u] == w.instances[u] || NamedInSomeDir(w.kv, client, w.Services(client).Keys, u))
    {
      assert SameOrDeleted(none.instances, now.instances, u);
    }
  }

  /** A key below one of the services names the instance under one of the names that repair looks for. */
  ghost predicate NamedInSomeDir(kv: map<string, string>, client: string, ids: set<string>, u: string) {
    exists key | key in kv :: InSomeDir(client, key, ids) && IsUuidKey(key) && kv[key] == u
  }

  lemma MissingEverywhere(w: World, client: string, key: string)
    ensures UnderMissing(w.(units := map[]), client, key) <==> InSomeDir(client, key, w.Services(client).Keys)
  {
    hide UnitOfService, Dir;
    assert w.(units := map[]).Services(client) == w.Services(client);
    if InSomeDir(client, key, w.Services(client).Keys) {
      var id :| id in w.Services(client).Keys && Dir(client, id) <= key;
      assert IsMissing(w.(units := map[]), client, id);
    }
  }

  /**
   * The instance of a stuck AddQueries stays live on that way out, although no source has it: its UUID was never
   * stored, and no key of an exporter looks like one.
   */
  lemma StuckInstanceStays(was: World, mid: World, now: World, client: string, address: string, parent: string,
                           reg: Registry, alias: string, q: Source, dsn: string, faultless: bool) returns (u: string)
    requires Represents(was, client, parent, reg) && q.Valid() && ServiceName(alias)
    requires CanAddQueries(was, client, address, alias, q)
    requires AddedSomehow(was, mid, client, address, parent, alias, q, dsn, false, faultless)
    requires mid.catalog != was.catalog && Repaired(mid.(units := map[]), now, client)
    requires forall k | k in reg && reg[k].Exporter? :: NoLookalikes(reg[k].data)
    ensures Live(now.instances, u, parent) && KeyOfInstance(now.instances[u]) == Key(q.Kind(), alias)
  {
    hide Represents, AddOutcome, SanitizeDSN, Source.Valid, Source.Kind, GloballyUnique, Repaired, Live, KeyOfInstance,
      Acquired, IsBase, UnitReady, FullyAddedSource, NamedInSomeDir, DsnKey, UnitName, ServiceName, Matches, IsUuidKey,
      WellNamed, Tagged, InstanceStage, UnitStage;
    var b, uuid :| AddOutcome(was, mid, client, address, parent, alias, q, dsn, b, uuid, false, faultless);
    u := uuid;
    StageOfAddition(was, mid, client, address, parent, alias, q, dsn, b, uuid, faultless);
    AllowedIsNew(was, client, address, parent, reg, alias, q);
    AcquiredOnRegistration(was, mid, client, address, parent, alias, q, dsn, b, uuid, faultless);
    AcquiredIsLive(was.instances, mid.instances, u, alias, q, parent);
    UninstallGetsOut(mid, now, client, q.Kind(), alias);
    NotNamed(was, mid, client, parent, reg, q, alias, b, dsn, u);
    LiveIsKept(mid.instances, now.instances, u, parent);
  }

  lemma AcquiredOnRegistration(was: World, mid: World, client: string, address: string, parent: string,
                               alias: string, q: Source, dsn: string, b: Base, uuid: string, faultless: bool)
    requires AddOutcome(was, mid, client, address, parent, alias, q, dsn, b, uuid, false, faultless)
    requires mid.catalog != was.catalog
    ensures uuid in mid.instances && Acquired(was.instances, mid.instances, uuid, q.instanceType, alias, parent)
    ensures mid.kv == was.kv || mid.kv == was.kv[DsnKey(client, q, b, alias) := SanitizeDSN(dsn)]
  {
    hide UnitName, ServiceID, SanitizeDSN, IsBase, FullyAddedSource, DsnKey, UnitReady, UnitStage, InstanceStage;
  }

  lemma LiveIsKept(was: map<string, Instance>, now: map<string, Instance>, u: string, parent: string)
    requires Live(was, u, parent) && u in now && now[u] == was[u]
    ensures Live(now, u, parent) && KeyOfInstance(now[u]) == KeyOfInstance(was[u])
  {
  }

  /** The key of a data source is not one that repair looks for. */
  lemma DsnIsNoUuid(before: string)
    ensures !IsUuidKey(before + "dsn")
  {
    hide HasSuffix;
    LastOfSuffix(before + "dsn", "/qan_mysql_uuid");
    LastOfSuffix(before + "dsn", "/qan_mongodb_uuid");
  }

  lemma LastOfSuffix(s: string, t: string)
    requires t != ""
    ensures HasSuffix(s, t) ==> s != "" && s[|s| - 1] == t[|t| - 1]
  {
  }

  /** A stored UUID that repair looks for is that of a source. */
  lemma UuidIsOfSource(w: World, client: string, parent: string, reg: Registry, key: string) returns (k: Key)
    requires Represents(w, client, parent, reg) && key in w.kv && client + "/" <= key && IsUuidKey(key)
    requires forall k | k in reg && reg[k].Exporter? :: NoLookalikes(reg[k].data)
    ensures k in reg && reg[k].Source? && w.kv[key] == reg[k].uuid
    ensures key == UuidKey(client, IdOf(k, reg[k]), k.alias, NameOf(k.kind))
  {
    hide CatalogAgrees, UnitsAgree, InstancesAgree, ValidRegistry, ServiceID, Dir, IsUuidKey, NameOf;
    k :| IsKeyOf(client, key, k, reg);
    var dir := Dir(client, IdOf(k, reg[k]));
    var sub := key[|dir|..];
    assert key == dir + sub;
    if reg[k].Exporter? {
      NoUuidsInDir(client, IdOf(k, reg[k]), reg[k].data);
    } else if sub == DsnSub(k.alias) {
      assert key == (dir + k.alias + "/") + "dsn";
      DsnIsNoUuid(dir + k.alias + "/");
    }
  }

  lemma NotNamed(was: World, mid: World, client: string, parent: string, reg: Registry, q: Source, alias: string,
                 b: Base, dsn: string, u: string)
    requires Represents(was, client, parent, reg) && q.Valid() && Key(q.Kind(), alias) !in reg
    requires Acquired(was.instances, mid.instances, u, q.instanceType, alias, parent)
    requires mid.kv == was.kv || mid.kv == was.kv[DsnKey(client, q, b, alias) := SanitizeDSN(dsn)]
    requires forall k | k in reg && reg[k].Exporter? :: NoLookalikes(reg[k].data)
    ensures !NamedInSomeDir(mid.kv, client, mid.Services(client).Keys, u)
  {
    hide Represents, SanitizeDSN, Source.Valid, KeyOfInstance, ServiceID, Dir, IsUuidKey;
    if NamedInSomeDir(mid.kv, client, mid.Services(client).Keys, u) {
      var key :|
        key in mid.kv && InSomeDir(client, key, mid.Services(client).Keys) && IsUuidKey(key) && mid.kv[key] == u;
      var id :| id in mid.Services(client).Keys && Dir(client, id) <= key;
      DirIsBelow(client, id, key);
      var dir := Dir(client, ServiceID(q.Kind(), b.port));
      assert DsnKey(client, q, b, alias) == (dir + alias + "/") + "dsn";
      DsnIsNoUuid(dir + alias + "/");
      var k := UuidIsOfSource(was, client, parent, reg, key);
      OtherIdentity(was, mid, client, parent, reg, q, alias, u, k);
    }
  }

  /** The instance acquired for a new source is not that of another one. */
  lemma OtherIdentity(was: World, mid: World, client: string, parent: string, reg: Registry, q: Source, alias: string,
                      u: string, k: Key)
    requires Represents(was, client, parent, reg) && q.Valid() && Key(q.Kind(), alias) !in reg
    requires Acquired(was.instances, mid.instances, u, q.instanceType, alias, parent) && k in reg && reg[k].Source?
    ensures reg[k].uuid != u
  {
    hide CatalogAgrees, UnitsAgree, KeysAgree, ValidRegistry, IsSourceType, Source.Valid, QueriesKind, KindOfSubsystem;
    assert Analysed(was.instances, parent, k, reg[k]);
    AcquiredIsLive(was.instances, mid.instances, u, alias, q, parent);
  }

  // ---------- what repair makes of the others ----------

  /** Local services beyond those called for go; nothing else changes. */
  lemma RepairDropsOrphans(was: World, mid: World, now: World, client: string, parent: string, reg: Registry)
    requires Represents(was, client, parent, reg) && mid.Services(client) == was.Services(client)
    requires was.units.Keys <= mid.units.Keys && Repaired(mid, now, client)
    ensures now.Services(client) == was.Services(client) && now.units.Keys == was.units.Keys
    ensures now.kv == mid.kv && now.instances == mid.instances
  {
    hide Represents, UnitOfService, Wanted, Matched, WantedUnits, KeysKept, InstancesKept, Disagreement;
    RepresentedAgrees(was, client, parent, reg);
    var kept := map u | u in was.units :: mid.units[u];
    assert kept.Keys == was.units.Keys;
    AllWantedExist(mid, client, kept);
    NothingMissing(mid, now, client);
  }

  /**
   * A failed AddQueries and a complete repair: either stuck, or as before but perhaps for one live instance
   * that no source has, which repair does not look for.
   */
  lemma AddQueriesThenRepair(was: World, mid: World, now: World, client: string, address: string, parent: string,
                             reg: Registry, alias: string, q: Source, dsn: string, faultless: bool)
    requires Represents(was, client, parent, reg) && q.Valid() && ServiceName(alias)
    requires CanAddQueries(was, client, address, alias, q)
    requires AddedSomehow(was, mid, client, address, parent, alias, q, dsn, false, faultless)
    requires Repaired(mid, now, client)
    ensures mid.catalog != was.catalog ==> Stuck(now, client, q.Kind(), alias)
    ensures mid.catalog == was.catalog ==>
      && now.Services(client) == was.Services(client) && now.units.Keys == was.units.Keys && now.kv == was.kv
      && (Represents(now, client, parent, reg) <==> mid.instances == was.instances)
      && (mid.instances != was.instances ==>
            exists u :: Live(now.instances, u, parent) && KeyOfInstance(now.instances[u]) == Key(q.Kind(), alias))
  {
    hide Represents, ServiceID, UnitName, Tagged, AddOutcome, SanitizeDSN, NameOf, PlainKind, IsQueries, UuidKey,
      CatalogAgrees,
      UnitsAgree, KeysAgree, InstancesAgree, ValidRegistry, FullyAddedSource, Acquired, IsBase, GloballyUnique,
      Source.Valid, Source.Kind, Disagreement, DsnKey, AliasTag, ServiceName, Matches, Repaired, Stuck, InstanceStage,
      Live,
      KeyOfInstance;
    var b, uuid :| AddOutcome(was, mid, client, address, parent, alias, q, dsn, b, uuid, false, faultless);
    StageOfAddition(was, mid, client, address, parent, alias, q, dsn, b, uuid, faultless);
    AllowedIsNew(was, client, address, parent, reg, alias, q);
    if mid.catalog != was.catalog {
      AddQueriesGetsStuck(was, mid, client, address, parent, reg, alias, q, dsn, faultless);
      StuckSurvivesRepair(mid, now, client, q.Kind(), alias);
    } else {
      SameCatalog(mid, was, client);
      RepairDropsOrphans(was, mid, now, client, parent, reg);
      LeftInstance(was, mid, now, client, parent, reg, alias, q);
    }
  }

  lemma LeftInstance(was: World, mid: World, now: World, client: string, parent: string, reg: Registry, alias: string,
                     q: Source)
    requires Represents(was, client, parent, reg) && q.Valid() && Key(q.Kind(), alias) !in reg
    requires InstanceStage(was, mid, parent, q, alias)
    requires now.Services(client) == was.Services(client) && now.units.Keys == was.units.Keys
    requires now.kv == was.kv && now.instances == mid.instances
    ensures Represents(now, client, parent, reg) <==> mid.instances == was.instances
    ensures mid.instances != was.instances ==>
      exists u :: Live(now.instances, u, parent) && KeyOfInstance(now.instances[u]) == Key(q.Kind(), alias)
  {
    hide Represents;
    RunningDoesNotMatter(was, now.(instances := was.instances), client, parent, reg);
    if mid.instances == was.instances {
      assert now.(instances := was.instances) == now;
    } else {
      var u :| Acquired(was.instances, mid.instances, u, q.instanceType, alias, parent);
      AcquiredIsLive(was.instances, mid.instances, u, alias, q, parent);
      if Represents(now, client, parent, reg) {
        LiveIsExpected(now, client, parent, reg, u);
      }
    }
  }

  /**
   * A failed RemoveQueries and a complete repair: removed after all, if the catalog had changed; stuck, if only
   * the keys were gone; otherwise as before, but perhaps for the instance, and the removal can be repeated.
   */
  lemma RemoveQueriesThenRepair(was: World, mid: World, now: World, client: string, address: string, parent: string,
                                reg: Registry, k: Key, faultless: bool)
    requires Represents(was, client, parent, reg) && k in reg && reg[k].Source?
    requires RemovedASource(was, mid, client, address, k.kind, k.alias, NameOf(k.kind), false, faultless)
    requires Repaired(mid, now, client)
    ensures mid.catalog != was.catalog ==> Represents(now, client, parent, reg - {k})
    ensures mid.catalog == was.catalog && mid.kv != was.kv ==> Stuck(now, client, k.kind, k.alias)
    ensures mid.catalog == was.catalog && mid.kv == was.kv ==>
      && (Represents(now, client, parent, reg) <==> mid.instances == was.instances)
      && now.Services(client) == was.Services(client)
      && Represents(Removal(now, client, address, k, reg[k]), client, parent, reg - {k})
  {
    hide Represents, ServiceID, UnitName, MarkedDeleted, RemovedQueries, OtherAliases, Removal, Tagged, CatalogAgrees,
      UnitsAgree,
      KeysAgree, InstancesAgree, ValidRegistry, PlainKind, IsQueries, Disagreement, NameOf, Dir, UuidSub, DeleteTree,
      Stuck, Repaired, UuidKey, FailedRemoval, RemovedASource;
    FailureIsPartial(was, mid, client, address, parent, reg, k, faultless);
    StageOfRemoval(was, mid, client, address, parent, reg, k);
    RemovalFields(was, client, address, parent, reg, k);
    var full := Removal(was, client, address, k, reg[k]);
    if mid.catalog != was.catalog {
      RepairFinishesRemoval(full, mid, now, client, parent, reg - {k}, UnitName(k.kind, 0));
      RunningDoesNotMatter(full, now, client, parent, reg - {k});
    } else if mid.kv != was.kv {
      RemoveQueriesGetsStuck(was, mid, client, address, parent, reg, k, faultless);
      StuckSurvivesRepair(mid, now, client, k.kind, k.alias);
    } else {
      SameCatalog(mid, was, client);
      RepairDropsOrphans(was, mid, now, client, parent, reg);
      RemovalCanBeRepeated(was, now, client, address, parent, reg, k);
    }
  }

  /** With nothing but the instance marked deleted, removing again gives what removing at once would have. */
  lemma RemovalCanBeRepeated(was: World, now: World, client: string, address: string, parent: string, reg: Registry,
                             k: Key)
    requires Represents(was, client, parent, reg) && k in reg && reg[k].Source?
    requires now.Services(client) == was.Services(client) && now.units.Keys == was.units.Keys && now.kv == was.kv
    requires now.instances == was.instances || now.instances == MarkedDeleted(was.instances, reg[k].uuid)
    ensures Represents(now, client, parent, reg) <==> now.instances == was.instances
    ensures IdOf(k, reg[k]) in now.Services(client)
    ensures Represents(Removal(now, client, address, k, reg[k]), client, parent, reg - {k})
  {
    hide Represents, ServiceID, UnitName, RemovedQueries, OtherAliases, Dir, DeleteTree;
    var alive := now.(instances := was.instances);
    RunningDoesNotMatter(was, alive, client, parent, reg);
    RemovalFields(alive, client, address, parent, reg, k);
    RemovalIgnoresMark(alive, now, client, address, k, reg[k]);
    if now.instances == was.instances {
      assert alive == now;
    } else {
      DeletedIsNotAnalysed(was, now, client, parent, reg, k);
    }
  }

  lemma RemovalIgnoresMark(alive: World, now: World, client: string, address: string, k: Key, e: Entry)
    requires e.Source? && IdOf(k, e) in now.Services(client) && alive == now.(instances := alive.instances)
    requires now.instances == alive.instances || now.instances == MarkedDeleted(alive.instances, e.uuid)
    ensures Removal(now, client, address, k, e) == Removal(alive, client, address, k, e)
  {
    hide ServiceID, UnitName, OtherAliases, Dir, DeleteTree;
    assert MarkedDeleted(now.instances, e.uuid) == MarkedDeleted(alive.instances, e.uuid);
  }

  lemma DeletedIsNotAnalysed(was: World, now: World, client: string, parent: string, reg: Registry, k: Key)
    requires Represents(was, client, parent, reg) && k in reg && reg[k].Source?
    requires now.instances == MarkedDeleted(was.instances, reg[k].uuid)
    ensures !Represents(now, client, parent, reg) && now.instances != was.instances
  {
    hide CatalogAgrees, UnitsAgree, KeysAgree, ValidRegistry, KeyOfInstance, IsSourceType;
    assert Analysed(was.instances, parent, k, reg[k]);
    assert !Analysed(now.instances, parent, k, reg[k]);
  }
}
