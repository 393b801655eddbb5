/**
 * What such runs make of instances: every UUID that is stored names an instance created for the very source it is
 * stored for, and a source that no command was about keeps its live instance.
 */
module StoredUuids {
  import opened Strings
  import opened Stores
  import opened Registry
  import opened Transitions
  import opened QueryTransitions
  import opened Monitor
  import opened Lookup
  import opened Sanitize
  import opened Metrics
  import opened Queries
  import opened Refinement
  import opened Runs
  import opened Repair
  import opened Failures
  import opened Qan
  import opened Recovery
  import opened GatedRuns
  import Stuck

  /** No data of an exporter looks like a UUID, neither of those there are nor of those added. */
  ghost predicate Proper(reg: Registry, events: seq<Event>) {
    && (forall k | k in reg && reg[k].Exporter? :: NoLookalikes(reg[k].data))
    && (forall c | Tried(c) in events && c.AddExporter? :: NoLookalikes(c.m.data))
  }

  /** The key is where this source's UUID belongs, and the instance it names was created for this source. */
  predicate OwnUuid(w: World, client: string, key: string, k: Key) {
    && IsQueries(k.kind) && PlainKind(k.kind) && '/' !in k.alias
    && key == UuidKey(client, ServiceID(k.kind, 0), k.alias, NameOf(k.kind))
    && key in w.kv && w.kv[key] in w.instances && KeyOfInstance(w.instances[w.kv[key]]) == k
  }

  /** Every stored UUID is some source's own. */
  ghost predicate TrueUuids(w: World, client: string) {
    forall key | key in w.kv && client + "/" <= key && IsUuidKey(key) :: exists k :: OwnUuid(w, client, key, k)
  }

  /** Instances stay what they were created for. */
  predicate IdentityKept(was: map<string, Instance>, now: map<string, Instance>) {
    forall u | u in was :: u in now && now[u].subsystem == was[u].subsystem && now[u].name == was[u].name
  }

  lemma TruthKept(was: World, now: World, client: string)
    requires TrueUuids(was, client) && IdentityKept(was.instances, now.instances)
    requires forall key | key in now.kv && client + "/" <= key && IsUuidKey(key) ::
      (key in was.kv && now.kv[key] == was.kv[key]) || exists k :: OwnUuid(now, client, key, k)
    ensures TrueUuids(now, client)
  {
    hide IsUuidKey, IsQueries, PlainKind, UuidKey, KindOfSubsystem;
    forall key | key in now.kv && client + "/" <= key && IsUuidKey(key)
      ensures exists k :: OwnUuid(now, client, key, k)
    {
      if key in was.kv && now.kv[key] == was.kv[key] {
        var k :| OwnUuid(was, client, key, k);
        assert OwnUuid(now, client, key, k);
      }
    }
  }

  lemma RepresentedIsTrue(w: World, client: string, parent: string, reg: Registry)
    requires Represents(w, client, parent, reg) && Proper(reg, [])
    ensures TrueUuids(w, client)
  {
    hide Represents, IsUuidKey, ServiceID, KeyOfInstance, NameOf, ValidEntry;
    forall key | key in w.kv && client + "/" <= key && IsUuidKey(key)
      ensures exists k :: OwnUuid(w, client, key, k)
    {
      var k := Stuck.UuidIsOfSource(w, client, parent, reg, key);
      ValidOf(w, client, parent, reg, k);
      SourceRole(k, reg[k]);
      SlashFree(k, reg[k]);
      SourceNames(k, reg[k]);
      EntryIsLive(w, client, parent, reg, k);
      assert OwnUuid(w, client, key, k);
    }
  }

  lemma ShrinkTrue(was: World, now: World, client: string)
    requires TrueUuids(was, client) && IdentityKept(was.instances, now.instances)
    requires forall key | key in now.kv :: key in was.kv && now.kv[key] == was.kv[key]
    ensures TrueUuids(now, client)
  {
    hide IsUuidKey, OwnUuid, IdentityKept;
    TruthKept(was, now, client);
  }

  lemma ExporterTrue(was: World, now: World, client: string, id: string, data: map<string, string>)
    requires TrueUuids(was, client) && now.instances == was.instances && NoLookalikes(data)
    requires Between(was.kv, now.kv, was.kv + Below(Dir(client, id), data))
    ensures TrueUuids(now, client)
  {
    hide IsUuidKey, OwnUuid, NoLookalikes, Dir, Below, TrueUuids;
    NoUuidsInDir(client, id, data);
    var dir := Dir(client, id);
    forall key | key in now.kv && IsUuidKey(key)
      ensures key in was.kv && now.kv[key] == was.kv[key]
    {
      BelowFacts(dir, data, key);
      assert dir <= key ==> key == dir + key[|dir|..];
      assert At(now.kv, key) == At(was.kv, key) || At(now.kv, key) == At(was.kv + Below(dir, data), key);
    }
    TruthKept(was, now, client);
  }

  /** What an addition of a source does to instances, and that a UUID it stores is the source's own. */
  lemma AdditionRecords(was: World, now: World, client: string, address: string, parent: string, alias: string,
                        q: Source, dsn: string, b: Base, uuid: string, ok: bool, faultless: bool)
    requires AddOutcome(was, now, client, address, parent, alias, q, dsn, b, uuid, ok, faultless)
    ensures IdentityKept(was.instances, now.instances)
    ensures forall u | Live(was.instances, u, parent) :: Live(now.instances, u, parent)
    ensures
      || now.kv == was.kv
      || now.kv == was.kv[DsnKey(client, q, b, alias) := SanitizeDSN(dsn)]
      || Acquired(was.instances, now.instances, uuid, q.instanceType, alias, parent)
  {
    hide UnitName, ServiceID, SanitizeDSN, IsBase, FullyAddedSource, DsnKey, UnitReady, UnitStage, IsSourceType,
      DsnsKept,
      QueriesKind;
    FullyAddedSourceFields(was, client, address, alias, q, b, dsn, uuid, now.instances);
  }

  lemma SourceTrue(was: World, now: World, client: string, address: string, parent: string, reg: Registry,
                   alias: string, q: Source, dsn: string, ok: bool, faultless: bool)
    requires TrueUuids(was, client) && Agreeing(was, client, reg) && q.Valid() && ServiceName(alias)
    requires AddedSomehow(was, now, client, address, parent, alias, q, dsn, ok, faultless)
    ensures TrueUuids(now, client)
  {
    hide IsUuidKey, OwnUuid, TrueUuids, AddOutcome, SanitizeDSN, IdentityKept, Source.Valid, Source.Kind, Live, IsBase,
      CatalogAgrees, ValidRegistry, ServiceID, Acquired, KeyOfInstance, IsQueries, PlainKind, ValidEntry, NameOf;
    var b, uuid :| AddOutcome(was, now, client, address, parent, alias, q, dsn, b, uuid, ok, faultless);
    AdditionShape(was, now, client, address, parent, alias, q, dsn, b, uuid, ok, faultless);
    AdditionRecords(was, now, client, address, parent, alias, q, dsn, b, uuid, ok, faultless);
    SourceIsValid(q, alias, "", "");
    SourceRole(Key(q.Kind(), alias), Entry.Source("", ""));
    BaseTags(was.Services(client), reg, q.Kind(), b);
    var dir, k := Dir(client, ServiceID(q.Kind(), 0)), Key(q.Kind(), alias);
    var own := UuidKey(client, ServiceID(q.Kind(), 0), alias, NameOf(q.Kind()));
    assert dir + DsnSub(alias) == (dir + alias + "/") + "dsn";
    Stuck.DsnIsNoUuid(dir + alias + "/");
    if now.kv != was.kv && now.kv != was.kv[DsnKey(client, q, b, alias) := SanitizeDSN(dsn)] {
      AcquiredIsLive(was.instances, now.instances, uuid, alias, q, parent);
      LiveIsThere(now.instances, uuid, parent);
      assert OwnUuid(now, client, own, k) by { OwnOf(now, client, own, k, uuid); }
    }
    TruthKept(was, now, client);
  }

  lemma LiveIsThere(instances: map<string, Instance>, u: string, parent: string)
    requires Live(instances, u, parent)
    ensures u in instances
  {
  }

  lemma OwnOf(w: World, client: string, key: string, k: Key, u: string)
    requires IsQueries(k.kind) && PlainKind(k.kind) && '/' !in k.alias
    requires key == UuidKey(client, ServiceID(k.kind, 0), k.alias, NameOf(k.kind)) && key in w.kv && w.kv[key] == u
    requires u in w.instances && KeyOfInstance(w.instances[u]) == k
    ensures OwnUuid(w, client, key, k)
  {
  }

  lemma MarkKeepsIdentity(was: map<string, Instance>, u: string)
    ensures IdentityKept(was, MarkedDeleted(was, u)) && IdentityKept(was, was)
  {
  }

  lemma RepairKeepsIdentity(was: World, now: World, client: string)
    requires Repaired(was, now, client) || PartlyRepaired(was, now, client)
    ensures IdentityKept(was.instances, now.instances)
  {
    hide KeysKept, OtherNodesKept, Matched, WantedUnits, UnderMissing, IsUuidKey;
    forall u | u in was.instances
      ensures u in now.instances && now.instances[u].subsystem == was.instances[u].subsystem
      ensures u in now.instances && now.instances[u].name == was.instances[u].name
    {
      assert SameOrDeleted(was.instances, now.instances, u);
    }
  }

  /** Whatever happens, every stored UUID is some source's own. */
  lemma EventTrue(e: Event, was: World, now: World, config: Config, parent: string, reg: Registry)
    requires Agreeing(was, config.clientName, reg) && TrueUuids(was, config.clientName)
    requires Happens(e, was, now, config, parent) && (e.Tried? && e.c.AddExporter? ==> NoLookalikes(e.c.m.data))
    ensures TrueUuids(now, config.clientName)
  {
    hide Agreeing, TrueUuids, IdentityKept, Repaired, PartlyRepaired, Disagreement, NoLookalikes, FullyAdded,
      GloballyUnique, IsDuplicate, ChosenPort, RemoveSourceOutcome, RemovedMetrics, MetricsKind, QueriesKind, KnownName,
      ServiceName, Source.Valid, Matches, Dir, Below, DeleteTree, ServiceID, UnitName, MarkedDeleted, AddedSomehow,
      SameUnitsBut;
    var client := config.clientName;
    if now == was {
      return;
    }
    match e {
      case Mended =>
        RepairShape(was, now, client);
        RepairKeepsIdentity(was, now, client);
        ShrinkTrue(was, now, client);
      case Tried(c) =>
        match c {
          case AddExporter(m, alias, requested, force, disableSSL) =>
            var ok :| AddedAt(was, now, config, alias, requested, m, disableSSL, ok);
            assert AddedAt(was, now, config, alias, requested, m, disableSSL, ok);
            var port := ChosenPort(was.Services(client), requested, m.defaultPort).value;
            FullyAddedStores(was, config, alias, m, port, disableSSL);
            ExporterPuts(was, now, config, alias, m, port, disableSSL, ok);
            ExporterTrue(was, now, client, ServiceID(m.Kind(), port), m.data);
          case RemoveExporter(name, alias) =>
            var ok, faultless :| RemovedAMatch(was, now, client, MetricsKind(name), alias, ok, faultless);
            var id :| id in was.Services(client) && RemoveOutcome(was, now, client, id, ok, faultless);
            assert RemoveOutcome(was, now, client, id, ok, faultless);
            RemovedMetricsStores(was, client, id, was.Services(client)[id].kind, was.Services(client)[id].port);
            MarkKeepsIdentity(was.instances, "");
            TreeKeeps(was.kv, now.kv, Dir(client, id));
            ShrinkTrue(was, now, client);
          case AddSource(q, alias) =>
            var ok, faultless :|
              AddedSomehow(was, now, client, config.clientAddress, parent, alias, q, q.init.value.dsn, ok, faultless);
            SourceTrue(was, now, client, config.clientAddress, parent, reg, alias, q, q.init.value.dsn, ok, faultless);
          case RemoveSource(name, alias) =>
            var ok, faultless :|
              RemovedASource(was, now, client, config.clientAddress, QueriesKind(name), alias, name, ok, faultless);
            var id :| id in was.Services(client) &&
              RemoveSourceOutcome(was, now, client, config.clientAddress, id, alias, name, ok, faultless);
            Stuck.RemovalKeeps(was, now, client, config.clientAddress, id, alias, name, ok, faultless);
            RemovalRecords(was, now, client, config.clientAddress, id, alias, name, ok, faultless);
            var key := UuidKey(client, id, alias, name);
            MarkKeepsIdentity(was.instances, if key in was.kv then was.kv[key] else "");
            TreeKeeps(was.kv, now.kv, Dir(client, id) + alias + "/");
            ShrinkTrue(was, now, client);
        }
    }
  }

  lemma ExporterPuts(was: World, now: World, config: Config, alias: string, m: Plugin, port: int, disableSSL: bool,
                     ok: bool)
    requires
      var full := FullyAdded(was, config, alias, m, port, disableSSL);
      && full.kv == was.kv + Below(Dir(config.clientName, ServiceID(m.Kind(), port)), m.data)
      && full.instances == was.instances
      && if ok then now == full else PartlyAdded(was, now, full, UnitName(m.Kind(), port))
    ensures now.instances == was.instances
    ensures Between(was.kv, now.kv, was.kv + Below(Dir(config.clientName, ServiceID(m.Kind(), port)), m.data))
  {
    hide Below, Dir, ServiceID, MetricsKind, FullyAdded, UnitName;
  }

  lemma TreeKeeps(was: map<string, string>, now: map<string, string>, prefix: string)
    requires now == was || now == DeleteTree(was, prefix)
    ensures forall key | key in now :: key in was && now[key] == was[key]
  {
  }

  /** The UUID key of a source is one that repair looks for, and no other source's. */
  lemma UuidKeyIsSought(client: string, id: string, alias: string, kind: string)
    requires NameOf(kind) == "mysql" || NameOf(kind) == "mongodb"
    ensures client + "/" <= UuidKey(client, id, alias, NameOf(kind))
    ensures IsUuidKey(UuidKey(client, id, alias, NameOf(kind)))
  {
    hide HasSuffix;
    var before, tail := client + "/" + id + "/" + alias, "qan_" + NameOf(kind) + "_uuid";
    var key := UuidKey(client, id, alias, NameOf(kind));
    assert key == before + "/" + tail && key == (client + "/") + (id + "/" + alias + "/" + tail);
    assert "/qan_mysql_uuid" == "/" + "qan_mysql_uuid" && "/qan_mongodb_uuid" == "/" + "qan_mongodb_uuid";
    if NameOf(kind) == "mysql" {
      SuffixAfter(before, tail, "qan_mysql_uuid");
    } else {
      SuffixAfter(before, tail, "qan_mongodb_uuid");
    }
  }

  lemma SameUuidKey(client: string, k1: Key, k2: Key, name1: string, name2: string)
    requires '/' !in client && PlainKind(k1.kind) && PlainKind(k2.kind) && '/' !in k1.alias && '/' !in k2.alias
    requires UuidKey(client, ServiceID(k1.kind, 0), k1.alias,
                     name1) == UuidKey(client, ServiceID(k2.kind, 0), k2.alias, name2)
    ensures k1 == k2
  {
    hide ServiceID, PlainKind;
    var tail1, tail2 := "qan_" + name1 + "_uuid", "qan_" + name2 + "_uuid";
    ServiceIDHasNoSlash(k1.kind, 0);
    ServiceIDHasNoSlash(k2.kind, 0);
    var dir1, dir2 := Dir(client, ServiceID(k1.kind, 0)), Dir(client, ServiceID(k2.kind, 0));
    DirsDisjoint(client, ServiceID(k1.kind, 0), ServiceID(k2.kind, 0), UuidSub(k2.alias, name2));
    ServiceIDInjective(k1.kind, 0, k2.kind, 0);
    assert dir1 + UuidSub(k1.alias, name1) == dir1 + (k1.alias + "/" + tail1);
    assert dir1 + UuidSub(k2.alias, name2) == dir1 + (k2.alias + "/" + tail2);
    assert dir1 + k1.alias + "/" <= dir1 + (k2.alias + "/" + tail2);
    AliasDirsDisjoint(dir1, k1.alias, k2.alias, tail2);
    assert k1 == Key(k1.kind, k1.alias) && k2 == Key(k2.kind, k2.alias);
  }

  /** The source has a live instance that was created for it. */
  predicate HasInstance(w: World, parent: string, k: Key, u: string) {
    Live(w.instances, u, parent) && KeyOfInstance(w.instances[u]) == k
  }

  lemma StaysUnmarked(was: World, now: World, parent: string, k: Key, u: string)
    requires HasInstance(was, parent, k, u) && u in now.instances && now.instances[u] == was.instances[u]
    ensures HasInstance(now, parent, k, u)
  {
    hide KindOfSubsystem, IsSourceType;
  }

  /** The UUID stored for a source names no other source's instance. */
  lemma StoredIsOwn(w: World, client: string, parent: string, k: Key, k': Key, u: string)
    requires '/' !in client && TrueUuids(w, client) && HasInstance(w, parent, k, u)
    requires PlainKind(k'.kind) && '/' !in k'.alias && (NameOf(k'.kind) == "mysql" || NameOf(k'.kind) == "mongodb")
    requires
      var key := UuidKey(client, ServiceID(k'.kind, 0), k'.alias, NameOf(k'.kind));
      key in w.kv && w.kv[key] == u
    ensures k == k'
  {
    hide ServiceID, PlainKind, IsQueries, UuidKey, IsUuidKey, NameOf, KindOfSubsystem, IsSourceType;
    var key := UuidKey(client, ServiceID(k'.kind, 0), k'.alias, NameOf(k'.kind));
    UuidKeyIsSought(client, ServiceID(k'.kind, 0), k'.alias, k'.kind);
    var owner :| OwnUuid(w, client, key, owner);
    SameUuidKey(client, owner, k', NameOf(owner.kind), NameOf(k'.kind));
  }

  lemma SourceKindName(reg: Registry, k: Key)
    requires ValidRegistry(reg) && k in reg && reg[k].Source?
    ensures PlainKind(k.kind) && '/' !in k.alias && (NameOf(k.kind) == "mysql" || NameOf(k.kind) == "mongodb")
    ensures IdOf(k, reg[k]) == ServiceID(k.kind, 0) && k.kind == QueriesKind(NameOf(k.kind))
  {
    EntryIsValid(reg, k);
    KnownKinds(k.kind);
  }

  lemma RemovalSpares(was: World, now: World, client: string, address: string, parent: string, reg: Registry,
                      c: Command, id: string, ok: bool, faultless: bool, k: Key, u: string)
    requires Agreeing(was, client, reg) && TrueUuids(was, client) && c.RemoveSource? && c.Valid()
    requires id in was.Services(client) && Matches(was.Services(client)[id], QueriesKind(c.name), c.alias)
    requires RemoveSourceOutcome(was, now, client, address, id, c.alias, c.name, ok, faultless)
    requires HasInstance(was, parent, k, u) && !c.Concerns(k)
    ensures HasInstance(now, parent, k, u)
  {
    hide ServiceID, PlainKind, IsQueries, UuidKey, IsUuidKey, NameOf, CatalogAgrees, ValidRegistry, TrueUuids, Matches,
      RemoveSourceOutcome, KnownName, QueriesKind, KindOfSubsystem, IsSourceType, ValidEntry;
    var k0 := MatchHasEntry(was.Services(client), reg, id, QueriesKind(c.name), c.alias);
    QueriesEntry(reg, k0, c.name);
    SourceKindName(reg, k0);
    KnownQueries(c.name);
    RemovalRecords(was, now, client, address, id, c.alias, c.name, ok, faultless);
    var key := UuidKey(client, id, c.alias, c.name);
    if now.instances != was.instances && was.kv[key] == u {
      StoredIsOwn(was, client, parent, k, Key(k0.kind, c.alias), u);
    }
  }

  lemma RepairSpares(was: World, now: World, client: string, parent: string, reg: Registry, k: Key, u: string)
    requires Agreeing(was, client, reg) && TrueUuids(was, client) && k in reg && reg[k].Source?
    requires UnitOf(k, reg[k]) in was.units && HasInstance(was, parent, k, u)
    requires Repaired(was, now, client) || PartlyRepaired(was, now, client)
    ensures HasInstance(now, parent, k, u)
  {
    hide ServiceID, UnitName, PlainKind, IsQueries, UuidKey, IsUuidKey, NameOf, CatalogAgrees, ValidRegistry, KeysKept,
      OtherNodesKept, Matched, WantedUnits, KindOfSubsystem, IsSourceType, Dir, ValidEntry;
    LiveIsThere(was.instances, u, parent);
    assert SameOrDeleted(was.instances, now.instances, u);
    if now.instances[u] != was.instances[u] {
      var key :| key in was.kv && UnderMissing(was, client, key) && IsUuidKey(key) && was.kv[key] == u;
      var id :| id in was.Services(client) && IsMissing(was, client, id) && Dir(client, id) <= key;
      DirIsBelow(client, id, key);
      var owner :| OwnUuid(was, client, key, owner);
      AgreedIsWellNamed(was.Services(client), reg);
      Stuck.NameAt(was.Services(client), id);
      SourceKindName(reg, k);
      ServiceAt(was.Services(client), reg, k);
      ServiceIDHasNoSlash(was.Services(client)[id].kind, was.Services(client)[id].port);
      ServiceIDHasNoSlash(k.kind, 0);
      UuidIsBelow(client, ServiceID(k.kind, 0), k.alias, NameOf(k.kind));
      DirsDisjoint(client, id, ServiceID(k.kind, 0), UuidSub(k.alias, NameOf(k.kind)));
    } else {
      StaysUnmarked(was, now, parent, k, u);
    }
  }

  lemma UuidIsBelow(client: string, id: string, alias: string, name: string)
    ensures UuidKey(client, id, alias, name) == Dir(client, id) + UuidSub(alias, name)
  {
  }

  /** An instance stays live unless a command was about its source. */
  lemma EventSpares(e: Event, was: World, now: World, config: Config, parent: string, reg: Registry,
                    events: seq<Event>, k: Key)
    requires Sound(was, config.clientName, reg, events) && TrueUuids(was, config.clientName)
    requires Happens(e, was, now, config, parent) && k in reg && reg[k].Source?
    requires !Touched(events, k) && !Touches(e, k) && HasInstance(was, parent, k, reg[k].uuid)
    ensures HasInstance(now, parent, k, reg[k].uuid)
  {
    hide Agreeing, TrueUuids, Repaired, PartlyRepaired, Disagreement, FullyAdded, GloballyUnique, IsDuplicate,
      ChosenPort, RemoveSourceOutcome, RemovedMetrics, MetricsKind, QueriesKind, KnownName, ServiceName, Source.Valid,
      Matches, DeleteTree, ServiceID, UnitName, MarkedDeleted, AddOutcome, HasInstance, HasKeys, Touched, Between;
    var client, u := config.clientName, reg[k].uuid;
    if now == was {
      return;
    }
    match e {
      case Mended =>
        assert Intact(was, client, k, reg[k], Touched(events, k));
        RepairSpares(was, now, client, parent, reg, k, u);
      case Tried(c) =>
        match c {
          case AddExporter(m, alias, requested, force, disableSSL) =>
            var ok :| AddedAt(was, now, config, alias, requested, m, disableSSL, ok);
            assert AddedAt(was, now, config, alias, requested, m, disableSSL, ok);
            FullyAddedStores(was, config, alias, m,
                             ChosenPort(was.Services(client), requested, m.defaultPort).value, disableSSL);
            SameInstance(was, now, parent, k, u);
          case RemoveExporter(name, alias) =>
            var ok, faultless :| RemovedAMatch(was, now, client, MetricsKind(name), alias, ok, faultless);
            var id :| id in was.Services(client) && RemoveOutcome(was, now, client, id, ok, faultless);
            assert RemoveOutcome(was, now, client, id, ok, faultless);
            RemovedMetricsStores(was, client, id, was.Services(client)[id].kind, was.Services(client)[id].port);
            SameInstance(was, now, parent, k, u);
          case AddSource(q, alias) =>
            var ok, faultless :|
              AddedSomehow(was, now, client, config.clientAddress, parent, alias, q, q.init.value.dsn, ok, faultless);
            var b, uuid :|
              AddOutcome(was, now, client, config.clientAddress, parent, alias, q, q.init.value.dsn, b, uuid, ok,
                         faultless);
            AdditionRecords(was, now, client, config.clientAddress, parent, alias, q, q.init.value.dsn, b, uuid, ok,
                            faultless);
            SameIdentity(was, now, parent, k, u);
          case RemoveSource(name, alias) =>
            var ok, faultless :|
              RemovedASource(was, now, client, config.clientAddress, QueriesKind(name), alias, name, ok, faultless);
            var id :| id in was.Services(client) && Matches(was.Services(client)[id], QueriesKind(name), alias) &&
              RemoveSourceOutcome(was, now, client, config.clientAddress, id, alias, name, ok, faultless);
            RemovalSpares(was, now, client, config.clientAddress, parent, reg, c, id, ok, faultless, k, u);
        }
    }
  }

  lemma SameInstance(was: World, now: World, parent: string, k: Key, u: string)
    requires HasInstance(was, parent, k, u) && now.instances == was.instances
    ensures HasInstance(now, parent, k, u)
  {
  }

  lemma SameIdentity(was: World, now: World, parent: string, k: Key, u: string)
    requires HasInstance(was, parent, k, u) && IdentityKept(was.instances, now.instances)
    requires forall u | Live(was.instances, u, parent) :: Live(now.instances, u, parent)
    ensures HasInstance(now, parent, k, u)
  {
    hide KindOfSubsystem, IsSourceType;
  }

  /**
   * Over every such run, if no exporter's data looks like a UUID: a UUID that is stored names an instance created
   * for the very source it is stored for, and a source that no command was about keeps its live instance.
   */
  lemma {:induction false} GatedRunsKeepInstances(states: seq<World>, events: seq<Event>, config: Config,
                                                  parent: string,
                                                  reg0: Registry)
    requires GatedRun(states, events, config, parent) && Represents(states[0], config.clientName, parent, reg0)
    requires Proper(reg0, events)
    ensures TrueUuids(states[|events|], config.clientName)
    ensures forall k | k in reg0 && reg0[k].Source? && !Touched(events, k) ::
      HasInstance(states[|events|], parent, k, reg0[k].uuid)
    decreases |events|
  {
    hide Sound, Conserves, Happens, Represents, TrueUuids, HasInstance, Touched, NoLookalikes, Touches;
    if events == [] {
      RepresentedIsTrue(states[0], config.clientName, parent, reg0);
      forall k | k in reg0 && reg0[k].Source?
        ensures HasInstance(states[0], parent, k, reg0[k].uuid)
      {
        EntryHasInstance(states[0], config.clientName, parent, reg0, k);
      }
    } else {
      var n, client := |events| - 1, config.clientName;
      var e, before := events[n], events[..n];
      assert events == before + [e] && e in events;
      assert Proper(reg0, before);
      GatedRunsKeepInstances(states[..n + 1], before, config, parent, reg0);
      var reg := RunSound(states[..n + 1], before, config, parent, reg0);
      SoundAgrees(states[n], client, reg, before);
      EventTrue(e, states[n], states[n + 1], config, parent, reg);
      forall k | k in reg0 && reg0[k].Source? && !Touched(events, k)
        ensures HasInstance(states[n + 1], parent, k, reg0[k].uuid)
      {
        TouchedMore(before, e, k);
        StillRegistered(reg0, reg, before, k);
        EventSpares(e, states[n], states[n + 1], config, parent, reg, before, k);
      }
    }
  }

  lemma EntryHasInstance(w: World, client: string, parent: string, reg: Registry, k: Key)
    requires Represents(w, client, parent, reg) && k in reg && reg[k].Source?
    ensures HasInstance(w, parent, k, reg[k].uuid)
  {
    hide Represents, KeyOfInstance;
    EntryIsLive(w, client, parent, reg, k);
  }

  lemma SoundAgrees(w: World, client: string, reg: Registry, events: seq<Event>)
    requires Sound(w, client, reg, events)
    ensures Agreeing(w, client, reg)
  {
  }

  lemma StillRegistered(reg: Registry, reg': Registry, events: seq<Event>, k: Key)
    requires Conserves(reg, reg', events) && k in reg && !Touched(events, k)
    ensures k in reg' && reg'[k] == reg[k]
  {
    hide Touched;
  }
}
