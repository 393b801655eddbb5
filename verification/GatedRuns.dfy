/**
 * Runs of commands that may fail at any call, with repairs in between: every state's catalog agrees with some
 * registry, and what no command was about is complete.
 */
module GatedRuns {
  import opened Stores
  import opened Registry
  import opened Transitions
  import opened QueryTransitions
  import opened Monitor
  import opened Lookup
  import opened Sanitize
  import opened Metrics
  import opened Queries
  import opened Refinement
  import opened Runs
  import opened Repair
  import opened Failures
  import opened Recovery
  import Stuck

  datatype Event = Tried(c: Command) | Mended

  /**
   * A command, whatever its calls do, or a repair that could read the catalog, complete or not. Additions are made
   * where nothing disagrees; the removals that one invocation makes after its check may follow each other.
   */
  ghost predicate Happens(e: Event, was: World, now: World, config: Config, parent: string) {
    match e
    case Tried(c) =>
      && c.Valid() && (c.Adds() ==> Disagreement(was, config.clientName) == {})
      && Attempts(c, was, now, config, parent)
    case Mended => Repaired(was, now, config.clientName) || PartlyRepaired(was, now, config.clientName)
  }

  predicate Touches(e: Event, k: Key) { e.Tried? && e.c.Concerns(k) }

  /** Some command of the run was about this key. */
  predicate Touched(events: seq<Event>, k: Key) {
    exists e | e in events :: Touches(e, k)
  }

  lemma TouchedMore(events: seq<Event>, e: Event, k: Key)
    ensures Touched(events + [e], k) <==> Touched(events, k) || Touches(e, k)
  {
    hide Touches;
    var all := events + [e];
    assert all[|events|] == e;
    if Touched(events, k) {
      var e' :| e' in events && Touches(e', k);
      assert e' in all;
    }
  }

  /** All keys of the entry are stored, with their values. */
  predicate HasKeys(kv: map<string, string>, client: string, k: Key, e: Entry) {
    forall sub | sub in DataOf(k, e) ::
      DataKey(client, k, e, sub) in kv && kv[DataKey(client, k, e, sub)] == DataOf(k, e)[sub]
  }

  /** An entry that no command was about is complete; an exporter with a local service has its keys in any case. */
  predicate Intact(w: World, client: string, k: Key, e: Entry, touched: bool) {
    && (!touched ==> UnitOf(k, e) in w.units && HasKeys(w.kv, client, k, e))
    && (e.Exporter? && UnitOf(k, e) in w.units ==> HasKeys(w.kv, client, k, e))
  }

  ghost predicate Agreeing(w: World, client: string, reg: Registry) {
    '/' !in client && ValidRegistry(reg) && CatalogAgrees(w.Services(client), reg)
  }

  /** What a run keeps: the catalog agrees with a registry, and its entries are intact. */
  ghost predicate Sound(w: World, client: string, reg: Registry, events: seq<Event>) {
    Agreeing(w, client, reg) && forall k | k in reg :: Intact(w, client, k, reg[k], Touched(events, k))
  }

  /** Entries that no command was about stay, and none is added. */
  ghost predicate Conserves(reg: Registry, reg': Registry, events: seq<Event>) {
    forall k | !Touched(events, k) :: (k in reg <==> k in reg') && (k in reg ==> reg'[k] == reg[k])
  }

  lemma RepresentedIsSound(w: World, client: string, parent: string, reg: Registry)
    requires Represents(w, client, parent, reg)
    ensures Sound(w, client, reg, [])
  {
    hide Represents, CatalogAgrees, UnitsAgree, InstancesAgree, KeysAgree, ValidRegistry, ServiceID, UnitName, Dir,
      DataOf;
    Parts(w, client, parent, reg);
    forall k | k in reg
      ensures UnitOf(k, reg[k]) in w.units && HasKeys(w.kv, client, k, reg[k])
    {
      EntryHasUnit(w, client, parent, reg, k);
      forall sub | sub in DataOf(k, reg[k])
        ensures DataKey(client, k, reg[k],
                        sub) in w.kv && w.kv[DataKey(client, k, reg[k], sub)] == DataOf(k, reg[k])[sub]
      {
        var dir := Dir(client, IdOf(k, reg[k]));
        assert (dir + sub)[|dir|..] == sub;
        assert IsKeyOf(client, dir + sub, k, reg);
        KeyIsThere(w.kv, client, reg, dir + sub, k);
      }
    }
  }

  // ---------- what is carried over ----------

  predicate SameKeys(was: map<string, string>, now: map<string, string>, client: string, k: Key, reg: Registry) {
    forall key | IsKeyOf(client, key, k, reg) && key in was :: key in now && now[key] == was[key]
  }

  /** The entry's local service stays, and its keys. */
  predicate Carried(was: World, now: World, client: string, k: Key, reg: Registry)
    requires k in reg
  {
    var unit := UnitOf(k, reg[k]);
    && (unit in was.units ==> unit in now.units && SameKeys(was.kv, now.kv, client, k, reg))
    && (reg[k].Exporter? && unit in now.units ==> unit in was.units)
  }

  lemma CarriedKeys(was: map<string, string>, now: map<string, string>, client: string, k: Key, reg: Registry)
    requires k in reg && HasKeys(was, client, k, reg[k]) && SameKeys(was, now, client, k, reg)
    ensures HasKeys(now, client, k, reg[k])
  {
    hide ServiceID, Dir, DataOf;
    var dir := Dir(client, IdOf(k, reg[k]));
    forall sub | sub in DataOf(k, reg[k])
      ensures DataKey(client, k, reg[k], sub) in now && now[DataKey(client, k, reg[k], sub)] == DataOf(k, reg[k])[sub]
    {
      assert (dir + sub)[|dir|..] == sub;
      assert IsKeyOf(client, dir + sub, k, reg);
    }
  }

  /** One event further: old entries are carried over, and what is new is what the command was about. */
  lemma OneMoreEvent(was: World, now: World, client: string, reg: Registry, reg': Registry, events: seq<Event>,
                     e: Event)
    requires Sound(was, client, reg, events) && Agreeing(now, client, reg')
    requires forall k | k in reg' && k in reg ::
      reg'[k] == reg[k] && (Carried(was, now, client, k, reg) || (Touches(e, k) && reg[k].Source?))
    requires forall k | k in reg' && k !in reg :: Touches(e, k) && NewEntry(now, client, k, reg'[k])
    ensures Sound(now, client, reg', events + [e])
  {
    hide ServiceID, UnitName, HasKeys, SameKeys, Agreeing, Touches, Touched;
    forall k | k in reg'
      ensures Intact(now, client, k, reg'[k], Touched(events + [e], k))
    {
      TouchedMore(events, e, k);
      if k in reg {
        assert Intact(was, client, k, reg[k], Touched(events, k));
        if HasKeys(was.kv, client, k, reg[k]) && SameKeys(was.kv, now.kv, client, k, reg) {
          CarriedKeys(was.kv, now.kv, client, k, reg);
        }
      }
    }
  }

  predicate NewEntry(now: World, client: string, k: Key, e: Entry) {
    e.Exporter? && UnitOf(k, e) in now.units ==> HasKeys(now.kv, client, k, e)
  }

  // ---------- an exporter is added ----------

  /** Where nothing disagrees, a port that no service has is one that no local service has. */
  lemma FreshUnit(w: World, client: string, kind: string, port: int)
    requires WellNamed(w.Services(client)) && Disagreement(w, client) == {} && PlainKind(kind)
    requires forall id | id in w.Services(client) :: w.Services(client)[id].port != port
    ensures UnitName(kind, port) !in w.units
  {
    hide UnitName, ServiceID, PlainKind;
    var services := w.Services(client);
    if UnitName(kind, port) in w.units {
      assert UnitName(kind, port) in Wanted(services);
      var id :| id in services && UnitOfService(services[id]) == UnitName(kind, port);
      UnitNameInjective(services[id].kind, services[id].port, kind, port);
    }
  }

  lemma KeysBetween(was: map<string, string>, now: map<string, string>, client: string, reg: Registry, k: Key, e: Entry,
                    k': Key)
    requires '/' !in client && ValidRegistry(reg) && ValidEntry(k, e) && k' in reg
    requires forall k' | k' in reg :: IdOf(k', reg[k']) != IdOf(k, e)
    requires Between(was, now, was + Below(Dir(client, IdOf(k, e)), DataOf(k, e)))
    ensures SameKeys(was, now, client, k', reg)
  {
    hide ServiceID, Below, DataOf, ValidRegistry, ValidEntry, IsKeyOf, Dir;
    FreshDir(client, reg, k, e);
    forall key | IsKeyOf(client, key, k', reg) && key in was
      ensures key in now && now[key] == was[key]
    {
      assert At(now,
                key) == At(was, key) || At(now, key) == At(was + Below(Dir(client, IdOf(k, e)), DataOf(k, e)), key);
    }
  }

  lemma AllKeysBelow(kv: map<string, string>, client: string, k: Key, e: Entry)
    ensures HasKeys(kv + Below(Dir(client, IdOf(k, e)), DataOf(k, e)), client, k, e)
  {
    hide ServiceID, Below, DataOf, Dir;
    var dir := Dir(client, IdOf(k, e));
    forall sub | sub in DataOf(k, e)
      ensures DataKey(client, k, e, sub) in Below(dir, DataOf(k, e))
      ensures Below(dir, DataOf(k, e))[DataKey(client, k, e, sub)] == DataOf(k, e)[sub]
    {
      BelowAt(dir, DataOf(k, e), sub);
    }
  }

  lemma ExporterJoins(was: World, now: World, client: string, reg: Registry, events: seq<Event>, c: Command, k: Key,
                      e: Entry)
    requires Sound(was, client, reg, events) && Disagreement(was, client) == {}
    requires k !in reg && e.Exporter? && ValidEntry(k, e) && Touches(Tried(c), k)
    requires forall id | id in was.Services(client) :: was.Services(client)[id].port != e.port
    requires now.Services(client) == was.Services(client)[IdOf(k, e) := ExporterService(k, e)]
    requires
      var full := was.kv + Below(Dir(client, IdOf(k, e)), DataOf(k, e));
      && Between(was.kv, now.kv, full)
      && (now.units == was.units || (now.units.Keys == was.units.Keys + {UnitOf(k, e)} && now.kv == full))
    ensures Sound(now, client, reg[k := e], events + [Tried(c)])
  {
    hide ServiceID, UnitName, ValidEntry, Below, Dir, DataOf, ExporterService, HasKeys, Touches, Touched, SameKeys,
      ValidRegistry, CatalogAgrees, Disagreement, Intact;
    var services := was.Services(client);
    AgreedIsWellNamed(services, reg);
    ValidPut(services, reg, k, e);
    CatalogAddExporter(services, reg, k, e);
    FreshPortIsFreshId(services, reg, k, e);
    KindsArePlain(k, e);
    FreshUnit(was, client, k.kind, e.port);
    AllKeysBelow(was.kv, client, k, e);
    forall k' | k' in reg
      ensures Carried(was, now, client, k', reg)
    {
      KeysBetween(was.kv, now.kv, client, reg, k, e, k');
      OtherUnit(reg, k, e, k');
    }
    OneMoreEvent(was, now, client, reg, reg[k := e], events, Tried(c));
  }

  /** An entry at another port has another local service. */
  lemma OtherUnit(reg: Registry, k: Key, e: Entry, k': Key)
    requires ValidRegistry(reg) && ValidEntry(k, e) && k' in reg && PortOf(reg[k']) != PortOf(e)
    ensures UnitOf(k', reg[k']) != UnitOf(k, e)
  {
    hide UnitName, DistinctPorts;
    if UnitOf(k', reg[k']) == UnitOf(k, e) {
      UnitNameInjective(k'.kind, PortOf(reg[k']), k.kind, PortOf(e));
    }
  }

  lemma ExporterTried(c: Command, was: World, now: World, config: Config, parent: string, reg: Registry,
                      events: seq<Event>) returns (reg': Registry)
    requires Sound(was, config.clientName, reg, events) && c.AddExporter? && now != was
    requires c.Valid() && Disagreement(was, config.clientName) == {} && Attempts(c, was, now, config, parent)
    ensures Sound(now, config.clientName, reg', events + [Tried(c)]) && Conserves(reg, reg', events + [Tried(c)])
  {
    hide ServiceID, UnitName, ValidEntry, Below, Dir, ExporterService, HasKeys, Touched, ValidRegistry, CatalogAgrees,
      Disagreement, Intact, FullyAdded, GloballyUnique, IsDuplicate, ChosenPort, MetricsKind, KnownName, ServiceName,
      Between;
    var client, services := config.clientName, was.Services(config.clientName);
    var ok :| AddedAt(was, now, config, c.alias, c.requested, c.m, c.disableSSL, ok);
    assert AddedAt(was, now, config, c.alias, c.requested, c.m, c.disableSSL, ok);
    ChosenPortIsLeast(services, c.requested, c.m.defaultPort);
    var port := ChosenPort(services, c.requested, c.m.defaultPort).value;
    var k, e := c.Target(), c.m.Registered(port, c.disableSSL);
    UniqueIsUnknown(was, client, config.clientAddress, reg, k.kind, k.alias);
    RegisteredIsValid(c.m, c.alias, port, c.disableSSL);
    var full := FullyAdded(was, config, c.alias, c.m, port, c.disableSSL);
    FullyAddedStores(was, config, c.alias, c.m, port, c.disableSSL);
    SameCatalog(now, full, client);
    Registers(was, full, client, config.clientAddress, IdOf(k, e), ExporterService(k, e));
    Between2(was.kv, full.kv);
    ExporterJoins(was, now, client, reg, events, c, k, e);
    reg' := reg[k := e];
    TouchedTarget(events, c, k);
  }

  lemma Registers(was: World, now: World, client: string, address: string, id: string, svc: Service)
    requires now.catalog == WithService(was.catalog, client, address, id, svc)
    ensures now.Services(client) == was.Services(client)[id := svc]
  {
  }

  lemma Between2(was: map<string, string>, full: map<string, string>)
    ensures Between(was, full, full)
  {
  }

  lemma TouchedTarget(events: seq<Event>, c: Command, k: Key)
    requires c.Concerns(k)
    ensures Touched(events + [Tried(c)], k)
  {
    hide Command.Concerns;
    TouchedMore(events, Tried(c), k);
  }

  // ---------- an exporter is removed ----------

  lemma KeysOutside(was: map<string, string>, now: map<string, string>, client: string, reg: Registry, id: string,
                    k: Key)
    requires '/' !in client && '/' !in id && ValidRegistry(reg) && k in reg && IdOf(k, reg[k]) != id
    requires now == was || now == DeleteTree(was, Dir(client, id))
    ensures SameKeys(was, now, client, k, reg)
  {
    hide ServiceID, Dir, DataOf, ValidRegistry;
    forall key | IsKeyOf(client, key, k, reg) && key in was
      ensures key in now && now[key] == was[key]
    {
      if Dir(client, id) <= key {
        KeyInOneDir(client, id, key, k, reg);
      }
    }
  }

  lemma ExporterLeaves(was: World, now: World, client: string, reg: Registry, events: seq<Event>, c: Command, k: Key)
    requires Sound(was, client, reg, events) && k in reg && reg[k].Exporter?
    requires now.Services(client) == was.Services(client) - {IdOf(k, reg[k])}
    requires now.kv == was.kv || now.kv == DeleteTree(was.kv, Dir(client, IdOf(k, reg[k])))
    requires SameUnitsBut(was.units, now.units, UnitOf(k, reg[k]))
    ensures Sound(now, client, reg - {k}, events + [Tried(c)])
  {
    hide ServiceID, UnitName, ValidEntry, Dir, DeleteTree, HasKeys, Touches, Touched, SameKeys, ValidRegistry,
      CatalogAgrees,
      Intact;
    ExporterIsAlone(reg, k);
    ValidDrop(reg, k);
    CatalogDrop(was.Services(client), reg, k);
    EntryIsValid(reg, k);
    SlashFree(k, reg[k]);
    forall k' | k' in reg - {k}
      ensures Carried(was, now, client, k', reg)
    {
      KeysOutside(was.kv, now.kv, client, reg, IdOf(k, reg[k]), k');
      assert UnitOf(k', reg[k']) in now.units.Keys - {UnitOf(k, reg[k])} <==> UnitOf(k', reg[k']) in now.units;
      assert UnitOf(k', reg[k']) in was.units.Keys - {UnitOf(k, reg[k])} <==> UnitOf(k', reg[k']) in was.units;
    }
    OneMoreEvent(was, now, client, reg, reg - {k}, events, Tried(c));
  }

  lemma EntryIsValid(reg: Registry, k: Key)
    requires ValidRegistry(reg) && k in reg
    ensures ValidEntry(k, reg[k])
  {
    hide ValidEntry;
  }

  /** A state in which only the listed stores may have changed carries everything over. */
  lemma NothingLost(was: World, now: World, client: string, reg: Registry, events: seq<Event>, e: Event)
    requires Sound(was, client, reg, events)
    requires now.Services(client) == was.Services(client) && now.kv == was.kv
    requires forall u | u in was.units :: u in now.units
    requires forall k | k in reg && reg[k].Exporter? && UnitOf(k, reg[k]) in now.units :: UnitOf(k, reg[k]) in was.units
    ensures Sound(now, client, reg, events + [e]) && Conserves(reg, reg, events + [e])
  {
    hide ServiceID, UnitName, HasKeys, Touches, Touched, ValidRegistry, CatalogAgrees, Intact;
    OneMoreEvent(was, now, client, reg, reg, events, e);
  }

  lemma RemovedExporterTried(c: Command, was: World, now: World, config: Config, parent: string, reg: Registry,
                             events: seq<Event>) returns (reg': Registry)
    requires Sound(was, config.clientName, reg, events) && c.RemoveExporter? && now != was
    requires c.Valid() && Attempts(c, was, now, config, parent)
    ensures Sound(now, config.clientName, reg', events + [Tried(c)]) && Conserves(reg, reg', events + [Tried(c)])
  {
    hide ServiceID, UnitName, ValidEntry, Dir, DeleteTree, HasKeys, Touched, ValidRegistry, CatalogAgrees, Intact,
      MetricsKind, KnownName, Matches, RemovedMetrics;
    var client, services := config.clientName, was.Services(config.clientName);
    var ok, faultless :| RemovedAMatch(was, now, client, MetricsKind(c.name), c.alias, ok, faultless);
    var id :| id in services && Matches(services[id], MetricsKind(c.name), c.alias) &&
      RemoveOutcome(was, now, client, id, ok, faultless);
    assert RemoveOutcome(was, now, client, id, ok, faultless);
    var k := MatchHasEntry(services, reg, id, MetricsKind(c.name), c.alias);
    MetricsEntry(reg, k, c.name);
    ServiceAt(services, reg, k);
    RemovedMetricsStores(was, client, id, services[id].kind, services[id].port);
    SameCatalog(now, RemovedMetrics(was, client, id, services[id].kind, services[id].port), client);
    ExporterLeaves(was, now, client, reg, events, c, k);
    reg' := reg - {k};
    TouchedTarget(events, c, k);
  }

  lemma MetricsEntry(reg: Registry, k: Key, name: string)
    requires ValidRegistry(reg) && k in reg && k.kind == MetricsKind(name) && KnownName(name)
    ensures reg[k].Exporter?
  {
    hide SvcTypes, PlainKind;
    EntryIsValid(reg, k);
    KnownMetrics(name);
  }

  lemma ServiceAt(services: map<string, Service>, reg: Registry, k: Key)
    requires CatalogAgrees(services, reg) && k in reg
    ensures IdOf(k, reg[k]) in services
    ensures
      var svc := services[IdOf(k, reg[k])];
      svc.kind == k.kind && svc.port == PortOf(reg[k]) && UnitOfService(svc) == UnitOf(k, reg[k])
  {
    hide ServiceID, UnitName, AliasTag;
    assert Served(services, k, reg[k]);
  }

  // ---------- a query source is added ----------

  /** The keys of a new source are nobody else's. */
  lemma SourceKeysAreNew(was: map<string, string>, now: map<string, string>, client: string, reg: Registry, k: Key,
                         e: Entry, k': Key)
    requires '/' !in client && ValidRegistry(reg) && k !in reg && k' in reg && ValidEntry(k, e) && e.Source?
    requires
      var dir := Dir(client, IdOf(k, e));
      var first := was[dir + DsnSub(k.alias) := e.dsn];
      now == was || now == first || now == first[dir + UuidSub(k.alias, NameOf(k.kind)) := e.uuid]
    ensures SameKeys(was, now, client, k', reg)
  {
    hide ServiceID, Dir, NameOf, ValidRegistry, ValidEntry, IsKeyOf;
    var dir, tail := Dir(client, IdOf(k, e)), "qan_" + NameOf(k.kind) + "_uuid";
    SourceKeysApart(client, reg, k, e);
    assert dir + DsnSub(k.alias) == (dir + k.alias + "/") + "dsn";
    assert dir + UuidSub(k.alias, NameOf(k.kind)) == (dir + k.alias + "/") + tail;
    assert k' != k;
  }

  /** An exporter's local service is not that of the query sources. */
  lemma NotOnPortZero(reg: Registry, k: Key, kind: string)
    requires ValidRegistry(reg) && k in reg && reg[k].Exporter? && PlainKind(kind)
    ensures UnitOf(k, reg[k]) != UnitName(kind, 0)
  {
    hide UnitName, DistinctPorts;
    if UnitOf(k, reg[k]) == UnitName(kind, 0) {
      UnitNameInjective(k.kind, PortOf(reg[k]), kind, 0);
    }
  }

  lemma SourceJoins(was: World, now: World, client: string, reg: Registry, events: seq<Event>, c: Command, k: Key,
                    e: Entry, tags: seq<string>)
    requires Sound(was, client, reg, events) && k !in reg && e.Source? && ValidEntry(k, e) && Touches(Tried(c), k)
    requires TagsOf(was.Services(client), IdOf(k, e), tags)
    requires now.Services(client) == was.Services(client)[IdOf(k, e) := SourceService(k, tags)]
    requires
      var dir := Dir(client, IdOf(k, e));
      var first := was.kv[dir + DsnSub(k.alias) := e.dsn];
      now.kv == was.kv || now.kv == first || now.kv == first[dir + UuidSub(k.alias, NameOf(k.kind)) := e.uuid]
    requires SameUnitsBut(was.units, now.units, UnitName(k.kind, 0)) && forall u | u in was.units :: u in now.units
    ensures Sound(now, client, reg[k := e], events + [Tried(c)])
  {
    hide ServiceID, UnitName, ValidEntry, Dir, HasKeys, Touches, Touched, SameKeys, ValidRegistry, CatalogAgrees,
      Intact,
      SourceService, DsnSub, UuidSub, NameOf;
    ValidPut(was.Services(client), reg, k, e);
    CatalogAddSource(was.Services(client), reg, k, e, tags);
    KindsArePlain(k, e);
    forall k' | k' in reg
      ensures Carried(was, now, client, k', reg)
    {
      SourceKeysAreNew(was.kv, now.kv, client, reg, k, e, k');
      var unit := UnitOf(k', reg[k']);
      if reg[k'].Exporter? {
        NotOnPortZero(reg, k', k.kind);
        assert unit in now.units.Keys - {UnitName(k.kind, 0)} <==> unit in now.units;
        assert unit in was.units.Keys - {UnitName(k.kind, 0)} <==> unit in was.units;
      }
    }
    OneMoreEvent(was, now, client, reg, reg[k := e], events, Tried(c));
  }

  lemma SourceTried(c: Command, was: World, now: World, config: Config, parent: string, reg: Registry,
                    events: seq<Event>) returns (reg': Registry)
    requires Sound(was, config.clientName, reg, events) && c.AddSource? && now != was
    requires c.Valid() && Attempts(c, was, now, config, parent)
    ensures Sound(now, config.clientName, reg', events + [Tried(c)]) && Conserves(reg, reg', events + [Tried(c)])
  {
    hide ServiceID, UnitName, ValidEntry, Dir, HasKeys, Touched, ValidRegistry, CatalogAgrees, Intact, SourceService,
      DsnSub, UuidSub, NameOf, GloballyUnique, AddOutcome, Source.Valid, ServiceName, SanitizeDSN, PlainKind, IsQueries,
      QueriesKind, TagsOf, SameUnitsBut;
    var client, address, services := config.clientName, config.clientAddress, was.Services(config.clientName);
    var ok, faultless :| AddedSomehow(was, now, client, address, parent, c.alias, c.q, c.q.init.value.dsn, ok,
                                      faultless);
    var dsn := c.q.init.value.dsn;
    var b, uuid :| AddOutcome(was, now, client, address, parent, c.alias, c.q, dsn, b, uuid, ok, faultless);
    AdditionShape(was, now, client, address, parent, c.alias, c.q, dsn, b, uuid, ok, faultless);
    AdditionKeeps(was, now, client, address, parent, c.alias, c.q, dsn, b, uuid, ok, faultless);
    var k, e := c.Target(), Entry.Source(SanitizeDSN(dsn), uuid);
    SourceIsValid(c.q, c.alias, SanitizeDSN(dsn), uuid);
    SourceRole(k, e);
    SourceNames(k, e);
    UniqueIsUnknown(was, client, address, reg, k.kind, k.alias);
    BaseTags(services, reg, k.kind, b);
    TouchedTarget(events, c, k);
    if now.Services(client) == services && now.kv == was.kv {
      ExporterUnits(was, now, reg, k.kind);
      NothingLost(was, now, client, reg, events, Tried(c));
      reg' := reg;
    } else {
      JoinedService(k, b.tags);
      SourceJoins(was, now, client, reg, events, c, k, e, b.tags);
      reg' := reg[k := e];
    }
  }

  lemma JoinedService(k: Key, tags: seq<string>)
    ensures SourceService(k, tags) == Service(k.kind, TagsWith(tags, k.alias), 0)
  {
    hide TagsWith;
  }

  lemma SourceRole(k: Key, e: Entry)
    requires ValidEntry(k, e) && e.Source?
    ensures IsQueries(k.kind) && PlainKind(k.kind)
  {
  }

  lemma ExporterUnits(was: World, now: World, reg: Registry, kind: string)
    requires ValidRegistry(reg) && PlainKind(kind) && SameUnitsBut(was.units, now.units, UnitName(kind, 0))
    ensures forall k | k in reg && reg[k].Exporter? && UnitOf(k, reg[k]) in now.units :: UnitOf(k, reg[k]) in was.units
  {
    hide UnitName, PlainKind, ValidRegistry;
    forall k | k in reg && reg[k].Exporter? && UnitOf(k, reg[k]) in now.units
      ensures UnitOf(k, reg[k]) in was.units
    {
      NotOnPortZero(reg, k, kind);
      assert UnitOf(k, reg[k]) in now.units.Keys - {UnitName(kind, 0)};
    }
  }

  // ---------- a query source is removed ----------

  /** Without a name nothing but the tags that are no aliases go. */
  lemma AllAliasesStay(services: map<string, Service>, reg: Registry, id: string)
    requires CatalogAgrees(services, reg) && ValidRegistry(reg) && id in services
    ensures
      var tags := OtherAliases(services[id].tags, "");
      && DistinctAliases(tags)
      && (forall t | t in tags :: t in services[id].tags)
      && (forall k | k in reg && IdOf(k, reg[k]) == id :: AliasTag(k.alias) in tags && IsAliasTag(AliasTag(k.alias)))
  {
    hide ServiceID, AliasTag, IsAliasTag, AliasOf, OtherAliases, ValidEntry, ValidRegistry;
    var svc := services[id];
    assert Backed(reg, id, svc);
    OtherAliasesDistinct(svc.tags, "");
    forall t | t in OtherAliases(svc.tags, "")
      ensures t in svc.tags
    {
      OtherAliasesMembers(svc.tags, "", t);
    }
    forall k | k in reg && IdOf(k, reg[k]) == id
      ensures AliasTag(k.alias) in OtherAliases(svc.tags, "") && IsAliasTag(AliasTag(k.alias))
    {
      assert Served(services, k, reg[k]);
      CarriesTag(svc, k, reg[k]);
      EntryIsValid(reg, k);
      SlashFree(k, reg[k]);
      AliasTagInverse(k.alias);
      AliasTagInverse("");
      OtherAliasesMembers(svc.tags, "", AliasTag(k.alias));
    }
  }

  lemma FilteredIsBacked(reg: Registry, id: string, svc: Service, tags: seq<string>, tag: string)
    requires Backed(reg, id, svc) && DistinctAliases(tags) && tag in tags && IsAliasTag(tag)
    requires forall t | t in tags :: t in svc.tags
    ensures Backed(reg, id, svc.(tags := tags))
  {
    hide ServiceID, IsAliasTag, AliasOf, DistinctAliases;
    forall t | t in tags && IsAliasTag(t)
      ensures Accounted(reg, id, svc.(tags := tags), t)
    {
      assert Accounted(reg, id, svc, t);
    }
  }

  lemma CatalogFilter(services: map<string, Service>, reg: Registry, id: string, k: Key)
    requires CatalogAgrees(services, reg) && ValidRegistry(reg) && id in services
    requires k in reg && reg[k].Source? && IdOf(k, reg[k]) == id
    ensures
      var tags := OtherAliases(services[id].tags, "");
      tags != [] && CatalogAgrees(services[id := services[id].(tags := tags)], reg)
  {
    hide ServiceID, AliasTag, IsAliasTag, OtherAliases, DistinctAliases, ValidRegistry, Backed;
    var tags := OtherAliases(services[id].tags, "");
    var services' := services[id := services[id].(tags := tags)];
    SourcesOnly(reg, k);
    AllAliasesStay(services, reg, id);
    assert Backed(reg, id, services[id]);
    FilteredIsBacked(reg, id, services[id], tags, AliasTag(k.alias));
    forall k' | k' in reg
      ensures Served(services', k', reg[k'])
    {
      assert Served(services, k', reg[k']);
    }
    forall i | i in services'
      ensures Backed(reg, i, services'[i])
    {
      assert i != id ==> Backed(reg, i, services[i]);
    }
  }

  lemma SourcesOnly(reg: Registry, k: Key)
    requires ValidRegistry(reg) && k in reg && reg[k].Source?
    ensures forall k' | k' in reg && IdOf(k', reg[k']) == IdOf(k, reg[k]) :: reg[k'].Source? && k'.kind == k.kind
  {
    hide ValidEntry, ValidRegistry, ServiceID, UnitName;
    EntryIsValid(reg, k);
    SourcesShare(reg, k, reg[k]);
  }

  /** Keys below one alias, or below none, are no other entry's. */
  lemma KeysOfOthers(was: map<string, string>, now: map<string, string>, client: string, reg: Registry, k: Key,
                     alias: string, k': Key)
    requires '/' !in client && ValidRegistry(reg) && k in reg && reg[k].Source? && k' in reg
    requires now == was || now == DeleteTree(was, Dir(client, IdOf(k, reg[k])) + alias + "/")
    requires if alias == "" then k'.kind != k.kind else k.alias == alias && k' != k
    ensures SameKeys(was, now, client, k', reg)
  {
    hide ServiceID, Dir, DataOf, ValidRegistry, ValidEntry, IsKeyOf;
    var id := IdOf(k, reg[k]);
    EntryIsValid(reg, k);
    SlashFree(k, reg[k]);
    SourceKeysApart(client, reg, k, reg[k]);
    SourcesOnly(reg, k);
    forall key | IsKeyOf(client, key, k', reg) && key in was
      ensures key in now && now[key] == was[key]
    {
      if alias == "" && Dir(client, id) + alias + "/" <= key {
        assert Dir(client, id) <= Dir(client, id) + alias + "/";
        KeyInOneDir(client, id, key, k', reg);
      }
    }
  }

  lemma SourceLeaves(was: World, now: World, client: string, reg: Registry, events: seq<Event>, c: Command, k: Key,
                     reg': Registry)
    requires Sound(was, client, reg, events) && c.RemoveSource? && k in reg && reg[k].Source?
    requires NamedBy(k, QueriesKind(c.name), c.alias)
    requires reg' == reg || reg' == reg - {k}
    requires Agreeing(now, client, reg')
    requires now.kv == was.kv || now.kv == DeleteTree(was.kv, Dir(client, IdOf(k, reg[k])) + c.alias + "/")
    requires SameUnitsBut(was.units, now.units, UnitOf(k, reg[k]))
    requires forall k' | k' in reg && !c.Concerns(k') && UnitOf(k', reg[k']) in was.units ::
      UnitOf(k', reg[k']) in now.units
    ensures Sound(now, client, reg', events + [Tried(c)])
  {
    hide ServiceID, UnitName, ValidEntry, Dir, DeleteTree, HasKeys, Touched, SameKeys, ValidRegistry, CatalogAgrees,
      Intact,
      QueriesKind;
    EntryIsValid(reg, k);
    SourceRole(k, reg[k]);
    SourceNames(k, reg[k]);
    ExporterUnits(was, now, reg, k.kind);
    forall k' | k' in reg
      ensures Carried(was, now, client, k', reg) || (c.Concerns(k') && reg[k'].Source?)
    {
      if c.Concerns(k') {
        SameRole(reg, k, k');
      } else {
        KeysOfOthers(was.kv, now.kv, client, reg, k, c.alias, k');
      }
    }
    OneMoreEvent(was, now, client, reg, reg', events, Tried(c));
  }

  lemma SameRole(reg: Registry, k: Key, k': Key)
    requires ValidRegistry(reg) && k in reg && k' in reg && k'.kind == k.kind
    ensures reg[k'].Source? == reg[k].Source?
  {
    hide SvcTypes, PlainKind, IsQueries;
    EntryIsValid(reg, k);
    EntryIsValid(reg, k');
  }

  lemma RemovedSourceTried(c: Command, was: World, now: World, config: Config, parent: string, reg: Registry,
                           events: seq<Event>) returns (reg': Registry)
    requires Sound(was, config.clientName, reg, events) && c.RemoveSource? && now != was
    requires c.Valid() && Attempts(c, was, now, config, parent)
    ensures Sound(now, config.clientName, reg', events + [Tried(c)]) && Conserves(reg, reg', events + [Tried(c)])
  {
    hide ServiceID, UnitName, ValidEntry, Dir, DeleteTree, HasKeys, Touched, ValidRegistry, CatalogAgrees, Intact,
      QueriesKind, KnownName, Matches, RemoveSourceOutcome, OtherAliases, SameUnitsBut;
    var client, services := config.clientName, was.Services(config.clientName);
    var kind := QueriesKind(c.name);
    var ok, faultless :| RemovedASource(was, now, client, config.clientAddress, kind, c.alias, c.name, ok, faultless);
    var id :| id in services && Matches(services[id], kind, c.alias) &&
      RemoveSourceOutcome(was, now, client, config.clientAddress, id, c.alias, c.name, ok, faultless);
    var k := MatchHasEntry(services, reg, id, kind, c.alias);
    Stuck.RemovalKeeps(was, now, client, config.clientAddress, id, c.alias, c.name, ok, faultless);
    QueriesEntry(reg, k, c.name);
    ServiceAt(services, reg, k);
    var tags := OtherAliases(services[id].tags, c.alias);
    if c.alias == "" {
      CatalogFilter(services, reg, id, k);
      reg' := reg;
    } else {
      ValidDrop(reg, k);
      CatalogRemoveAlias(services, reg, k);
      reg' := if now.Services(client) == services then reg else reg - {k};
      if tags == [] {
        NoOtherAlias(services, reg, k);
      }
    }
    SourceLeaves(was, now, client, reg, events, c, k, reg');
    TouchedTarget(events, c, k);
  }

  lemma QueriesEntry(reg: Registry, k: Key, name: string)
    requires ValidRegistry(reg) && k in reg && k.kind == QueriesKind(name) && KnownName(name)
    ensures reg[k].Source?
  {
    hide SvcTypes, PlainKind;
    EntryIsValid(reg, k);
    KnownQueries(name);
  }

  // ---------- a repair ----------

  /** The entries whose service is there. */
  function Serviced(reg: Registry, services: map<string, Service>): Registry {
    map k | k in reg && IdOf(k, reg[k]) in services :: reg[k]
  }

  lemma CatalogRestrict(services: map<string, Service>, services': map<string, Service>, reg: Registry)
    requires CatalogAgrees(services, reg)
    requires forall id | id in services' :: id in services && services'[id] == services[id]
    ensures CatalogAgrees(services', Serviced(reg, services'))
  {
    hide ServiceID, AliasTag, IsAliasTag, AliasOf, HasAliases, Carries;
    var reg' := Serviced(reg, services');
    forall k | k in reg'
      ensures Served(services', k, reg'[k])
    {
      assert Served(services, k, reg[k]);
    }
    forall id | id in services'
      ensures Backed(reg', id, services'[id])
    {
      assert Backed(reg, id, services[id]);
      forall t | t in services'[id].tags && IsAliasTag(t)
        ensures Accounted(reg', id, services'[id], t)
      {
        assert Accounted(reg, id, services[id], t);
      }
    }
  }

  lemma ValidRestrict(reg: Registry, services: map<string, Service>)
    requires ValidRegistry(reg)
    ensures ValidRegistry(Serviced(reg, services))
  {
    hide ValidEntry, ServiceID;
  }

  /** What complete and partial repairs have in common. */
  lemma RepairShape(was: World, now: World, client: string)
    requires Repaired(was, now, client) || PartlyRepaired(was, now, client)
    ensures forall id | id in now.Services(client) ::
      id in was.Services(client) && now.Services(client)[id] == was.Services(client)[id]
    ensures forall id | id in was.Services(client) && UnitOfService(was.Services(client)[id]) in was.units ::
      id in now.Services(client) && UnitOfService(was.Services(client)[id]) in now.units
    ensures now.units.Keys <= was.units.Keys && KeysKept(was, now, client)
  {
    hide UnitOfService, KeysKept, InstancesKept, OtherNodesKept;
    forall id | id in was.Services(client) && UnitOfService(was.Services(client)[id]) in was.units
      ensures id in now.Services(client) && UnitOfService(was.Services(client)[id]) in now.units
    {
      assert UnitOfService(was.Services(client)[id]) in Wanted(was.Services(client));
      assert id in Matched(was, client) && UnitOfService(was.Services(client)[id]) in WantedUnits(was, client);
    }
  }

  /** Keys of a service that is not missing survive a repair. */
  lemma KeysOfMatched(was: World, now: World, client: string, reg: Registry, k: Key)
    requires Agreeing(was, client, reg) && k in reg && UnitOf(k, reg[k]) in was.units && KeysKept(was, now, client)
    ensures SameKeys(was.kv, now.kv, client, k, reg)
  {
    hide ServiceID, UnitName, Dir, DataOf, ValidRegistry, CatalogAgrees;
    var services := was.Services(client);
    AgreedIsWellNamed(services, reg);
    ServiceAt(services, reg, k);
    forall key | IsKeyOf(client, key, k, reg) && key in was.kv
      ensures key in now.kv && now.kv[key] == was.kv[key]
    {
      if key !in now.kv {
        var id :| id in services && IsMissing(was, client, id) && Dir(client, id) <= key;
        Stuck.NameAt(services, id);
        ServiceIDHasNoSlash(services[id].kind, services[id].port);
        KeyInOneDir(client, id, key, k, reg);
      }
    }
  }

  lemma MendedSound(was: World, now: World, client: string, reg: Registry, events: seq<Event>) returns (reg': Registry)
    requires Sound(was, client, reg, events) && (Repaired(was, now, client) || PartlyRepaired(was, now, client))
    ensures Sound(now, client, reg', events + [Mended]) && Conserves(reg, reg', events + [Mended])
  {
    hide ServiceID, UnitName, HasKeys, Touched, SameKeys, ValidRegistry, CatalogAgrees, KeysKept, Repaired,
      PartlyRepaired;
    RepairShape(was, now, client);
    CatalogRestrict(was.Services(client), now.Services(client), reg);
    ValidRestrict(reg, now.Services(client));
    reg' := Serviced(reg, now.Services(client));
    forall k | k in reg
      ensures UnitOf(k, reg[k]) in was.units ==> k in reg'
      ensures k in reg' ==> Carried(was, now, client, k, reg)
    {
      ServiceAt(was.Services(client), reg, k);
      if UnitOf(k, reg[k]) in was.units {
        KeysOfMatched(was, now, client, reg, k);
      }
    }
    OneMoreEvent(was, now, client, reg, reg', events, Mended);
    forall k | !Touched(events + [Mended], k)
      ensures (k in reg <==> k in reg') && (k in reg ==> reg'[k] == reg[k])
    {
      TouchedMore(events, Mended, k);
      if k in reg {
        assert Intact(was, client, k, reg[k], Touched(events, k));
      }
    }
  }

  // ---------- runs ----------

  ghost predicate GatedRun(states: seq<World>, events: seq<Event>, config: Config, parent: string) {
    && |states| == |events| + 1
    && forall i | 0 <= i < |events| :: Happens(events[i], states[i], states[i + 1], config, parent)
  }

  /** Whatever happens, some registry agrees with the catalog, and what no command was about is intact. */
  lemma EventSound(e: Event, was: World, now: World, config: Config, parent: string, reg: Registry, events: seq<Event>)
    returns (reg': Registry)
    requires Sound(was, config.clientName, reg, events) && Happens(e, was, now, config, parent)
    ensures Sound(now, config.clientName, reg', events + [e]) && Conserves(reg, reg', events + [e])
  {
    hide Sound, Conserves, Attempts, Command.Valid, Repaired, PartlyRepaired, Disagreement;
    if now == was {
      StillSound(was, config.clientName, reg, events, e);
      return reg;
    }
    match e {
      case Mended => reg' := MendedSound(was, now, config.clientName, reg, events);
      case Tried(c) =>
        match c {
          case AddExporter(_, _, _, _, _) => reg' := ExporterTried(c, was, now, config, parent, reg, events);
          case RemoveExporter(_, _) => reg' := RemovedExporterTried(c, was, now, config, parent, reg, events);
          case AddSource(_, _) => reg' := SourceTried(c, was, now, config, parent, reg, events);
          case RemoveSource(_, _) => reg' := RemovedSourceTried(c, was, now, config, parent, reg, events);
        }
    }
  }

  lemma StillSound(w: World, client: string, reg: Registry, events: seq<Event>, e: Event)
    requires Sound(w, client, reg, events)
    ensures Sound(w, client, reg, events + [e]) && Conserves(reg, reg, events + [e])
  {
    NothingLost(w, w, client, reg, events, e);
  }

  lemma ConservesBoth(reg: Registry, mid: Registry, now: Registry, events: seq<Event>, e: Event)
    requires Conserves(reg, mid, events) && Conserves(mid, now, events + [e])
    ensures Conserves(reg, now, events + [e])
  {
    hide Touched;
    forall k | !Touched(events + [e], k)
      ensures (k in reg <==> k in now) && (k in reg ==> now[k] == reg[k])
    {
      TouchedMore(events, e, k);
    }
  }

  lemma {:induction false} RunSound(states: seq<World>, events: seq<Event>, config: Config, parent: string,
                                    reg0: Registry)
    returns (reg: Registry)
    requires GatedRun(states, events, config, parent) && Represents(states[0], config.clientName, parent, reg0)
    ensures Sound(states[|events|], config.clientName, reg, events) && Conserves(reg0, reg, events)
    decreases |events|
  {
    hide Sound, Conserves, Happens, Represents;
    if events == [] {
      RepresentedIsSound(states[0], config.clientName, parent, reg0);
      reg := reg0;
      assert Conserves(reg0, reg0, []) by { NoneTouched(reg0); }
    } else {
      var n := |events| - 1;
      var mid := RunSound(states[..n + 1], events[..n], config, parent, reg0);
      assert events == events[..n] + [events[n]];
      reg := EventSound(events[n], states[n], states[n + 1], config, parent, mid, events[..n]);
      ConservesBoth(reg0, mid, reg, events[..n], events[n]);
    }
  }

  lemma NoneTouched(reg: Registry)
    ensures Conserves(reg, reg, [])
  {
  }
}
