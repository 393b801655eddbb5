/**
 * What a complete repair makes of such a run in the end, and which keys are left behind.
 */
module RunRecovery {
  import opened Stores
  import opened Registry
  import opened Transitions
  import opened QueryTransitions
  import opened Monitor
  import opened Lookup
  import opened Sanitize
  import opened Metrics
  import opened Queries
  import opened Refinement
  import opened Runs
  import opened Repair
  import opened Failures
  import opened Recovery
  import opened GatedRuns
  import opened StoredUuids
  import Stuck

  // ---------- the repair in the end ----------

  /** Where nothing disagrees, the local services are those of the entries. */
  lemma UnitsFollow(w: World, client: string, reg: Registry)
    requires Agreeing(w, client, reg) && Disagreement(w, client) == {}
    ensures UnitsAgree(w.units, reg)
  {
    hide ServiceID, UnitName, ValidRegistry, CatalogAgrees;
    var services := w.Services(client);
    forall k | k in reg
      ensures UnitOf(k, reg[k]) in w.units
    {
      ServiceAt(services, reg, k);
      assert UnitOf(k, reg[k]) in Wanted(services);
    }
    forall u | u in w.units
      ensures exists k :: IsUnitOf(u, k, reg)
    {
      assert u in Wanted(services);
      var id :| id in services && UnitOfService(services[id]) == u;
      var k := IdHasEntry(services, reg, id);
      ServiceAt(services, reg, k);
      assert IsUnitOf(u, k, reg);
    }
  }

  /** What a recovered installation is: in agreement about services, exporters complete, sources usable or stuck. */
  ghost predicate Recovered(w: World, client: string, reg: Registry) {
    && ValidRegistry(reg) && CatalogAgrees(w.Services(client), reg) && UnitsAgree(w.units, reg)
    && (forall k | k in reg && reg[k].Exporter? :: HasKeys(w.kv, client, k, reg[k]))
    && (forall k | k in reg && reg[k].Source? ::
          UuidKey(client, IdOf(k, reg[k]), k.alias, NameOf(k.kind)) in w.kv || Stuck.Stuck(w, client, k.kind, k.alias))
  }

  lemma SoundIsRecovered(w: World, client: string, reg: Registry, events: seq<Event>)
    requires Sound(w, client, reg, events) && Disagreement(w, client) == {}
    ensures Recovered(w, client, reg)
    ensures forall k | k in reg && !Touched(events, k) :: HasKeys(w.kv, client, k, reg[k])
  {
    hide ServiceID, UnitName, ValidRegistry, CatalogAgrees, HasKeys, Touched, Disagreement, UuidKey, NameOf,
      Stuck.Tagged,
      PlainKind, IsQueries;
    UnitsFollow(w, client, reg);
    forall k | k in reg
      ensures reg[k].Exporter? || !Touched(events, k) ==> HasKeys(w.kv, client, k, reg[k])
      ensures reg[k].Source? ==>
        UuidKey(client, IdOf(k, reg[k]), k.alias, NameOf(k.kind)) in w.kv || Stuck.Stuck(w, client, k.kind, k.alias)
    {
      assert Intact(w, client, k, reg[k], Touched(events, k));
      if reg[k].Source? {
        Stuck.SourceIsTagged(w, client, reg, k);
        SourceNames(k, reg[k]);
      }
    }
  }

  lemma OneMoreMended(states: seq<World>, events: seq<Event>, now: World, config: Config, parent: string, reg: Registry)
    requires GatedRun(states, events, config, parent) && Repaired(states[|events|], now, config.clientName)
    ensures GatedRun(states + [now], events + [Mended], config, parent)
    ensures Proper(reg, events) ==> Proper(reg, events + [Mended])
  {
    hide Attempts, Repaired, PartlyRepaired, Disagreement, Command.Valid, NoLookalikes;
    var all, more := states + [now], events + [Mended];
    forall i | 0 <= i < |more|
      ensures Happens(more[i], all[i], all[i + 1], config, parent)
    {
      assert i < |events| ==> more[i] == events[i];
    }
  }

  /**
   * From a client in agreement, after any run of gated commands that fail wherever they may and of repairs that
   * could read the catalog, a complete repair leads to a registry again: catalog and local services agree with
   * it, every exporter has all its keys, every query source has its UUID or is stuck. What no command was about
   * is registered exactly if it was before, unchanged and with all its keys. If no exporter's data looks like a
   * UUID, stored UUIDs are true, and what no command was about has its live instance.
   */
  lemma GatedRunsRecover(states: seq<World>, events: seq<Event>, now: World, config: Config, parent: string,
                         reg0: Registry) returns (reg: Registry)
    requires GatedRun(states, events, config, parent) && Represents(states[0], config.clientName, parent, reg0)
    requires Repaired(states[|events|], now, config.clientName)
    ensures Recovered(now, config.clientName, reg) && Conserves(reg0, reg, events)
    ensures forall k | k in reg0 && !Touched(events, k) :: k in reg && HasKeys(now.kv, config.clientName, k, reg0[k])
    ensures Proper(reg0, events) ==>
      && TrueUuids(now, config.clientName)
      && forall k | k in reg0 && reg0[k].Source? && !Touched(events, k) :: HasInstance(now, parent, k, reg0[k].uuid)
  {
    hide Sound, Happens, Represents, Repaired, Disagreement, Recovered, HasKeys, Touched, Proper, TrueUuids,
      HasInstance;
    var mid := RunSound(states, events, config, parent, reg0);
    reg := MendedSound(states[|events|], now, config.clientName, mid, events);
    RepairedAgrees(states[|events|], now, config.clientName);
    SoundIsRecovered(now, config.clientName, reg, events + [Mended]);
    if Proper(reg0, events) {
      OneMoreMended(states, events, now, config, parent, reg0);
      GatedRunsKeepInstances(states + [now], events + [Mended], config, parent, reg0);
    }
    ConservesBoth(reg0, mid, reg, events, Mended);
    forall k
      ensures Touched(events + [Mended], k) <==> Touched(events, k)
    {
      TouchedMore(events, Mended, k);
    }
  }

  /** A service and its local service, both new, disagree with nothing. */
  lemma PutAgrees(was: World, now: World, client: string, svc: Service)
    requires WellNamed(was.Services(client)) && PlainKind(svc.kind) && Disagreement(was, client) == {}
    requires now.Services(client) == was.Services(client)[ServiceID(svc.kind, svc.port) := svc]
    requires now.units == was.units[UnitOfService(svc) := true]
    ensures Disagreement(now, client) == {}
  {
    hide ServiceID, UnitName, PlainKind, WellNamed;
    var services, after := was.Services(client), now.Services(client);
    PutTouchesOne(services, svc);
    assert after[ServiceID(svc.kind, svc.port)] == svc;
    forall u
      ensures u in Wanted(after) <==> u in now.units
    {
      if u != UnitOfService(svc) {
        assert u in Wanted(after) <==> u in Wanted(services);
      }
    }
  }

  /** So the additions of one invocation, which stops at the first failure, are all made where nothing disagrees. */
  lemma AdditionAgrees(c: Command, was: World, now: World, config: Config, parent: string)
    requires c.Valid() && c.Adds() && WellNamed(was.Services(config.clientName))
    requires Disagreement(was, config.clientName) == {} && c.Performs(was, now, config, parent)
    ensures Disagreement(now, config.clientName) == {}
  {
    hide ServiceID, UnitName, PlainKind, WellNamed, Disagreement, FullyAdded, GloballyUnique, IsDuplicate, ChosenPort,
      BaseName, MetricsKind, KnownName, ServiceName, Source.Valid, Source.Kind, FullyAddedSource, SanitizeDSN, IsBase,
      TagsWith;
    var client := config.clientName;
    match c {
      case AddExporter(m, alias, requested, force, disableSSL) =>
        var port := ChosenPort(was.Services(client), requested, m.defaultPort).value;
        FullyAddedStores(was, config, alias, m, port, disableSSL);
        KnownMetrics(m.name);
        var svc := ExporterService(Key(m.Kind(), alias), m.Registered(port, disableSSL));
        Registers(was, now, client, config.clientAddress, ServiceID(m.Kind(), port), svc);
        PutAgrees(was, now, client, svc);
      case AddSource(q, alias) =>
        var dsn := q.init.value.dsn;
        var b, uuid :| AddOutcome(was, now, client, config.clientAddress, parent, alias, q, dsn, b, uuid, true, true);
        FullyAddedSourceFields(was, client, config.clientAddress, alias, q, b, dsn, uuid, now.instances);
        SourceIsValid(q, alias, "", "");
        KindsArePlain(Key(q.Kind(), alias), Entry.Source("", ""));
        var svc := Service(q.Kind(), TagsWith(b.tags, alias), b.port);
        Registers(was, now, client, config.clientAddress, ServiceID(q.Kind(), b.port), svc);
        PutAgrees(was, now, client, svc);
    }
  }

  // ---------- keys that are left behind ----------

  /** Keys change only below services that are there before or afterwards. */
  ghost predicate ChangesWithin(was: World, now: World, client: string) {
    forall key :: At(now.kv, key) == At(was.kv, key) ||
      InSomeDir(client, key, was.Services(client).Keys + now.Services(client).Keys)
  }

  lemma TreeWithin(was: World, now: World, client: string, id: string, prefix: string)
    requires id in was.Services(client) && Dir(client, id) <= prefix
    requires now.kv == was.kv || now.kv == DeleteTree(was.kv, prefix)
    ensures ChangesWithin(was, now, client)
  {
    hide Dir;
    forall key
      ensures At(now.kv, key) == At(was.kv, key) ||
        InSomeDir(client, key, was.Services(client).Keys + now.Services(client).Keys)
    {
      if prefix <= key {
        assert Dir(client, id) <= key && id in was.Services(client).Keys + now.Services(client).Keys;
      }
    }
  }

  lemma PutsWithin(was: World, now: World, client: string, id: string)
    requires id in now.Services(client)
    requires forall key :: At(now.kv, key) == At(was.kv, key) || Dir(client, id) <= key
    ensures ChangesWithin(was, now, client)
  {
    hide Dir, At;
    forall key
      ensures At(now.kv, key) == At(was.kv, key) ||
        InSomeDir(client, key, was.Services(client).Keys + now.Services(client).Keys)
    {
      if Dir(client, id) <= key {
        assert id in was.Services(client).Keys + now.Services(client).Keys;
      }
    }
  }

  lemma AttemptWithin(c: Command, was: World, now: World, config: Config, parent: string)
    requires c.Valid() && Attempts(c, was, now, config, parent)
    ensures ChangesWithin(was, now, config.clientName)
  {
    hide ServiceID, UnitName, Dir, DeleteTree, MetricsKind, QueriesKind, KnownName, Matches, RemoveSourceOutcome,
      RemovedMetrics, FullyAdded, GloballyUnique, IsDuplicate, ChosenPort, AddOutcome, Below, ChangesWithin,
      ExporterService,
      DsnSub, UuidSub, TagsWith, SameUnitsBut, OtherAliases;
    var client := config.clientName;
    if now == was {
      Unchanging(was, now, client);
      return;
    }
    match c {
      case AddExporter(m, alias, requested, force, disableSSL) =>
        var ok :| AddedAt(was, now, config, alias, requested, m, disableSSL, ok);
        assert AddedAt(was, now, config, alias, requested, m, disableSSL, ok);
        AddedWithin(was, now, config, alias, m, ChosenPort(was.Services(client), requested, m.defaultPort).value,
                    disableSSL, ok);
      case RemoveExporter(name, alias) =>
        var ok, faultless :| RemovedAMatch(was, now, client, MetricsKind(name), alias, ok, faultless);
        var id :| id in was.Services(client) && RemoveOutcome(was, now, client, id, ok, faultless);
        assert RemoveOutcome(was, now, client, id, ok, faultless);
        RemovedMetricsStores(was, client, id, was.Services(client)[id].kind, was.Services(client)[id].port);
        TreeWithin(was, now, client, id, Dir(client, id));
      case AddSource(q, alias) =>
        var ok, faultless :| AddedSomehow(was, now, client, config.clientAddress, parent, alias, q, q.init.value.dsn,
                                          ok, faultless);
        var b, uuid :| AddOutcome(was, now, client, config.clientAddress, parent, alias, q, q.init.value.dsn, b, uuid,
                                  ok, faultless);
        AdditionShape(was, now, client, config.clientAddress, parent, alias, q, q.init.value.dsn, b, uuid, ok,
                      faultless);
        if now.kv == was.kv {
          Unchanging(was, now, client);
        } else {
          PutsWithin(was, now, client, ServiceID(q.Kind(), b.port));
        }
      case RemoveSource(name, alias) =>
        var ok, faultless :| RemovedASource(was, now, client, config.clientAddress, QueriesKind(name), alias, name, ok,
                                            faultless);
        var id :| id in was.Services(client) &&
          RemoveSourceOutcome(was, now, client, config.clientAddress, id, alias, name, ok, faultless);
        Stuck.RemovalKeeps(was, now, client, config.clientAddress, id, alias, name, ok, faultless);
        TreeWithin(was, now, client, id, Dir(client, id) + alias + "/");
    }
  }

  lemma Unchanging(was: World, now: World, client: string)
    requires now.kv == was.kv
    ensures ChangesWithin(was, now, client)
  {
  }

  lemma AddedWithin(was: World, now: World, config: Config, alias: string, m: Plugin, port: int, disableSSL: bool,
                    ok: bool)
    requires now != was
    requires
      var full := FullyAdded(was, config, alias, m, port, disableSSL);
      if ok then now == full else PartlyAdded(was, now, full, UnitName(m.Kind(), port))
    ensures ChangesWithin(was, now, config.clientName)
  {
    hide ServiceID, UnitName, Dir, MetricsKind, FullyAdded, Below, ChangesWithin, ExporterService;
    var client, id, full := config.clientName, ServiceID(m.Kind(), port), FullyAdded(was, config, alias, m, port,
                                                                                     disableSSL);
    FullyAddedStores(was, config, alias, m, port, disableSSL);
    forall key
      ensures At(now.kv, key) == At(was.kv, key) || Dir(client, id) <= key
    {
      BelowFacts(Dir(client, id), m.data, key);
      assert ok || At(now.kv, key) == At(was.kv, key) || At(now.kv, key) == At(full.kv, key);
    }
    PutsWithin(was, now, client, id);
  }

  lemma MendingWithin(was: World, now: World, client: string)
    requires KeysKept(was, now, client)
    ensures ChangesWithin(was, now, client)
  {
    hide IsMissing, Dir;
    forall key
      ensures At(now.kv, key) == At(was.kv, key) ||
        InSomeDir(client, key, was.Services(client).Keys + now.Services(client).Keys)
    {
      if key in was.kv && key !in now.kv {
        var id :| id in was.Services(client) && IsMissing(was, client, id) && Dir(client, id) <= key;
        assert id in was.Services(client).Keys + now.Services(client).Keys;
      }
    }
  }

  lemma EventWithin(e: Event, was: World, now: World, config: Config, parent: string)
    requires WellNamed(was.Services(config.clientName)) && Happens(e, was, now, config, parent)
    ensures WellNamed(now.Services(config.clientName)) && ChangesWithin(was, now, config.clientName)
  {
    hide WellNamed, Attempts, Command.Valid, Repaired, PartlyRepaired, Disagreement, ChangesWithin, KeysKept;
    match e {
      case Mended =>
        RepairKeepsNames(was, now, config.clientName);
        RepairShape(was, now, config.clientName);
        MendingWithin(was, now, config.clientName);
      case Tried(c) =>
        AttemptGrowsByOne(c, was, now, config, parent);
        AttemptWithin(c, was, now, config, parent);
    }
  }

  /** A key below an ID that no service has stays as it is, in spite of all repairs, for as long as none has it. */
  lemma {:induction false} LeftoversStay(states: seq<World>, events: seq<Event>, config: Config, parent: string,
                                         id: string, key: string, n: nat)
    requires GatedRun(states, events, config,
                      parent) && n <= |events| && WellNamed(states[0].Services(config.clientName))
    requires '/' !in config.clientName && '/' !in id && Dir(config.clientName, id) <= key
    requires forall i | 0 <= i <= n :: id !in states[i].Services(config.clientName)
    ensures WellNamed(states[n].Services(config.clientName)) && At(states[n].kv, key) == At(states[0].kv, key)
  {
    hide WellNamed, Happens, Dir, At;
    if n > 0 {
      LeftoversStay(states, events, config, parent, id, key, n - 1);
      EventWithin(events[n - 1], states[n - 1], states[n], config, parent);
      OutsideAll(states[n - 1], states[n], config.clientName, id, key);
    }
  }

  lemma OutsideAll(was: World, now: World, client: string, id: string, key: string)
    requires WellNamed(was.Services(client)) && WellNamed(now.Services(client)) && ChangesWithin(was, now, client)
    requires '/' !in client && '/' !in id && Dir(client, id) <= key && id !in was.Services(client)
    requires id !in now.Services(client)
    ensures At(now.kv, key) == At(was.kv, key)
  {
    hide WellNamed, Dir, At, ServiceID, PlainKind;
    if InSomeDir(client, key, was.Services(client).Keys + now.Services(client).Keys) {
      var i :| i in was.Services(client).Keys + now.Services(client).Keys && Dir(client, i) <= key;
      var services := if i in was.Services(client) then was.Services(client) else now.Services(client);
      Stuck.NameAt(services, i);
      ServiceIDHasNoSlash(services[i].kind, services[i].port);
      assert key == Dir(client, i) + key[|Dir(client, i)|..];
      DirsDisjoint(client, id, i, key[|Dir(client, i)|..]);
    }
  }

  /** The removal of an exporter with that ID takes it along. */
  lemma LeftoversGo(was: World, now: World, client: string, id: string, key: string, faultless: bool)
    requires RemoveOutcome(was, now, client, id, true, faultless) && Dir(client, id) <= key
    ensures key !in now.kv
  {
    hide Dir, UnitName;
    RemovedMetricsStores(was, client, id, was.Services(client)[id].kind, was.Services(client)[id].port);
  }
}
