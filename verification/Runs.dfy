/** Runs of successful commands, and what they keep of the raw stores. */
module Runs {
  import opened Stores
  import opened Registry
  import opened Transitions
  import opened QueryTransitions
  import opened Monitor
  import opened Sanitize
  import opened Metrics
  import opened Queries
  import opened Refinement

  datatype Command =
    | AddExporter(m: Plugin, alias: string, requested: int, force: bool, disableSSL: bool)
    | RemoveExporter(name: string, alias: string)
    | AddSource(q: Source, alias: string)
    | RemoveSource(name: string, alias: string)
  {
    /** The command line has been checked; the name of something to remove is not. */
    predicate Valid() {
      match this
      case AddExporter(m, alias, _, _, _) => m.Valid() && ServiceName(alias)
      case RemoveExporter(name, _) => KnownName(name)
      case AddSource(q, alias) => q.Valid() && ServiceName(alias)
      case RemoveSource(name, _) => KnownName(name)
    }

    predicate Adds() { AddExporter? || AddSource? }

    /** What an addition adds. */
    function Target(): Key
      requires Adds()
    {
      match this
      case AddExporter(m, alias, _, _, _) => Key(m.Kind(), alias)
      case AddSource(q, alias) => Key(q.Kind(), alias)
    }

    /** What the command is about; a removal without a name is about any entry of its kind. */
    predicate Concerns(k: Key) {
      match this
      case AddExporter(_, _, _, _, _) => k == Target()
      case AddSource(_, _) => k == Target()
      case RemoveExporter(name, alias) => NamedBy(k, MetricsKind(name), alias)
      case RemoveSource(name, alias) => NamedBy(k, QueriesKind(name), alias)
    }

    /** The command succeeds and takes the stores from one state to the other. */
    ghost predicate Performs(was: World, now: World, config: Config, parent: string) {
      var client, address := config.clientName, config.clientAddress;
      match this
      case AddExporter(m, alias, requested, force, disableSSL) =>
        && CanAddMetrics(was, config, alias, requested, m, force)
        && now == FullyAdded(was, config, alias, m,
                             Lookup.ChosenPort(was.Services(client), requested, m.defaultPort).value, disableSSL)
      case RemoveExporter(name, alias) =>
        RemovedAMatch(was, now, client, MetricsKind(name), alias, true, true)
      case AddSource(q, alias) =>
        && CanAddQueries(was, client, address, alias, q)
        && AddedSomehow(was, now, client, address, parent, alias, q, q.init.value.dsn, true, true)
      case RemoveSource(name, alias) =>
        RemovedASource(was, now, client, address, QueriesKind(name), alias, name, true, true)
    }

    /** The same on the registry: one insertion of something new, or one deletion of something there. */
    ghost predicate Effect(reg: Registry, reg': Registry) {
      match this
      case AddExporter(m, _, _, force, disableSSL) =>
        var k := Target();
        && k !in reg && k in reg' && reg' == reg[k := reg'[k]]
        && (m.multiple || force || forall k' | k' in reg :: k'.kind != k.kind)
        && reg'[k].Exporter? && reg'[k] == m.Registered(reg'[k].port, disableSSL)
      case AddSource(q, _) =>
        var k := Target();
        && k !in reg && k in reg' && reg' == reg[k := reg'[k]]
        && reg'[k].Source? && q.init.Some? && reg'[k].dsn == SanitizeDSN(q.init.value.dsn)
      case RemoveExporter(_, _) => exists k :: k in reg && Concerns(k) && reg' == reg - {k}
      case RemoveSource(_, _) => exists k :: k in reg && Concerns(k) && reg' == reg - {k}
    }
  }

  /** A successful command is its effect on the registry. */
  lemma StepRefines(c: Command, was: World, now: World, config: Config, parent: string, reg: Registry)
    returns (reg': Registry)
    requires Represents(was, config.clientName, parent, reg)
    requires c.Valid() && c.Performs(was, now, config, parent)
    ensures c.Effect(reg, reg') && Represents(now, config.clientName, parent, reg')
  {
    var client, address := config.clientName, config.clientAddress;
    hide Represents, IsDuplicate, Lookup.GloballyUnique, BaseName, Stores.UnitName, AddedSomehow, RemovedAMatch,
      RemovedASource, FullyAdded,
      SanitizeDSN, KnownName, MetricsKind, QueriesKind, ServiceName, Plugin.Valid, Source.Valid, ValidEntry,
      Lookup.ChosenPort;
    match c {
      case AddExporter(m, alias, requested, force, disableSSL) =>
        AddMetricsRefines(was, config, parent, reg, alias, requested, m, force, disableSSL);
        var port := Lookup.ChosenPort(was.Services(client), requested, m.defaultPort);
        reg' := reg[c.Target() := m.Registered(port.value, disableSSL)];
      case RemoveExporter(name, alias) =>
        RemoveMetricsRefines(was, now, client, parent, reg, name, alias, true, true);
        var k :| k in reg && NamedBy(k, MetricsKind(name), alias) && Represents(now, client, parent, reg - {k});
        assert c.Concerns(k);
        reg' := reg - {k};
      case AddSource(q, alias) =>
        AddQueriesRefines(was, now, client, address, parent, reg, alias, q, q.init.value.dsn, true, true);
        var uuid :| Represents(now, client, parent,
                               reg[c.Target() := Entry.Source(SanitizeDSN(q.init.value.dsn), uuid)]);
        reg' := reg[c.Target() := Entry.Source(SanitizeDSN(q.init.value.dsn), uuid)];
      case RemoveSource(name, alias) =>
        RemoveQueriesRefines(was, now, client, address, parent, reg, name, alias, true, true);
        var k := Key(QueriesKind(name), alias);
        assert c.Concerns(k);
        reg' := reg - {k};
    }
  }

  ghost predicate Run(states: seq<World>, commands: seq<Command>, config: Config, parent: string) {
    && |states| == |commands| + 1
    && forall i | 0 <= i < |commands| ::
         commands[i].Valid() && commands[i].Performs(states[i], states[i + 1], config, parent)
  }

  /** Every state of every run of successful commands represents the registry that the commands compute. */
  lemma {:induction false} RunRefines(states: seq<World>, commands: seq<Command>, config: Config, parent: string,
                                      reg: Registry) returns (regs: seq<Registry>)
    requires Run(states, commands, config, parent) && Represents(states[0], config.clientName, parent, reg)
    ensures |regs| == |states| && regs[0] == reg
    ensures forall i | 0 <= i < |regs| :: Represents(states[i], config.clientName, parent, regs[i])
    ensures forall i | 0 <= i < |commands| :: commands[i].Effect(regs[i], regs[i + 1])
    decreases |commands|
  {
    hide Represents, Command.Performs, Command.Effect, Command.Valid;
    if commands == [] {
      regs := [reg];
    } else {
      var n := |commands| - 1;
      var init := RunRefines(states[..n + 1], commands[..n], config, parent, reg);
      var last := StepRefines(commands[n], states[n], states[n + 1], config, parent, init[n]);
      regs := init + [last];
    }
  }

  // ---------- what a represented state looks like ----------

  lemma ServicesAreNamed(w: World, client: string, parent: string, reg: Registry, id: string) returns (k: Key)
    requires Represents(w, client, parent, reg) && id in w.Services(client)
    ensures k in reg && ValidEntry(k, reg[k]) && IdOf(k, reg[k]) == id
    ensures
      var svc := w.Services(client)[id];
      && svc.kind == k.kind && svc.port == PortOf(reg[k])
      && id == ServiceID(svc.kind, svc.port) && UnitOf(k, reg[k]) == UnitName(svc.kind, svc.port)
  {
    Parts(w, client, parent, reg);
    k := IdHasEntry(w.Services(client), reg, id);
    ValidOf(w, client, parent, reg, k);
    ServiceOfEntry(w, client, parent, reg, k);
  }

  /** The local services are exactly those that the catalog services call for. */
  lemma UnitsMatchServices(w: World, client: string, parent: string, reg: Registry)
    requires Represents(w, client, parent, reg)
    ensures w.units.Keys == Wanted(w.Services(client))
  {
    hide Represents, ValidEntry, ServiceID, UnitName;
    var services := w.Services(client);
    forall u | u in w.units
      ensures u in Wanted(services)
    {
      var k := UnitHasEntry(w, client, parent, reg, u);
      ServiceOfEntry(w, client, parent, reg, k);
      assert UnitOfService(services[IdOf(k, reg[k])]) == u;
    }
    forall u | u in Wanted(services)
      ensures u in w.units
    {
      var id :| id in services && UnitOfService(services[id]) == u;
      var k := ServicesAreNamed(w, client, parent, reg, id);
      EntryHasUnit(w, client, parent, reg, k);
    }
  }

  /** No two services call for the same local service. */
  predicate OneUnitEach(services: map<string, Service>) {
    forall id, id' | id in services && id' in services && id != id' ::
      UnitOfService(services[id]) != UnitOfService(services[id'])
  }

  /** And no two catalog services share one: the correspondence is one to one. */
  lemma UnitNamesAreDistinct(w: World, client: string, parent: string, reg: Registry)
    requires Represents(w, client, parent, reg)
    ensures OneUnitEach(w.Services(client))
  {
    hide Represents, ValidEntry, ServiceID, UnitName;
    var services := w.Services(client);
    forall id, id' | id in services && id' in services && id != id'
      ensures UnitOfService(services[id]) != UnitOfService(services[id'])
    {
      var k := ServicesAreNamed(w, client, parent, reg, id);
      var k' := ServicesAreNamed(w, client, parent, reg, id');
      if UnitOfService(services[id]) == UnitOfService(services[id']) {
        KindsArePlain(k, reg[k]);
        KindsArePlain(k', reg[k']);
        UnitNameInjective(services[id].kind, services[id].port, services[id'].kind, services[id'].port);
      }
    }
  }

  lemma KindsArePlain(k: Key, e: Entry)
    requires ValidEntry(k, e)
    ensures PlainKind(k.kind)
  {
  }

  lemma UnitHasEntry(w: World, client: string, parent: string, reg: Registry, u: string) returns (k: Key)
    requires Represents(w, client, parent, reg) && u in w.units
    ensures k in reg && UnitOf(k, reg[k]) == u
  {
    hide UnitName, CatalogAgrees, KeysAgree, InstancesAgree, ValidRegistry;
    k :| IsUnitOf(u, k, reg);
  }

  /**
   * Exporter ports are positive and pairwise distinct; a (kind, alias) pair is tagged on one service only,
   * and once; a queries kind has at most one service, with at least one alias.
   */
  lemma ServicesAreDistinct(w: World, client: string, parent: string, reg: Registry)
    requires Represents(w, client, parent, reg)
    ensures forall id | id in w.Services(client) && !IsQueries(w.Services(client)[id].kind) ::
      w.Services(client)[id].port > 0
    ensures forall id, id' | id in w.Services(client) && id' in w.Services(client) && id != id' ::
      w.Services(client)[id].port != w.Services(client)[id'].port ||
      (IsQueries(w.Services(client)[id].kind) && IsQueries(w.Services(client)[id'].kind) &&
       w.Services(client)[id].kind != w.Services(client)[id'].kind)
    ensures forall id, id', t | id in w.Services(client) && id' in w.Services(client) && id != id' &&
      w.Services(client)[id].kind == w.Services(client)[id'].kind && IsAliasTag(t) &&
        t in w.Services(client)[id].tags ::
      t !in w.Services(client)[id'].tags
    ensures forall id | id in w.Services(client) :: HasAliases(w.Services(client)[id])
  {
    var services := w.Services(client);
    Parts(w, client, parent, reg);
    hide Represents, ServiceID, UnitName, UnitsAgree, KeysAgree, InstancesAgree, RoleOf, PlainKind, SvcTypes;
    forall id, id' | id in services && id' in services && id != id'
      ensures services[id].port != services[id'].port ||
        (IsQueries(services[id].kind) && IsQueries(services[id'].kind) && services[id].kind != services[id'].kind)
    {
      var k := ServicesAreNamed(w, client, parent, reg, id);
      var k' := ServicesAreNamed(w, client, parent, reg, id');
    }
    forall id | id in services && !IsQueries(services[id].kind)
      ensures services[id].port > 0
    {
      var k := ServicesAreNamed(w, client, parent, reg, id);
    }
    forall id, id', t | id in services && id' in services && id != id' && services[id].kind == services[id'].kind &&
      IsAliasTag(t) && t in services[id].tags
      ensures t !in services[id'].tags
    {
      assert Backed(reg, id, services[id]) && Backed(reg, id', services[id']);
      assert Accounted(reg, id, services[id], t);
    }
    forall id | id in services
      ensures HasAliases(services[id])
    {
      assert Backed(reg, id, services[id]);
    }
  }

  /** Distinct query sources have distinct UUIDs, and every live instance of the agent is the one of a source. */
  lemma UuidsAreDistinct(w: World, client: string, parent: string, reg: Registry)
    requires Represents(w, client, parent, reg)
    ensures forall k, k' | k in reg && k' in reg && k != k' && reg[k].Source? && reg[k'].Source? ::
      reg[k].uuid != reg[k'].uuid
    ensures forall u :: Live(w.instances, u, parent) <==>
      exists k | k in reg :: reg[k].Source? && reg[k].uuid == u
  {
    Parts(w, client, parent, reg);
    hide Represents, ServiceID, CatalogAgrees, UnitsAgree, KeysAgree, ValidRegistry, KindOfSubsystem, IsSourceType;
    forall k | k in reg && reg[k].Source?
      ensures Live(w.instances, reg[k].uuid, parent) && KeyOfInstance(w.instances[reg[k].uuid]) == k
    {
      assert Analysed(w.instances, parent, k, reg[k]);
    }
    forall u | Live(w.instances, u, parent)
      ensures exists k | k in reg :: reg[k].Source? && reg[k].uuid == u
    {
      assert Expected(reg, u, w.instances[u]);
    }
  }

  /** A client with nothing registered, installed, stored or analysed. */
  ghost predicate NewClient(w: World, client: string, parent: string) {
    && '/' !in client && w.Services(client) == map[] && w.units == map[]
    && (forall key | key in w.kv :: !(client + "/" <= key))
    && (forall u :: !Live(w.instances, u, parent))
  }

  lemma NewClientIsEmpty(w: World, client: string, parent: string)
    requires NewClient(w, client, parent)
    ensures Represents(w, client, parent, map[])
  {
  }

  /**
   * Every run of successful commands from a new client: at any time the local services are those that
   * the catalog calls for, one to one, and the live instances are those of the registered sources.
   */
  lemma EveryRunAgrees(states: seq<World>, commands: seq<Command>, config: Config,
                       parent: string) returns (regs: seq<Registry>)
    requires Run(states, commands, config, parent) && NewClient(states[0], config.clientName, parent)
    ensures |regs| == |states| && regs[0] == map[]
    ensures forall i | 0 <= i < |commands| :: commands[i].Effect(regs[i], regs[i + 1])
    ensures forall i | 0 <= i < |states| ::
      && Represents(states[i], config.clientName, parent, regs[i])
      && states[i].units.Keys == Wanted(states[i].Services(config.clientName))
      && OneUnitEach(states[i].Services(config.clientName))
  {
    hide Represents, Command.Performs, Command.Effect, Command.Valid, OneUnitEach, Wanted, NewClient;
    NewClientIsEmpty(states[0], config.clientName, parent);
    regs := RunRefines(states, commands, config, parent, map[]);
    forall i | 0 <= i < |states|
      ensures states[i].units.Keys == Wanted(states[i].Services(config.clientName))
      ensures OneUnitEach(states[i].Services(config.clientName))
    {
      UnitsMatchServices(states[i], config.clientName, parent, regs[i]);
      UnitNamesAreDistinct(states[i], config.clientName, parent, regs[i]);
    }
  }

  /** The command adds no exporter of the kind beside another: it is without --force, and the plugin allows only one. */
  predicate AddsAlone(c: Command, kind: string) {
    c.AddExporter? && c.m.Kind() == kind ==> !c.m.multiple && !c.force
  }

  predicate AtMostOne(reg: Registry, kind: string) {
    forall k, k' | k in reg && k' in reg && k.kind == kind && k'.kind == kind :: k == k'
  }

  lemma StepKeepsOne(c: Command, reg: Registry, reg': Registry, name: string)
    requires c.Valid() && c.Effect(reg, reg') && KnownName(name)
    requires AddsAlone(c, MetricsKind(name)) && AtMostOne(reg, MetricsKind(name))
    ensures AtMostOne(reg', MetricsKind(name))
  {
    KnownMetrics(name);
    if c.AddSource? {
      assert KnownName(c.q.name);
      KnownQueries(c.q.name);
    }
    hide MetricsKind, QueriesKind, SanitizeDSN, Plugin.Registered, PlainKind, KnownName, ServiceName, Plugin.Valid;
  }

  /**
   * Over every run of successful commands from a new client: if the exporters of a kind are added without --force
   * and by plugins that do not allow several, there is at most one of them at any time, and at most one service.
   */
  lemma {:induction false} OneOfItsKind(states: seq<World>, commands: seq<Command>, config: Config, parent: string,
                                        name: string) returns (regs: seq<Registry>)
    requires Run(states, commands, config, parent) && NewClient(states[0], config.clientName, parent)
    requires KnownName(name) && forall c | c in commands :: AddsAlone(c, MetricsKind(name))
    ensures |regs| == |states|
    ensures forall i | 0 <= i < |regs| ::
      Represents(states[i], config.clientName, parent, regs[i]) && AtMostOne(regs[i], MetricsKind(name))
    ensures forall i, id, id' | 0 <= i < |regs| &&
      id in states[i].Services(config.clientName) && id' in states[i].Services(config.clientName) &&
      states[i].Services(config.clientName)[id].kind == states[i].Services(config.clientName)[id'].kind ==
        MetricsKind(name) :: id == id'
  {
    hide Represents, Command.Performs, Command.Effect, Command.Valid, NewClient, AddsAlone, AtMostOne, MetricsKind;
    NewClientIsEmpty(states[0], config.clientName, parent);
    regs := RunRefines(states, commands, config, parent, map[]);
    NoneIsOne(MetricsKind(name));
    for i := 0 to |commands|
      invariant forall j | 0 <= j <= i :: AtMostOne(regs[j], MetricsKind(name))
    {
      StepKeepsOne(commands[i], regs[i], regs[i + 1], name);
    }
    forall i, id, id' | 0 <= i < |regs| &&
      id in states[i].Services(config.clientName) && id' in states[i].Services(config.clientName) &&
      states[i].Services(config.clientName)[id].kind == states[i].Services(config.clientName)[id'].kind ==
        MetricsKind(name)
      ensures id == id'
    {
      OneService(states[i], config.clientName, parent, regs[i], MetricsKind(name), id, id');
    }
  }

  lemma NoneIsOne(kind: string)
    ensures AtMostOne(map[], kind)
  {
  }

  lemma OneService(w: World, client: string, parent: string, reg: Registry, kind: string, id: string, id': string)
    requires Represents(w, client, parent, reg) && AtMostOne(reg, kind)
    requires id in w.Services(client) && id' in w.Services(client)
    requires w.Services(client)[id].kind == kind && w.Services(client)[id'].kind == kind
    ensures id == id'
  {
    hide Represents, ServiceID, UnitName, ValidEntry;
    var k := ServicesAreNamed(w, client, parent, reg, id);
    var k' := ServicesAreNamed(w, client, parent, reg, id');
  }

  /** On a new client the first exporter can be added, and is then the whole registry. */
  lemma FirstExporter(config: Config, parent: string, m: Plugin, alias: string, disableSSL: bool)
    requires '/' !in config.clientName && ServiceName(alias)
    requires m.Valid() && m.init.Some? && BaseName(m.executable) != ""
    ensures
      var w := World(map[], map[], map[], map[], map[]);
      && CanAddMetrics(w, config, alias, 0, m, false)
      && Represents(FullyAdded(w, config, alias, m, m.defaultPort, disableSSL), config.clientName, parent,
                    map[Key(m.Kind(), alias) := m.Registered(m.defaultPort, disableSSL)])
  {
    hide Represents, BaseName, Plugin.Valid, ServiceName, FullyAdded, UnitName, Plugin.Registered;
    var w := World(map[], map[], map[], map[], map[]);
    NewClientIsEmpty(w, config.clientName, parent);
    Lookup.ChosenPortIsLeast(w.Services(config.clientName), 0, m.defaultPort);
    assert Lookup.ChosenPort(w.Services(config.clientName), 0, m.defaultPort) == Some(m.defaultPort) by {
      FirstPort(m.defaultPort);
    }
    AddMetricsRefines(w, config, parent, map[], alias, 0, m, false, disableSSL);
    assert map[][Key(m.Kind(), alias) := m.Registered(m.defaultPort, disableSSL)] ==
      map[Key(m.Kind(), alias) := m.Registered(m.defaultPort, disableSSL)];
  }

  lemma FirstPort(default: int)
    ensures Lookup.ChosenPort(map[], 0, default) == Some(default)
  {
    assert !Lookup.PortUsed(map[], default);
  }
}
