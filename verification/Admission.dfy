/**
 * Which commands go through, told by the registry: on a client in agreement and without failures, a command
 * succeeds exactly if the registry, the other clients and the plugin allow it.
 */
module Admission {
  import opened Stores
  import opened Registry
  import opened Transitions
  import opened QueryTransitions
  import opened Monitor
  import opened Lookup
  import opened Metrics
  import opened Queries
  import opened Refinement
  import opened Runs
  import opened Failures
  import GatedRuns
  import Recovery

  /** The client's name is not in use from another address, and no other client monitors this under the alias. */
  predicate Undisputed(w: World, config: Config, kind: string, alias: string) {
    && !NameTaken(w, config.clientName, config.clientAddress)
    && forall n, id | n in w.catalog && n != config.clientName && id in w.catalog[n].services ::
         !Claims(w.catalog[n].services[id], kind, alias)
  }

  /** No entry has the port. */
  predicate PortFree(reg: Registry, port: int) {
    forall k | k in reg :: PortOf(reg[k]) != port
  }

  /** The requested port is free, or without one, some port of the thousand that are tried. */
  predicate PortLeft(reg: Registry, requested: int, default: int) {
    if requested > 0 then PortFree(reg, requested)
    else exists p | default <= p < default + 1000 :: PortFree(reg, p)
  }

  /** The command's kind is monitored already; under another alias that does not count if there may be several. */
  ghost predicate Known(c: Command, reg: Registry) {
    match c
    case AddExporter(m, alias, _, force, _) =>
      if m.multiple || force then Key(m.Kind(), alias) in reg else exists k :: k in reg && k.kind == m.Kind()
    case AddSource(q, alias) => Key(q.Kind(), alias) in reg
    case RemoveExporter(name, alias) => !HasNamed(reg, MetricsKind(name), alias)
    case RemoveSource(name, alias) => !HasNamed(reg, QueriesKind(name), alias)
  }

  /** What an addition needs of its plugin. */
  predicate Initialised(c: Command) {
    match c
    case AddExporter(m, _, _, _, _) => m.init.Some?
    case AddSource(q, _) => q.init.Some?
    case RemoveExporter(_, _) => true
    case RemoveSource(_, _) => true
  }

  /** Nothing stands against the command. */
  ghost predicate Allows(c: Command, reg: Registry, w: World, config: Config) {
    && Initialised(c) && !Known(c, reg)
    && match c
       case AddExporter(m, alias, requested, _, _) =>
         && Key(m.Kind(), alias) !in reg && Undisputed(w, config, m.Kind(), alias)
         && PortLeft(reg, requested, m.defaultPort) && BaseName(m.executable) != ""
       case AddSource(q, alias) => Undisputed(w, config, q.Kind(), alias)
       case RemoveExporter(_, _) => true
       case RemoveSource(_, alias) => alias != ""
  }

  // ---------- names and ports ----------

  /** A name is globally unique exactly if it is undisputed and not in the registry. */
  lemma UniqueMeans(w: World, config: Config, parent: string, reg: Registry, kind: string, alias: string)
    requires Represents(w, config.clientName, parent, reg)
    ensures GloballyUnique(w, config.clientName, config.clientAddress, kind, alias) <==>
      Undisputed(w, config, kind, alias) && Key(kind, alias) !in reg
  {
    hide Represents, CatalogAgrees, AliasTag;
    var client := config.clientName;
    Parts(w, client, parent, reg);
    if Key(kind, alias) in reg {
      EntryIsOffered(w, client, reg, Key(kind, alias));
    }
    if w.Offered(kind, AliasTag(alias)) {
      var n, id :| n in w.catalog && id in w.catalog[n].services &&
        w.catalog[n].services[id].kind == kind && AliasTag(alias) in w.catalog[n].services[id].tags;
      assert Claims(w.catalog[n].services[id], kind, alias);
      if n == client {
        ClaimHasEntry(w.Services(client), reg, id, kind, alias);
      }
    }
    forall n, id | n in w.catalog && id in w.catalog[n].services && Claims(w.catalog[n].services[id], kind, alias)
      ensures w.Offered(kind, AliasTag(alias))
    {
    }
  }

  lemma PortMeans(services: map<string, Service>, reg: Registry, port: int)
    requires CatalogAgrees(services, reg)
    ensures PortUsed(services, port) <==> !PortFree(reg, port)
  {
    hide ServiceID, AliasTag, IsAliasTag;
    if PortUsed(services, port) {
      var id :| id in services && services[id].port == port;
      var k := IdHasEntry(services, reg, id);
      assert Served(services, k, reg[k]);
    }
    if !PortFree(reg, port) {
      var k :| k in reg && PortOf(reg[k]) == port;
      assert Served(services, k, reg[k]);
    }
  }

  lemma ChosenMeans(services: map<string, Service>, reg: Registry, requested: int, default: int)
    requires CatalogAgrees(services, reg)
    ensures ChosenPort(services, requested, default).Some? <==> PortLeft(reg, requested, default)
  {
    hide CatalogAgrees, PortUsed, PortFree, ChosenPort;
    ChosenPortIsLeast(services, requested, default);
    forall p
      ensures PortUsed(services, p) <==> !PortFree(reg, p)
    {
      PortMeans(services, reg, p);
    }
  }

  // ---------- additions ----------

  /** A port that no entry has is one for which no local service is installed. */
  lemma FreePortFreeUnit(w: World, client: string, parent: string, reg: Registry, m: Plugin, port: int)
    requires Represents(w, client, parent, reg) && m.Valid()
    requires !PortUsed(w.Services(client), port)
    ensures UnitName(m.Kind(), port) !in w.units
  {
    hide Represents, UnitName, WellNamed, MetricsKind, KnownName, PlainKind, CatalogAgrees, ValidRegistry;
    KnownMetrics(m.name);
    Parts(w, client, parent, reg);
    AgreedIsWellNamed(w.Services(client), reg);
    Recovery.RepresentedAgrees(w, client, parent, reg);
    GatedRuns.FreshUnit(w, client, m.Kind(), port);
  }

  lemma AddExporterAllowed(c: Command, w: World, config: Config, parent: string, reg: Registry)
    requires Represents(w, config.clientName, parent, reg) && c.AddExporter? && c.Valid()
    ensures CanAddMetrics(w, config, c.alias, c.requested, c.m, c.force) <==> Allows(c, reg, w, config)
    ensures Known(c, reg) <==> IsDuplicate(w.Services(config.clientName), c.m, c.force, c.alias)
  {
    hide Represents, Undisputed, PortLeft, GloballyUnique, IsDuplicate, BaseName, MetricsKind, KnownName, UnitName,
      ChosenPort, PortUsed, CatalogAgrees;
    var services := w.Services(config.clientName);
    Parts(w, config.clientName, parent, reg);
    DuplicateMeans(w, config.clientName, parent, reg, c.m, c.force, c.alias);
    UniqueMeans(w, config, parent, reg, c.m.Kind(), c.alias);
    ChosenMeans(services, reg, c.requested, c.m.defaultPort);
    ChosenPortIsLeast(services, c.requested, c.m.defaultPort);
    if ChosenPort(services, c.requested, c.m.defaultPort).Some? {
      FreePortFreeUnit(w, config.clientName, parent, reg, c.m,
                       ChosenPort(services, c.requested, c.m.defaultPort).value);
    }
  }

  lemma AddSourceAllowed(c: Command, w: World, config: Config, parent: string, reg: Registry)
    requires Represents(w, config.clientName, parent, reg) && c.AddSource? && c.Valid()
    ensures CanAddQueries(w, config.clientName, config.clientAddress, c.alias, c.q) <==> Allows(c, reg, w, config)
    ensures Known(c, reg) <==> Monitored(w.Services(config.clientName), c.q.Kind(), c.alias)
  {
    hide Represents, Undisputed, GloballyUnique, QueriesKind, Source.Valid, Monitored;
    LookupFindsNamed(w, config.clientName, parent, reg, c.q.Kind(), c.alias);
    UniqueMeans(w, config, parent, reg, c.q.Kind(), c.alias);
    if Key(c.q.Kind(), c.alias) in reg {
      assert NamedBy(Key(c.q.Kind(), c.alias), c.q.Kind(), c.alias);
    }
    if HasNamed(reg, c.q.Kind(), c.alias) {
      var k :| k in reg && NamedBy(k, c.q.Kind(), c.alias);
      assert k == Key(c.q.Kind(), c.alias);
    }
  }
}
