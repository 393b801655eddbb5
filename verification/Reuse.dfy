/**
 * Instances are reused: a QAN server that filters by parent and undeletes has at most one instance for each source,
 * however often the source is removed and added again.
 */
module Reuse {
  import opened Stores
  import opened Registry
  import opened Transitions
  import opened Monitor
  import opened Sanitize
  import opened Qan
  import opened Metrics
  import opened Queries
  import opened Refinement
  import opened Runs
  import opened Repair
  import opened Failures
  import opened DataSources

  /** The command creates no second instance of one identity. */
  predicate NoSecond(c: Command, was: World, now: World, parent: string) {
    c.AddSource? ==> Thrifty(was.instances, now.instances, c.q.instanceType, c.alias, parent)
  }

  predicate SameIdentity(i: Instance, j: Instance) {
    i.subsystem == j.subsystem && i.name == j.name && i.parent == j.parent
  }

  /** No instance goes, and each keeps its type, name and parent. */
  predicate IdentitiesKept(was: map<string, Instance>, now: map<string, Instance>) {
    forall u | u in was :: u in now && SameIdentity(was[u], now[u])
  }

  /** No two instances of this parent have the same type and name. */
  predicate OneEach(instances: map<string, Instance>, parent: string) {
    forall u, u' | u in instances && u' in instances && instances[u].parent == parent &&
      SameIdentity(instances[u], instances[u']) :: u == u'
  }

  // ---------- one step ----------

  /** What a command may do to instances: nothing, mark one, or, for a source, acquire one. */
  lemma AttemptRecords(c: Command, was: World, now: World, config: Config, parent: string) returns (u: string)
    requires Attempts(c, was, now, config, parent)
    ensures
      || now.instances == was.instances
      || now.instances == MarkedDeleted(was.instances, u)
      || (c.AddSource? && Acquired(was.instances, now.instances, u, c.q.instanceType, c.alias, parent))
  {
    hide FullyAdded, CanAddQueries, SanitizeDSN, AddOutcome, IsDuplicate, Lookup.GloballyUnique, MetricsKind,
      QueriesKind, UnitName, RemovedMetrics, Matches, Lookup.ChosenPort, MarkedDeleted, Between, RemoveSourceOutcome,
      Acquired;
    var client, address := config.clientName, config.clientAddress;
    u := "";
    if now == was {
      return;
    }
    match c {
      case AddExporter(m, alias, requested, force, disableSSL) =>
        var ok :| AddedAt(was, now, config, alias, requested, m, disableSSL, ok);
        assert AddedAt(was, now, config, alias, requested, m, disableSSL, ok);
        FullyAddedStores(was, config, alias, m,
                         Lookup.ChosenPort(was.Services(client), requested, m.defaultPort).value, disableSSL);
      case RemoveExporter(name, alias) =>
        var ok, faultless :| RemovedAMatch(was, now, client, MetricsKind(name), alias, ok, faultless);
        var id :| id in was.Services(client) && RemoveOutcome(was, now, client, id, ok, faultless);
        assert RemoveOutcome(was, now, client, id, ok, faultless);
        RemovedMetricsFields(was, client, id, was.Services(client)[id].kind, was.Services(client)[id].port);
      case AddSource(q, alias) =>
        InitIsKnown(was, client, address, alias, q);
        var ok, faultless :| AddedSomehow(was, now, client, address, parent, alias, q, q.init.value.dsn, ok, faultless);
        var b, uuid :| AddOutcome(was, now, client, address, parent, alias, q, q.init.value.dsn, b, uuid, ok,
                                  faultless);
        u := AdditionAcquires(was, now, client, address, parent, alias, q, q.init.value.dsn, b, uuid, ok, faultless);
      case RemoveSource(name, alias) =>
        var ok, faultless :| RemovedASource(was, now, client, address, QueriesKind(name), alias, name, ok, faultless);
        var id :|
          id in was.Services(client) && RemoveSourceOutcome(was, now, client, address, id, alias, name, ok, faultless);
        assert RemoveSourceOutcome(was, now, client, address, id, alias, name, ok, faultless);
        RemovalRecords(was, now, client, address, id, alias, name, ok, faultless);
        var key := UuidKey(client, id, alias, name);
        u := if key in was.kv then was.kv[key] else "";
    }
  }

  lemma AdditionAcquires(was: World, now: World, client: string, address: string, parent: string, alias: string,
                         q: Source, dsn: string, b: Base, uuid: string, ok: bool, faultless: bool) returns (u: string)
    requires AddOutcome(was, now, client, address, parent, alias, q, dsn, b, uuid, ok, faultless)
    ensures now.instances == was.instances ||
      Acquired(was.instances, now.instances, u, q.instanceType, alias, parent)
  {
    hide UnitName, SanitizeDSN, IsBase, FullyAddedSource, DsnKey, UnitReady, UnitStage, DsnsKept, Acquired, QueriesKind;
    u := uuid;
    if now.instances != was.instances && !Acquired(was.instances, now.instances, uuid, q.instanceType, alias, parent) {
      u :| Acquired(was.instances, now.instances, u, q.instanceType, alias, parent);
    }
  }

  lemma AttemptKeepsIdentities(c: Command, was: World, now: World, config: Config, parent: string)
    requires Attempts(c, was, now, config, parent)
    ensures IdentitiesKept(was.instances, now.instances)
  {
    hide Attempts;
    var u := AttemptRecords(c, was, now, config, parent);
  }

  lemma AttemptKeepsOneEach(c: Command, was: World, now: World, config: Config, parent: string)
    requires Attempts(c, was, now, config, parent) && NoSecond(c, was, now, parent) && OneEach(was.instances, parent)
    ensures IdentitiesKept(was.instances, now.instances) && OneEach(now.instances, parent)
  {
    hide Attempts;
    var u := AttemptRecords(c, was, now, config, parent);
    if c.AddSource? && Acquired(was.instances, now.instances, u, c.q.instanceType, c.alias, parent) {
      assert u in now.instances.Keys;
      assert u !in was.instances ==> !HasIdentity(was.instances, c.q.instanceType, c.alias, parent);
    }
  }

  lemma RepairKeepsOneEach(was: World, now: World, client: string, parent: string)
    requires Repaired(was, now, client) || PartlyRepaired(was, now, client)
    requires OneEach(was.instances, parent)
    ensures IdentitiesKept(was.instances, now.instances) && OneEach(now.instances, parent)
  {
    hide UuidUnderMissing, Matched, WantedUnits, KeysKept, OtherNodesKept;
    assert now.instances.Keys == was.instances.Keys;
    forall u | u in was.instances
      ensures SameIdentity(was.instances[u], now.instances[u])
    {
      assert SameOrDeleted(was.instances, now.instances, u);
    }
  }

  // ---------- runs ----------

  /**
   * Over every run of commands that fail wherever they may, and of repairs, if no addition creates a second instance:
   * the agent never has two instances of the same type and name, deleted or not.
   */
  lemma {:induction false} RunsHaveOneEach(states: seq<World>, commands: seq<Command>, config: Config, parent: string,
                                           n: nat)
    requires Trials(states, commands, config, parent) && n <= |commands| && OneEach(states[0].instances, parent)
    requires forall i | 0 <= i < |commands| :: NoSecond(commands[i], states[i], states[i + 1], parent)
    ensures IdentitiesKept(states[0].instances, states[n].instances) && OneEach(states[n].instances, parent)
  {
    hide Attempts, Repaired, PartlyRepaired, OneEach, NoSecond;
    if n > 0 {
      RunsHaveOneEach(states, commands, config, parent, n - 1);
      var c, was, now := commands[n - 1], states[n - 1], states[n];
      assert Trial(c, was, now, config, parent);
      if Attempts(c, was, now, config, parent) {
        AttemptKeepsOneEach(c, was, now, config, parent);
      } else {
        RepairKeepsOneEach(was, now, config.clientName, parent);
      }
    }
  }

  // ---------- the same source again ----------

  predicate HasIdentityAt(instances: map<string, Instance>, u: string, subsystem: string, name: string,
                          parent: string)
  {
    u in instances && IsNamed(instances[u], subsystem, name) && instances[u].parent == parent
  }

  /** The instance of a source has its type, name and parent. */
  lemma EntryHasIdentity(w: World, client: string, parent: string, reg: Registry, q: Source, alias: string)
    requires Represents(w, client, parent, reg) && q.Valid() && Key(q.Kind(), alias) in reg
    requires reg[Key(q.Kind(), alias)].Source?
    ensures
      HasIdentityAt(w.instances, reg[Key(q.Kind(), alias)].uuid, q.instanceType, alias, parent)
  {
    hide Represents, QueriesKind, Source.Valid;
    var u := reg[Key(q.Kind(), alias)].uuid;
    EntryIsLive(w, client, parent, reg, Key(q.Kind(), alias));
    assert u in w.instances && IsSourceType(w.instances[u].subsystem);
    SubsystemOfKind(w.instances[u].subsystem, q);
  }

  lemma SubsystemOfKind(subsystem: string, q: Source)
    requires q.Valid() && IsSourceType(subsystem) && KindOfSubsystem(subsystem) == q.Kind()
    ensures subsystem == q.instanceType
  {
    KnownQueries(q.name);
    KnownQueries(if subsystem == "mongo" then "mongodb" else subsystem);
  }

  lemma SourceKindsMatch(q: Source)
    requires q.Valid()
    ensures KnownName(q.name) && IsQueries(q.Kind())
  {
    KnownQueries(q.name);
  }

  /**
   * Removing a source and adding it again creates no instance. If there was only one for it, the source gets its old
   * UUID, and, with the same data source, the registry is as it was.
   */
  lemma AddedAgain(w: World, mid: World, now: World, config: Config, parent: string, reg: Registry, q: Source,
                   alias: string)
    requires Represents(w, config.clientName, parent, reg) && q.Valid() && ServiceName(alias)
    requires RemoveSource(q.name, alias).Performs(w, mid, config, parent)
    requires AddSource(q, alias).Performs(mid, now, config, parent) && NoSecond(AddSource(q, alias), mid, now, parent)
    ensures now.instances.Keys == w.instances.Keys
    ensures
      var k := Key(q.Kind(), alias);
      k in reg && reg[k].Source? && q.init.Some?
    ensures
      var k := Key(q.Kind(), alias);
      OneEach(w.instances, parent) ==>
      && Represents(now, config.clientName, parent,
                    reg[k := Entry.Source(SanitizeDSN(q.init.value.dsn), reg[k].uuid)])
      && (SanitizeDSN(q.init.value.dsn) == reg[k].dsn ==> Represents(now, config.clientName, parent, reg))
  {
    hide Represents, Command.Performs, Source.Valid, ServiceName, SanitizeDSN, QueriesKind, OneEach, NoSecond;
    var k := Key(q.Kind(), alias);
    var reg2 := AgainInRegistry(w, mid, now, config, parent, reg, q, alias);
    AgainInstances(w, mid, now, config, parent, q, alias, reg[k].uuid, reg2[k].uuid);
    if OneEach(w.instances, parent) {
      assert reg2 == reg[k := Entry.Source(SanitizeDSN(q.init.value.dsn), reg[k].uuid)];
      if SanitizeDSN(q.init.value.dsn) == reg[k].dsn {
        assert reg2 == reg;
      }
    }
  }

  /** The two steps on the registry, and the two instances, of the same identity. */
  lemma AgainInRegistry(w: World, mid: World, now: World, config: Config, parent: string, reg: Registry, q: Source,
                        alias: string) returns (reg2: Registry)
    requires Represents(w, config.clientName, parent, reg) && q.Valid() && ServiceName(alias)
    requires RemoveSource(q.name, alias).Performs(w, mid, config, parent)
    requires AddSource(q, alias).Performs(mid, now, config, parent)
    ensures
      var k := Key(q.Kind(), alias);
      && k in reg && reg[k].Source? && Represents(now, config.clientName, parent, reg2)
      && k in reg2 && reg2 == reg[k := reg2[k]] && reg2[k].Source? && q.init.Some?
      && reg2[k].dsn == SanitizeDSN(q.init.value.dsn)
      && HasIdentityAt(w.instances, reg[k].uuid, q.instanceType, alias, parent)
      && HasIdentityAt(now.instances, reg2[k].uuid, q.instanceType, alias, parent)
  {
    hide Represents, Command.Performs, Source.Valid, ServiceName, SanitizeDSN, QueriesKind, KnownName, IsQueries;
    var k, client := Key(q.Kind(), alias), config.clientName;
    SourceKindsMatch(q);
    var reg1 := StepRefines(RemoveSource(q.name, alias), w, mid, config, parent, reg);
    assert k in reg && reg1 == reg - {k} by { NamedIsKey(q, alias, reg, reg1); }
    reg2 := StepRefines(AddSource(q, alias), mid, now, config, parent, reg1);
    KindIsSource(w, client, parent, reg, k);
    EntryHasIdentity(w, client, parent, reg, q, alias);
    EntryHasIdentity(now, client, parent, reg2, q, alias);
    assert reg2 == reg[k := reg2[k]];
  }

  lemma AgainInstances(w: World, mid: World, now: World, config: Config, parent: string, q: Source, alias: string,
                       u: string, u': string)
    requires RemoveSource(q.name, alias).Performs(w, mid, config, parent)
    requires AddSource(q, alias).Performs(mid, now, config, parent) && NoSecond(AddSource(q, alias), mid, now, parent)
    requires HasIdentityAt(w.instances, u, q.instanceType, alias, parent)
    requires HasIdentityAt(now.instances, u', q.instanceType, alias, parent)
    ensures now.instances.Keys == w.instances.Keys && (OneEach(w.instances, parent) ==> u == u')
  {
    hide Command.Performs, OneEach;
    PerformedIsAttempted(RemoveSource(q.name, alias), w, mid, config, parent);
    PerformedIsAttempted(AddSource(q, alias), mid, now, config, parent);
    AttemptKeepsIdentities(RemoveSource(q.name, alias), w, mid, config, parent);
    AttemptKeepsIdentities(AddSource(q, alias), mid, now, config, parent);
    RemovalKeepsKeys(RemoveSource(q.name, alias), w, mid, config, parent);
    SameUuid(w, mid, now, q, alias, parent, u, u');
  }

  lemma NamedIsKey(q: Source, alias: string, reg: Registry, reg': Registry)
    requires RemoveSource(q.name, alias).Effect(reg, reg') && ServiceName(alias)
    ensures Key(q.Kind(), alias) in reg && reg' == reg - {Key(q.Kind(), alias)}
  {
    hide QueriesKind;
  }

  lemma KindIsSource(w: World, client: string, parent: string, reg: Registry, k: Key)
    requires Represents(w, client, parent, reg) && k in reg && IsQueries(k.kind)
    ensures reg[k].Source?
  {
    hide Represents, IsQueries, PlainKind, SvcTypes;
    ValidOf(w, client, parent, reg, k);
  }

  lemma PerformedIsAttempted(c: Command, was: World, now: World, config: Config, parent: string)
    requires c.Performs(was, now, config, parent)
    ensures Attempts(c, was, now, config, parent)
  {
    hide RemovedAMatch, RemovedASource, AddedSomehow, CanAddQueries, Lookup.ChosenPort, Lookup.GloballyUnique,
      IsDuplicate, BaseName, FullyAdded, UnitName, MetricsKind, QueriesKind, PartlyAdded;
    if c.AddExporter? {
      assert AddedAt(was, now, config, c.alias, c.requested, c.m, c.disableSSL, true);
    }
  }

  lemma RemovalKeepsKeys(c: Command, was: World, now: World, config: Config, parent: string)
    requires c.RemoveSource? && Attempts(c, was, now, config, parent)
    ensures now.instances.Keys == was.instances.Keys
  {
    hide Attempts;
    var u := AttemptRecords(c, was, now, config, parent);
  }

  lemma SameUuid(w: World, mid: World, now: World, q: Source, alias: string, parent: string, u: string, u': string)
    requires IdentitiesKept(w.instances, mid.instances) && mid.instances.Keys == w.instances.Keys
    requires Thrifty(mid.instances, now.instances, q.instanceType, alias, parent)
    requires HasIdentityAt(w.instances, u, q.instanceType, alias, parent)
    requires HasIdentityAt(now.instances, u', q.instanceType, alias, parent)
    requires IdentitiesKept(mid.instances, now.instances)
    ensures now.instances.Keys == w.instances.Keys && (OneEach(w.instances, parent) ==> u == u')
  {
    assert SameIdentity(w.instances[u], mid.instances[u]);
    assert HasIdentity(mid.instances, q.instanceType, alias, parent);
    assert u' in mid.instances.Keys && u' in w.instances.Keys;
    assert SameIdentity(mid.instances[u'], now.instances[u']) && SameIdentity(w.instances[u'], mid.instances[u']);
  }
}
