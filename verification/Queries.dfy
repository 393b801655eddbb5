/** Putting query sources under analysis and taking them away; sources of a kind share one service. */
module Queries {
  import opened Strings
  import opened Stores
  import opened Registry
  import opened Transitions
  import opened Monitor
  import opened Services
  import opened Lookup
  import opened Sanitize
  import opened Qan
  import opened Metrics

  /** plugin.Queries, with the outcome of its Init. */
  datatype Source = Source(name: string, instanceType: string, init: Option<Info>)
  {
    predicate Valid() {
      (name == "mysql" || name == "mongodb") && instanceType == Subsystem(Kind())
    }

    function Kind(): string { QueriesKind(name) }
  }

  /** The service a new source joins: an existing one of its kind, or a new one on port 0. */
  datatype Base = Base(port: int, tags: seq<string>, present: bool)

  predicate IsBase(services: map<string, Service>, kind: string, b: Base) {
    if b.present
    then exists id | id in services ::
      services[id].kind == kind && services[id].port == b.port && services[id].tags == b.tags
    else !Monitored(services, kind, "") && b == Base(0, [], false)
  }

  /** An existing service must be installed locally, a new one must not be. */
  predicate UnitReady(units: map<string, bool>, unit: string, b: Base) {
    b.present <==> unit in units
  }

  predicate CanAddQueries(w: World, client: string, address: string, alias: string, q: Source) {
    && q.init.Some?
    && !Monitored(w.Services(client), q.Kind(), alias)
    && GloballyUnique(w, client, address, q.Kind(), alias)
  }

  // ---------- adding ----------

  /** The stores after a complete addition. */
  function FullyAddedSource(w: World, client: string, address: string, alias: string, q: Source, b: Base,
                            dsn: string, uuid: string, instances: map<string, Instance>): World {
    AddedQueries(w, client, address, Key(q.Kind(), alias), b.port, b.tags, SanitizeDSN(dsn), uuid, instances)
      .(files := WithFile(w.files, instances, uuid, dsn))
  }

  ghost predicate InstanceStage(was: World, now: World, parent: string, q: Source, alias: string) {
    now.instances == was.instances ||
    exists u :: Acquired(was.instances, now.instances, u, q.instanceType, alias, parent)
  }

  /** The local service untouched, installed but not started, or running. */
  predicate UnitStage(was: World, now: World, unit: string, b: Base) {
    || now.units == was.units
    || (UnitReady(was.units, unit, b) && now.units == was.units[unit := true])
    || (!b.present && unit !in was.units && now.units == was.units[unit := false])
  }

  /** The catalog knows the alias, but at most the first of its two keys is written. */
  predicate Registered(was: World, now: World, full: World, dsnKey: string, dsn: string) {
    now == full.(kv := now.kv) && (now.kv == was.kv || now.kv == was.kv[dsnKey := dsn])
  }

  /** An addition that stopped part way: at the instance, at the local service, or at the keys. */
  ghost predicate PartlyAddedSource(was: World, now: World, full: World, parent: string, alias: string, q: Source,
                                    b: Base, uuid: string, dsnKey: string, dsn: string)
  {
    var unit := UnitName(q.Kind(), b.port);
    var acquired := Acquired(was.instances, now.instances, uuid, q.instanceType, alias, parent);
    || (now == was.(instances := now.instances) && InstanceStage(was, now, parent, q, alias))
    || (now == was.(instances := now.instances, files := full.files, units := now.units) &&
        acquired && UnitStage(was, now, unit, b))
    || (acquired && UnitReady(was.units, unit, b) && Registered(was, now, full, dsnKey, dsn))
  }

  /** Where the sanitised data source of a new source is stored. */
  function DsnKey(client: string, q: Source, b: Base, alias: string): string {
    Dir(client, ServiceID(q.Kind(), b.port)) + DsnSub(alias)
  }

  /** What adding the source to this base with this UUID comes to. */
  ghost predicate AddOutcome(was: World, now: World, client: string, address: string, parent: string,
                             alias: string, q: Source, dsn: string, b: Base, uuid: string,
                             ok: bool, faultless: bool)
  {
    var full := FullyAddedSource(was, client, address, alias, q, b, dsn, uuid, now.instances);
    && IsBase(was.Services(client), q.Kind(), b)
    && DsnsKept(was.instances, now.instances, dsn)
    && (ok <==> faultless && UnitReady(was.units, UnitName(q.Kind(), b.port), b))
    && if ok
       then now == full && Acquired(was.instances, now.instances, uuid, q.instanceType, alias, parent)
       else PartlyAddedSource(was, now, full, parent, alias, q, b, uuid, DsnKey(client, q, b, alias), SanitizeDSN(dsn))
  }

  ghost predicate AddedSomehow(was: World, now: World, client: string, address: string, parent: string,
                               alias: string, q: Source, dsn: string, ok: bool, faultless: bool)
  {
    exists b, uuid :: AddOutcome(was, now, client, address, parent, alias, q, dsn, b, uuid, ok, faultless)
  }

  lemma FullyAddedSourceFields(w: World, client: string, address: string, alias: string, q: Source, b: Base,
                               dsn: string, uuid: string, instances: map<string, Instance>)
    ensures
      var full := FullyAddedSource(w, client, address, alias, q, b, dsn, uuid, instances);
      var id := ServiceID(q.Kind(), b.port);
      var dir := Dir(client, id);
      && full.catalog == WithService(w.catalog, client, address, id, Service(q.Kind(), TagsWith(b.tags, alias), b.port))
      && full.kv == w.kv[dir + DsnSub(alias) := SanitizeDSN(dsn)][dir + UuidSub(alias, NameOf(q.Kind())) := uuid]
      && full.units == w.units[UnitName(q.Kind(), b.port) := true]
      && full.instances == instances && full.files == WithFile(w.files, instances, uuid, dsn)
  {
    hide ServiceID, Dir, TagsWith, DsnSub, UuidSub, UnitName, SanitizeDSN, NameOf, WithFile;
  }

  /** The catalog entry with one more alias, then the two keys. */
  method PublishSource(a: Admin, id: string, svc: Service, k1: string, v1: string, k2: string, v2: string)
    returns (r: Outcome)
    requires k1 != k2
    modifies a`catalog, a`kv, a`faults
    ensures a.faults >= old(a.faults)
    ensures r.Ok? <==> a.faults == old(a.faults)
    ensures r.Err? ==> r.error == Failed
    ensures
      var registered := WithService(old(a.catalog), a.config.clientName, a.config.clientAddress, id, svc);
      if r.Ok? then a.catalog == registered && a.kv == old(a.kv)[k1 := v1][k2 := v2]
      else
        || (a.catalog == old(a.catalog) && a.kv == old(a.kv))
        || (a.catalog == registered && (a.kv == old(a.kv) || a.kv == old(a.kv)[k1 := v1]))
  {
    hide WithService;
    var failed := a.Register(a.config.clientName, a.config.clientAddress, id, svc);
    if failed { return Err(Failed); }
    failed := a.Put(k1, v1);
    if failed { return Err(Failed); }
    failed := a.Put(k2, v2);
    if failed { return Err(Failed); }
    return Ok;
  }

  /** The local agent: installed for the first source of its kind, otherwise only started. */
  method PrepareAgent(a: Admin, unit: string, present: bool) returns (r: Outcome)
    modifies a`units, a`faults
    ensures a.faults >= old(a.faults)
    ensures r.Ok? <==> a.faults == old(a.faults) && (present <==> unit in old(a.units))
    ensures r.Ok? ==> a.units == old(a.units)[unit := true]
    ensures a.units == old(a.units) ||
      ((present <==> unit in old(a.units)) && a.units == old(a.units)[unit := true]) ||
      (!present && unit !in old(a.units) && a.units == old(a.units)[unit := false])
  {
    if present {
      ghost var answered, started;
      r, answered, started := StartService(a, unit);
    } else {
      ghost var installed;
      r, installed := InstallService(a, unit);
    }
    if r.Ok? {
      var failed := a.Call(); // startQAN
      if failed { r := Err(Failed); }
    }
  }

  lemma AliasKeysDiffer(dir: string, alias: string, name: string)
    ensures dir + DsnSub(alias) != dir + UuidSub(alias, name)
  {
    var k1, k2 := dir + DsnSub(alias), dir + UuidSub(alias, name);
    assert k1[|dir| + |alias| + 1] == 'd';
    assert k2[|dir| + |alias| + 1] == 'q';
  }

  lemma NameOfSource(q: Source)
    requires q.Valid()
    ensures NameOf(q.Kind()) == q.name
  {
    assert KnownName(q.name);
    KnownQueries(q.name);
  }

  /** AddQueries once nothing stands against it: instance, agent, analysis, catalog, keys. */
  method JoinBase(a: Admin, q: Source, dsn: string, b: Base) returns (r: Outcome, ghost uuid: string)
    requires q.Valid() && IsBase(a.Services(), q.Kind(), b)
    modifies a`catalog, a`kv, a`units, a`instances, a`files, a`faults
    ensures a.faults >= old(a.faults)
    ensures r.Ok? || r == Err(Failed)
    ensures AddOutcome(old(a.State()), a.State(), a.config.clientName, a.config.clientAddress, a.agentParent,
                       a.serviceName, q, dsn, b, uuid, r.Ok?, a.faults == old(a.faults))
    ensures a.server == Current ==>
      Thrifty(old(a.instances), a.instances, q.instanceType, a.serviceName, a.agentParent)
  {
    hide ServiceID, Dir, UnitName, TagsWith, DsnSub, UuidSub, SanitizeDSN, NameOf, QueriesKind, Subsystem;
    hide Acquired, DsnsKept, IsBase, FullyAddedSource, Between, WithService, WithFile, Thrifty, MayAnswer, Usable,
      Revived;
    var kind, alias := q.Kind(), a.serviceName;
    var unit, id := UnitName(kind, b.port), ServiceID(kind, b.port);
    uuid := "";
    ghost var was := a.State();
    var acquired;
    ghost var answer;
    acquired, answer := AcquireInstance(a, q.instanceType, alias, dsn);
    if acquired.Failure? {
      return Err(Failed), uuid;
    }
    uuid := acquired.value;
    FullyAddedSourceFields(was, a.config.clientName, a.config.clientAddress, alias, q, b, dsn, uuid, a.instances);
    var prepared := PrepareAgent(a, unit, b.present);
    if prepared.Err? { return Err(Failed), uuid; }
    NameOfSource(q);
    var dir := Dir(a.config.clientName, id);
    AliasKeysDiffer(dir, alias, q.name);
    r := PublishSource(a, id, Service(kind, TagsWith(b.tags, alias), b.port),
                       dir + DsnSub(alias), SanitizeDSN(dsn), dir + UuidSub(alias, q.name), acquired.value);
  }

  /** The checks that come first: no source of the name, here or anywhere, and a local agent to work with. */
  method FindBase(a: Admin, kind: string) returns (r: Result<Base>)
    modifies a`faults
    ensures a.faults >= old(a.faults)
    ensures
      var free := !Monitored(a.Services(), kind, a.serviceName) &&
        GloballyUnique(a.State(), a.config.clientName, a.config.clientAddress, kind, a.serviceName);
      r.Success? <==> a.faults == old(a.faults) && free
    ensures r.Success? ==>
      && IsBase(a.Services(), kind, r.value)
      && !NameTaken(a.State(), a.config.clientName, a.config.clientAddress)
      && !TaggedSomewhere(a.State(), kind, a.serviceName)
    ensures r == Failure(Duplicate) <==> a.faults == old(a.faults) && Monitored(a.Services(), kind, a.serviceName)
  {
    hide AliasTag, GloballyUnique, IsBase, Matches, NameTaken, TaggedSomewhere;
    var found := GetConsulService(a, kind, a.serviceName);
    if found.Failure? { return Failure(Failed); }
    if found.value.Some? { return Failure(Duplicate); }
    var unique := CheckGlobalDuplicateService(a, kind, a.serviceName);
    if unique.Err? { return Failure(Failed); }
    var any := GetConsulService(a, kind, "");
    if any.Failure? { return Failure(Failed); }
    var failed := a.Call(); // getAgentID
    if failed { return Failure(Failed); }
    failed := a.Call(); // getAgentInstance
    if failed { return Failure(Failed); }
    var b :=
      if any.value.Some? then Base(any.value.value.svc.port, any.value.value.svc.tags, true) else Base(0, [], false);
    BaseOf(a.Services(), kind, any.value, b);
    return Success(b);
  }

  method AddQueries(a: Admin, q: Source) returns (r: Result<Info>)
    requires q.Valid()
    modifies a`catalog, a`kv, a`units, a`instances, a`files, a`config, a`file, a`faults
    ensures a.faults >= old(a.faults)
    ensures
      var can := CanAddQueries(old(a.State()), a.config.clientName, a.config.clientAddress, a.serviceName, q);
      if can
      then AddedSomehow(old(a.State()), a.State(), a.config.clientName, a.config.clientAddress, a.agentParent,
                        a.serviceName, q, q.init.value.dsn, r.Success?, a.faults == old(a.faults))
      else r.Failure? && a.State() == old(a.State())
    ensures a.server == Current ==>
      Thrifty(old(a.instances), a.instances, q.instanceType, a.serviceName, a.agentParent)
    ensures
      var taken := NameTaken(old(a.State()), a.config.clientName, a.config.clientAddress);
      taken || TaggedSomewhere(old(a.State()), q.Kind(), a.serviceName) ==>
        r.Failure? && a.State() == old(a.State())
    ensures r.Success? ==> Some(r.value) == q.init
    ensures
      var duplicate := q.init.Some? && Monitored(old(a.Services()), q.Kind(), a.serviceName);
      r == Failure(Duplicate) <==> a.faults == old(a.faults) && duplicate
    ensures PasswordKept(NewPassword(q.init), old(a.config), old(a.file), a.config, a.file,
                         a.faults == old(a.faults), a.State() == old(a.State()))
    ensures FileKept(old(a.file), old(a.config), a.file)
  {
    hide QueriesKind, GloballyUnique, AddOutcome, IsBase, Source.Valid, AddedSomehow, HasIdentity,
      TaggedSomewhere, NameTaken;
    if q.init.None? { return Failure(Failed); }
    var info := q.init.value;
    Untried(a.State(), a.config.clientName, a.config.clientAddress, a.agentParent, a.serviceName, q, info.dsn);
    if info.pmmUserPassword != "" {
      a.config := a.config.(mySQLPassword := info.pmmUserPassword);
      var failed := a.WriteConfig();
      if failed { return Failure(Failed); }
    }
    var base := FindBase(a, q.Kind());
    if base.Failure? { return Failure(base.error); }
    var b := base.value;
    var joined, uuid := JoinBase(a, q, info.dsn, b);
    Tried(old(a.State()), a.State(), a.config.clientName, a.config.clientAddress, a.agentParent, a.serviceName, q,
          info.dsn, b, uuid, joined.Ok?, a.faults == old(a.faults));
    if joined.Err? { return Failure(Failed); }
    return Success(info);
  }

  lemma BaseOf(services: map<string, Service>, kind: string, any: Option<Found>, b: Base)
    requires any.Some? <==> Monitored(services, kind, "")
    requires any.Some? ==> IsFound(services, any.value, kind, "")
    requires b == if any.Some? then Base(any.value.svc.port, any.value.svc.tags, true) else Base(0, [], false)
    ensures IsBase(services, kind, b)
  {
  }

  lemma Tried(was: World, now: World, client: string, address: string, parent: string, alias: string, q: Source,
              dsn: string, b: Base, uuid: string, ok: bool, faultless: bool)
    requires AddOutcome(was, now, client, address, parent, alias, q, dsn, b, uuid, ok, faultless)
    ensures AddedSomehow(was, now, client, address, parent, alias, q, dsn, ok, faultless)
  {
    hide AddOutcome;
  }

  /** Stopping before anything is done is one way of stopping. */
  lemma Untried(w: World, client: string, address: string, parent: string, alias: string, q: Source, dsn: string)
    ensures AddedSomehow(w, w, client, address, parent, alias, q, dsn, false, false)
  {
    hide Between, FullyAddedSource, UnitName;
    var services := w.Services(client);
    var b: Base;
    if Monitored(services, q.Kind(), "") {
      var id :| id in services && Matches(services[id], q.Kind(), "");
      b := Base(services[id].port, services[id].tags, true);
    } else {
      b := Base(0, [], false);
    }
    assert AddOutcome(w, w, client, address, parent, alias, q, dsn, b, "", false, false);
  }

  // ---------- removing ----------

  function UuidKey(client: string, id: string, alias: string, name: string): string {
    Dir(client, id) + UuidSub(alias, name)
  }

  /** The UUID stored for the alias, if any. */
  function StoredUuid(w: World, client: string, id: string, alias: string, name: string): string {
    var key := UuidKey(client, id, alias, name);
    if key in w.kv then w.kv[key] else ""
  }

  /** A removal needs the local service, the stored UUID and the instance it names. */
  predicate CanRemoveSource(w: World, client: string, id: string, unit: string, alias: string, name: string) {
    && unit in w.units
    && UuidKey(client, id, alias, name) in w.kv
    && StoredUuid(w, client, id, alias, name) in w.instances
  }

  /**
   * A removal that stopped part way: at starting the local service, after deleting the instance, after
   * deleting the keys, or, for the last alias, between the catalog and the local service.
   */
  ghost predicate PartlyRemovedSource(was: World, now: World, full: World, unit: string) {
    var up := was.units[unit := true];
    || now == was
    || (unit in was.units &&
        (|| now == was.(units := up)
         || now == was.(units := up, instances := full.instances)
         || now == full.(units := up, catalog := was.catalog)
         || (unit !in full.units && (now == full.(units := up) || now == full.(units := was.units[unit := false])))))
  }

  ghost predicate RemoveSourceOutcome(was: World, now: World, client: string, address: string, id: string,
                                      alias: string, name: string, ok: bool, faultless: bool)
  {
    && id in was.Services(client)
    && var svc := was.Services(client)[id];
    var unit := UnitName(svc.kind, svc.port);
    var full := RemovedQueries(was, client, address, id, svc, alias, StoredUuid(was, client, id, alias, name));
    && (ok <==> faultless && CanRemoveSource(was, client, id, unit, alias, name))
    && (!CanRemoveSource(was, client, id, unit, alias, name) ==> now == was.(units := now.units))
    && if ok then now == full else PartlyRemovedSource(was, now, full, unit)
  }

  ghost predicate RemovedASource(was: World, now: World, client: string, address: string, kind: string,
                                 alias: string, name: string, ok: bool, faultless: bool)
  {
    exists id | id in was.Services(client) && Matches(was.Services(client)[id], kind, alias) ::
      RemoveSourceOutcome(was, now, client, address, id, alias, name, ok, faultless)
  }

  lemma RemovedQueriesFields(w: World, client: string, address: string, id: string, svc: Service, alias: string,
                             uuid: string)
    ensures
      var full := RemovedQueries(w, client, address, id, svc, alias, uuid);
      var tags := OtherAliases(svc.tags, alias);
      var unit := UnitName(svc.kind, svc.port);
      && full.catalog == (if tags == [] then WithoutService(w.catalog, client, id)
                          else WithService(w.catalog, client, address, id, svc.(tags := tags)))
      && full.kv == DeleteTree(w.kv, Dir(client, id) + alias + "/")
      && full.units == (if tags == [] then w.units - {unit} else w.units[unit := true])
      && full.instances == MarkedDeleted(w.instances, uuid) && full.files == w.files
  {
    hide Dir, UnitName, OtherAliases, DeleteTree, MarkedDeleted, WithService, WithoutService;
  }

  /** The loop of RemoveQueries over the tags. */
  method KeepOthers(tags: seq<string>, alias: string) returns (others: seq<string>)
    ensures others == OtherAliases(tags, alias)
  {
    others := [];
    for i := 0 to |tags|
      invariant others == OtherAliases(tags[..i], alias)
    {
      assert tags[..i + 1][..i] == tags[..i];
      if IsAliasTag(tags[i]) {
        if tags[i] != AliasTag(alias) {
          others := others + [tags[i]];
        }
      }
    }
    assert tags[..|tags|] == tags;
  }

  /** Stopping the analysis: agent started, UUID read, tool stopped, instance deleted. */
  method StopAnalysis(a: Admin, unit: string, key: string) returns (r: Outcome)
    modifies a`units, a`instances, a`faults
    ensures a.faults >= old(a.faults)
    ensures r.Ok? || r == Err(Failed)
    ensures
      var can := unit in old(a.units) && key in a.kv && a.kv[key] in old(a.instances);
      r.Ok? <==> a.faults == old(a.faults) && can
    ensures r.Ok? ==> a.units == old(a.units)[unit := true]
    ensures r.Ok? ==> a.instances == MarkedDeleted(old(a.instances), a.kv[key])
    ensures r.Err? ==> a.instances == old(a.instances)
    ensures a.units == old(a.units) || (unit in old(a.units) && a.units == old(a.units)[unit := true])
  {
    hide MarkedDeleted;
    ghost var answered, started;
    r, answered, started := StartService(a, unit);
    if r.Err? { return Err(Failed); }
    var failed, uuid := a.Get(key);
    if failed || uuid.None? { return Err(Failed); }
    failed := a.Call(); // getAgentID
    if failed { return Err(Failed); }
    failed := a.Call(); // stopQAN
    if failed { return Err(Failed); }
    r := DeleteInstance(a, uuid.value);
  }

  /** Taking the alias out of the catalog, with the whole service if it was the last. */
  method Withdraw(a: Admin, id: string, svc: Service, alias: string, unit: string) returns (r: Outcome)
    requires unit in a.units
    modifies a`catalog, a`units, a`faults
    ensures a.faults >= old(a.faults)
    ensures r.Ok? || r == Err(Failed)
    ensures r.Ok? <==> a.faults == old(a.faults)
    ensures
      var tags := OtherAliases(svc.tags, alias);
      var catalog := if tags == [] then WithoutService(old(a.catalog), a.config.clientName, id)
                     else WithService(old(a.catalog), a.config.clientName, a.config.clientAddress, id,
                                      svc.(tags := tags));
      var units := if tags == [] then old(a.units) - {unit} else old(a.units);
      if r.Ok? then a.catalog == catalog && a.units == units
      else
        || (a.catalog == old(a.catalog) && a.units == old(a.units))
        || (tags == [] && a.catalog == catalog && (a.units == old(a.units) || a.units == old(a.units)[unit := false]))
  {
    hide WithService, WithoutService, OtherAliases;
    var tags := KeepOthers(svc.tags, alias);
    if tags == [] {
      var failed := a.Deregister(a.config.clientName, id);
      if failed { return Err(Failed); }
      var gone;
      ghost var answered, halted;
      gone, answered, halted := UninstallService(a, unit);
      if gone.Err? { return Err(Failed); }
    } else {
      var failed := a.Register(a.config.clientName, a.config.clientAddress, id, svc.(tags := tags));
      if failed { return Err(Failed); }
    }
    return Ok;
  }

  /** RemoveQueries once the service is found. */
  method Leave(a: Admin, id: string, svc: Service, name: string) returns (r: Outcome)
    requires id in a.Services() && a.Services()[id] == svc
    modifies a`catalog, a`kv, a`units, a`instances, a`faults
    ensures a.faults >= old(a.faults)
    ensures r.Ok? || r == Err(Failed)
    ensures RemoveSourceOutcome(old(a.State()), a.State(), a.config.clientName, a.config.clientAddress, id,
                                a.serviceName, name, r.Ok?, a.faults == old(a.faults))
  {
    hide Dir, UuidSub, UnitName, OtherAliases, DeleteTree, MarkedDeleted, WithService, WithoutService, RemovedQueries;
    var unit, alias := UnitName(svc.kind, svc.port), a.serviceName;
    var key := UuidKey(a.config.clientName, id, alias, name);
    RemovedQueriesFields(a.State(), a.config.clientName, a.config.clientAddress, id, svc, alias,
                         StoredUuid(a.State(), a.config.clientName, id, alias, name));
    var stopped := StopAnalysis(a, unit, key);
    if stopped.Err? { return Err(Failed); }
    var failed := a.DeleteSubtree(Dir(a.config.clientName, id) + alias + "/");
    if failed { return Err(Failed); }
    r := Withdraw(a, id, svc, alias, unit);
  }

  method RemoveQueries(a: Admin, name: string) returns (r: Outcome)
    requires KnownName(name)
    modifies a`catalog, a`kv, a`units, a`instances, a`faults
    ensures a.faults >= old(a.faults)
    ensures
      var none := !Monitored(old(a.Services()), QueriesKind(name), a.serviceName);
      r == Err(NoService) <==> a.faults == old(a.faults) && none
    ensures if Monitored(old(a.Services()), QueriesKind(name), a.serviceName)
      then RemovedASource(old(a.State()), a.State(), a.config.clientName, a.config.clientAddress, QueriesKind(name),
                          a.serviceName, name, r.Ok?, a.faults == old(a.faults))
      else r.Err? && a.State() == old(a.State())
  {
    hide QueriesKind, KnownName, Matches, RemovedQueries, UnitName, CanRemoveSource;
    var kind := QueriesKind(name);
    var found := GetConsulService(a, kind, a.serviceName);
    if found.Failure? {
      if Monitored(a.Services(), kind, a.serviceName) {
        ghost var id :| id in a.Services() && Matches(a.Services()[id], kind, a.serviceName);
        assert RemoveSourceOutcome(old(a.State()), a.State(), a.config.clientName, a.config.clientAddress, id,
                                   a.serviceName, name, false, false);
      }
      return Err(Failed);
    }
    assert a.Services() == old(a.Services());
    if found.value.None? { return Err(NoService); }
    var f := found.value.value;
    r := Leave(a, f.id, f.svc, name);
    assert RemoveSourceOutcome(old(a.State()), a.State(), a.config.clientName, a.config.clientAddress, f.id,
                               a.serviceName, name, r.Ok?, a.faults == old(a.faults));
  }

  /** The local service that the queries commands name is the one belonging to the catalog service. */
  lemma QueriesUnit(name: string, port: int)
    requires KnownName(name)
    ensures "pmm-" + (name + "-" + ("queries" + "-" + Itoa(port))) == UnitName(QueriesKind(name), port)
  {
    hide UnitName;
    KnownQueries(name);
    UnitNameOfParts(name, "queries", port);
  }
}
