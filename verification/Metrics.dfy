/** Putting exporters under monitoring and taking them away. */
module Metrics {
  import opened Strings
  import opened Stores
  import opened Registry
  import opened Transitions
  import opened Monitor
  import opened Services
  import opened Lookup

  /** What a plugin's Init learns about its database. */
  datatype Info = Info(dsn: string, pmmUserPassword: string)

  /** The password that Init has given to the user it created, if it created one. */
  function NewPassword(init: Option<Info>): string {
    if init.Some? then init.value.pmmUserPassword else ""
  }

  /** A new password is kept, and written to the file before anything else is done; without one nothing is written. */
  predicate PasswordKept(password: string, was: Config, fileWas: Config, now: Config, fileNow: Config,
                         faultless: bool, untouched: bool)
  {
    if password == "" then now == was && fileNow == fileWas
    else
      && now == was.(mySQLPassword := password)
      && (fileNow == now || (fileNow == fileWas && !faultless && untouched))
  }

  /** plugin.Metrics, with the outcome of its Init. */
  datatype Plugin = Plugin(
    name: string,
    defaultPort: int,
    multiple: bool,
    cluster: string,
    data: map<string, string>,
    executable: string,
    init: Option<Info>)
  {
    predicate Valid() { KnownName(name) && defaultPort > 0 }

    function Kind(): string { MetricsKind(name) }

    /** The tags after the alias. */
    function ExtraTags(disableSSL: bool): seq<string> {
      [if disableSSL then "scheme_http" else "scheme_https"] +
      if cluster != "" then ["cluster_" + cluster] else []
    }

    function Registered(port: int, disableSSL: bool): Entry {
      Exporter(port, ExtraTags(disableSSL), data)
    }
  }

  /** filepath.Split: what follows the last slash. */
  function BaseName(path: string): string {
    if path == [] || path[|path| - 1] == '/' then []
    else BaseName(path[..|path| - 1]) + [path[|path| - 1]]
  }

  /** It is the whole path if that has no slash, and otherwise what has none behind it. */
  lemma {:induction false} FileOfPath(dir: string, file: string)
    requires '/' !in file
    ensures BaseName(file) == file && BaseName(dir + "/" + file) == file
  {
    if file == [] {
      assert (dir + "/" + file)[|dir|] == '/';
    } else {
      var n := |file| - 1;
      FileOfPath(dir, file[..n]);
      assert (dir + "/" + file)[..|dir| + 1 + n] == dir + "/" + file[..n];
      assert file[n] in file;
    }
  }

  // ---------- when adding succeeds, and how it stops ----------

  /** With --force, or for exporters that allow several, only the same alias is a duplicate. */
  function DuplicateName(m: Plugin, force: bool, alias: string): string {
    if m.multiple || force then alias else ""
  }

  predicate IsDuplicate(services: map<string, Service>, m: Plugin, force: bool, alias: string) {
    Monitored(services, m.Kind(), DuplicateName(m, force, alias))
  }

  /** Nothing stands against registering the exporter. */
  predicate MayRegister(w: World, config: Config, alias: string, requested: int, m: Plugin, force: bool) {
    var services := w.Services(config.clientName);
    && m.init.Some?
    && !IsDuplicate(services, m, force, alias)
    && GloballyUnique(w, config.clientName, config.clientAddress, m.Kind(), alias)
    && ChosenPort(services, requested, m.defaultPort).Some?
  }

  predicate CanAddMetrics(w: World, config: Config, alias: string, requested: int, m: Plugin, force: bool) {
    && MayRegister(w, config, alias, requested, m, force)
    && BaseName(m.executable) != ""
    && UnitName(m.Kind(), ChosenPort(w.Services(config.clientName), requested, m.defaultPort).value) !in w.units
  }

  function At<V>(m: map<string, V>, key: string): Option<V> {
    if key in m then Some(m[key]) else None
  }

  /** Every key still has its old value or has its new one already. */
  ghost predicate Between<V(!new)>(was: map<string, V>, now: map<string, V>, full: map<string, V>) {
    forall key :: At(now, key) == At(was, key) || At(now, key) == At(full, key)
  }

  lemma Untouched<V(!new)>(was: map<string, V>, full: map<string, V>)
    ensures Between(was, was, full)
  {
  }

  /** An addition that stopped part way: registered or untouched, some keys written, perhaps installed but stopped. */
  ghost predicate PartlyAdded(was: World, now: World, full: World, unit: string) {
    && now.instances == was.instances && now.files == was.files
    && (now == was ||
        (now.catalog == full.catalog && Between(was.kv, now.kv, full.kv) &&
         (now.units == was.units ||
          (unit !in was.units && now.units == was.units[unit := false] && now.kv == full.kv))))
  }

  // ---------- writing the keys ----------

  function Part(data: map<string, string>, rest: set<string>): map<string, string> {
    map s | s in data && s !in rest :: data[s]
  }

  lemma BelowStep(dir: string, data: map<string, string>, rest: set<string>, s: string)
    requires s in data && s in rest
    ensures Below(dir, Part(data, rest))[dir + s := data[s]] == Below(dir, Part(data, rest - {s}))
  {
    assert Part(data, rest)[s := data[s]] == Part(data, rest - {s});
    hide Part, Below;
    BelowInsert(dir, Part(data, rest), s, data[s]);
  }

  lemma PartBetween(kv: map<string, string>, dir: string, data: map<string, string>, rest: set<string>)
    ensures Between(kv, kv + Below(dir, Part(data, rest)), kv + Below(dir, data))
  {
    forall key
      ensures At(kv + Below(dir, Part(data, rest)), key) == At(kv, key) ||
              At(kv + Below(dir, Part(data, rest)), key) == At(kv + Below(dir, data), key)
    {
      BelowFacts(dir, Part(data, rest), key);
      BelowFacts(dir, data, key);
      hide Below;
    }
  }

  /** The Puts of AddMetrics, in whatever order the plugin's data comes. */
  method PutAll(a: Admin, dir: string, data: map<string, string>) returns (r: Outcome)
    modifies a`kv, a`faults
    ensures a.faults >= old(a.faults)
    ensures r.Ok? <==> a.faults == old(a.faults)
    ensures r.Ok? ==> a.kv == old(a.kv) + Below(dir, data)
    ensures Between(old(a.kv), a.kv, old(a.kv) + Below(dir, data))
    ensures r.Err? ==> r.error == Failed
  {
    hide Below;
    var rest := data.Keys;
    assert Part(data, rest) == map[];
    assert Below(dir, map[]) == map[] by { EmptyBelow(dir); }
    while rest != {}
      invariant rest <= data.Keys
      invariant a.faults == old(a.faults)
      invariant a.kv == old(a.kv) + Below(dir, Part(data, rest))
      decreases |rest|
    {
      var s :| s in rest;
      PartBetween(old(a.kv), dir, data, rest);
      var failed := a.Put(dir + s, data[s]);
      if failed { return Err(Failed); }
      BelowStep(dir, data, rest, s);
      rest := rest - {s};
    }
    assert Part(data, {}) == data;
    PartBetween(old(a.kv), dir, data, {});
    return Ok;
  }

  lemma EmptyBelow(dir: string)
    ensures Below(dir, map[]) == map[]
  {
  }

  // ---------- the commands ----------

  /** The stores after a complete addition. */
  function FullyAdded(w: World, config: Config, alias: string, m: Plugin, port: int, disableSSL: bool): World {
    AddedMetrics(w, config.clientName, config.clientAddress, Key(m.Kind(), alias), m.Registered(port, disableSSL))
  }

  lemma FullyAddedFor(w: World, was: Config, now: Config, alias: string, m: Plugin, port: int, disableSSL: bool)
    requires now.clientName == was.clientName && now.clientAddress == was.clientAddress
    ensures FullyAdded(w, was, alias, m, port, disableSSL) == FullyAdded(w, now, alias, m, port, disableSSL)
  {
  }

  /** The catalog says how the exporter can be reached, and of which cluster it is. */
  lemma TagsAsAsked(m: Plugin, alias: string, port: int, disableSSL: bool, cluster: string)
    ensures
      var tags := ExporterService(Key(m.Kind(), alias), m.Registered(port, disableSSL)).tags;
      && ("scheme_http" in tags <==> disableSSL)
      && ("scheme_https" in tags <==> !disableSSL)
      && ("cluster_" + cluster in tags <==> cluster != "" && cluster == m.cluster)
  {
    var tags := ExporterService(Key(m.Kind(), alias), m.Registered(port, disableSSL)).tags;
    assert tags[0][0] == 'a';
    assert tags[1] == if disableSSL then "scheme_http" else "scheme_https";
    assert |"scheme_http"| < |"scheme_https"|;
    assert |tags| == 3 ==> tags[2] == "cluster_" + m.cluster && tags[2][0] == 'c';
    assert ("cluster_" + cluster)[|"cluster_"|..] == cluster && ("cluster_" + m.cluster)[|"cluster_"|..] == m.cluster;
    assert ("cluster_" + cluster)[0] == 'c' && "scheme_http"[0] == "scheme_https"[0] == 's';
  }

  /** What an addition at the chosen port comes to, complete or not. */
  ghost predicate AddedAt(was: World, now: World, config: Config, alias: string, requested: int, m: Plugin,
                          disableSSL: bool, ok: bool)
    requires ChosenPort(was.Services(config.clientName), requested, m.defaultPort).Some?
  {
    var port := ChosenPort(was.Services(config.clientName), requested, m.defaultPort).value;
    var full := FullyAdded(was, config, alias, m, port, disableSSL);
    if ok then now == full else PartlyAdded(was, now, full, UnitName(m.Kind(), port))
  }

  lemma FullyAddedStores(w: World, config: Config, alias: string, m: Plugin, port: int, disableSSL: bool)
    ensures
      var full := FullyAdded(w, config, alias, m, port, disableSSL);
      var id := ServiceID(m.Kind(), port);
      var svc := ExporterService(Key(m.Kind(), alias), m.Registered(port, disableSSL));
      && full.catalog == WithService(w.catalog, config.clientName, config.clientAddress, id, svc)
      && full.kv == w.kv + Below(Dir(config.clientName, id), m.data)
      && full.units == w.units[UnitName(m.Kind(), port) := true]
      && full.instances == w.instances && full.files == w.files
  {
    hide ServiceID, UnitName, Below, Dir, ExporterService;
  }

  /** The local half of an addition: certificate, executable, service. */
  method Launch(a: Admin, m: Plugin, unit: string, disableSSL: bool) returns (r: Outcome)
    modifies a`units, a`faults
    ensures a.faults >= old(a.faults)
    ensures r.Ok? <==> a.faults == old(a.faults) && BaseName(m.executable) != "" && unit !in old(a.units)
    ensures r.Ok? ==> a.units == old(a.units)[unit := true]
    ensures r.Err? ==> a.units == old(a.units) || (unit !in old(a.units) && a.units == old(a.units)[unit := false])
  {
    hide BaseName;
    if !disableSSL {
      var failed := a.Call(); // checkSSLCertificate
      if failed { return Err(Failed); }
    }
    if BaseName(m.executable) == "" { return Err(Failed); }
    ghost var installed;
    r, installed := InstallService(a, unit);
  }

  /** The remote half: the catalog entry, then the keys. */
  method Publish(a: Admin, id: string, svc: Service, data: map<string, string>) returns (r: Outcome)
    modifies a`catalog, a`kv, a`faults
    ensures a.faults >= old(a.faults)
    ensures r.Ok? <==> a.faults == old(a.faults)
    ensures
      var registered := WithService(old(a.catalog), a.config.clientName, a.config.clientAddress, id, svc);
      a.catalog == registered || (r.Err? && a.catalog == old(a.catalog) && a.kv == old(a.kv))
    ensures
      var full := old(a.kv) + Below(Dir(a.config.clientName, id), data);
      Between(old(a.kv), a.kv, full) && (r.Ok? ==> a.kv == full)
  {
    hide Below, Dir, WithService;
    Untouched(a.kv, a.kv + Below(Dir(a.config.clientName, id), data));
    var failed := a.Register(a.config.clientName, a.config.clientAddress, id, svc);
    if failed { return Err(Failed); }
    r := PutAll(a, Dir(a.config.clientName, id), data);
  }

  /** AddMetrics once the port is chosen. */
  method Install(a: Admin, m: Plugin, info: Info, port: int, disableSSL: bool) returns (r: Result<Info>)
    modifies a`catalog, a`kv, a`units, a`faults
    ensures a.faults >= old(a.faults)
    ensures
      var can := BaseName(m.executable) != "" && UnitName(m.Kind(), port) !in old(a.units);
      r.Success? <==> a.faults == old(a.faults) && can
    ensures r == Success(info) || r == Failure(Failed)
    ensures
      var full := FullyAdded(old(a.State()), a.config, a.serviceName, m, port, disableSSL);
      if r.Success? then a.State() == full
      else PartlyAdded(old(a.State()), a.State(), full, UnitName(m.Kind(), port))
  {
    hide ServiceID, UnitName, Below, Dir, ExporterService, FullyAdded, BaseName, Between, WithService, At;
    FullyAddedStores(a.State(), a.config, a.serviceName, m, port, disableSSL);
    var id := ServiceID(m.Kind(), port);
    var svc := ExporterService(Key(m.Kind(), a.serviceName), m.Registered(port, disableSSL));
    var published := Publish(a, id, svc, m.data);
    if published.Err? { return Failure(Failed); }
    var launched := Launch(a, m, UnitName(m.Kind(), port), disableSSL);
    if launched.Err? { return Failure(Failed); }
    return Success(info);
  }

  method AddMetrics(a: Admin, m: Plugin, force: bool, disableSSL: bool) returns (r: Result<Info>)
    requires m.Valid()
    modifies a`catalog, a`kv, a`units, a`config, a`file, a`faults
    ensures a.faults >= old(a.faults)
    ensures
      var can := CanAddMetrics(old(a.State()), old(a.config), a.serviceName, a.servicePort, m, force);
      r.Success? <==> a.faults == old(a.faults) && can
    ensures r.Success? ==> Some(r.value) == m.init
    ensures if MayRegister(old(a.State()), old(a.config), a.serviceName, a.servicePort, m, force)
      then AddedAt(old(a.State()), a.State(), old(a.config), a.serviceName, a.servicePort, m, disableSSL, r.Success?)
      else r.Failure? && a.State() == old(a.State())
    ensures
      var duplicate := m.init.Some? && IsDuplicate(old(a.Services()), m, force, a.serviceName);
      r == Failure(Duplicate) <==> a.faults == old(a.faults) && duplicate
    ensures r == Failure(Duplicate) ==> a.State() == old(a.State())
    ensures
      var taken := NameTaken(old(a.State()), a.config.clientName, a.config.clientAddress);
      taken || TaggedSomewhere(old(a.State()), m.Kind(), a.serviceName) ==>
        r.Failure? && a.State() == old(a.State())
    ensures PasswordKept(NewPassword(m.init), old(a.config), old(a.file), a.config, a.file,
                         a.faults == old(a.faults), a.State() == old(a.State()))
    ensures FileKept(old(a.file), old(a.config), a.file)
  {
    hide UnitName, BaseName, MetricsKind, AliasTag, ChosenPort, GloballyUnique, FullyAdded, Between, KnownName, Matches;
    if m.init.None? { return Failure(Failed); }
    ghost var config := a.config;
    var info := m.init.value;
    if info.pmmUserPassword != "" {
      a.config := a.config.(mySQLPassword := info.pmmUserPassword);
      var failed := a.WriteConfig();
      if failed { return Failure(Failed); }
    }
    var kind := m.Kind();
    var found := GetConsulService(a, kind, DuplicateName(m, force, a.serviceName));
    if found.Failure? { return Failure(Failed); }
    if found.value.Some? { return Failure(Duplicate); }
    assert a.Services() == old(a.Services());
    var unique := CheckGlobalDuplicateService(a, kind, a.serviceName);
    if unique.Err? { return Failure(Failed); }
    var chosen := ChoosePort(a, a.servicePort, m.defaultPort);
    if chosen.Failure? { return Failure(Failed); }
    FullyAddedFor(a.State(), config, a.config, a.serviceName, m, chosen.value, disableSSL);
    r := Install(a, m, info, chosen.value, disableSSL);
  }

  // ---------- removal ----------

  /** A removal that stopped part way: deregistered or untouched, then the keys, then perhaps stopped. */
  ghost predicate PartlyRemoved(was: World, now: World, full: World, unit: string) {
    && now.instances == was.instances && now.files == was.files
    && (now == was ||
        (now.catalog == full.catalog && now.kv == was.kv && now.units == was.units) ||
        (now.catalog == full.catalog && now.kv == full.kv &&
         (now.units == was.units || (unit in was.units && now.units == was.units[unit := false]))))
  }

  /** What removing the service with this ID comes to. */
  ghost predicate RemoveOutcome(was: World, now: World, client: string, id: string, ok: bool, faultless: bool) {
    && id in was.Services(client)
    && var svc := was.Services(client)[id];
    var full := RemovedMetrics(was, client, id, svc.kind, svc.port);
    && (ok <==> faultless && UnitName(svc.kind, svc.port) in was.units)
    && if ok then now == full else PartlyRemoved(was, now, full, UnitName(svc.kind, svc.port))
  }

  /** Some service matches, and the removal was that of a matching one. */
  ghost predicate RemovedAMatch(was: World, now: World, client: string, kind: string, alias: string,
                                ok: bool, faultless: bool)
  {
    exists id | id in was.Services(client) && Matches(was.Services(client)[id], kind, alias) ::
      RemoveOutcome(was, now, client, id, ok, faultless)
  }

  lemma RemovedMetricsFields(w: World, client: string, id: string, kind: string, port: int)
    ensures var full := RemovedMetrics(w, client, id, kind, port);
      && full.catalog == WithoutService(w.catalog, client, id)
      && full.kv == DeleteTree(w.kv, Dir(client, id))
      && full.units == w.units - {UnitName(kind, port)}
      && full.instances == w.instances && full.files == w.files
  {
    hide Dir, UnitName, DeleteTree;
  }

  /** RemoveMetrics once the service is found. */
  method Unregister(a: Admin, id: string, svc: Service, unit: string) returns (r: Outcome)
    requires id in a.Services() && a.Services()[id] == svc && unit == UnitName(svc.kind, svc.port)
    modifies a`catalog, a`kv, a`units, a`faults
    ensures a.faults >= old(a.faults)
    ensures r.Ok? || r == Err(Failed)
    ensures r.Ok? <==> a.faults == old(a.faults) && unit in old(a.units)
    ensures
      var full := RemovedMetrics(old(a.State()), a.config.clientName, id, svc.kind, svc.port);
      if r.Ok? then a.State() == full else PartlyRemoved(old(a.State()), a.State(), full, unit)
  {
    hide Dir, UnitName, DeleteTree, RemovedMetrics, WithoutService;
    RemovedMetricsFields(a.State(), a.config.clientName, id, svc.kind, svc.port);
    var failed := a.Deregister(a.config.clientName, id);
    if failed { return Err(Failed); }
    failed := a.DeleteSubtree(Dir(a.config.clientName, id));
    if failed { return Err(Failed); }
    var gone;
    ghost var answered, stopped;
    gone, answered, stopped := UninstallService(a, unit);
    if gone.Err? { return Err(Failed); }
    return Ok;
  }

  method RemoveMetrics(a: Admin, name: string) returns (r: Outcome)
    requires KnownName(name)
    modifies a`catalog, a`kv, a`units, a`faults
    ensures a.faults >= old(a.faults)
    ensures
      var none := !Monitored(old(a.Services()), MetricsKind(name), a.serviceName);
      r == Err(NoService) <==> a.faults == old(a.faults) && none
    ensures if Monitored(old(a.Services()), MetricsKind(name), a.serviceName)
      then RemovedAMatch(old(a.State()), a.State(), a.config.clientName, MetricsKind(name), a.serviceName,
                         r.Ok?, a.faults == old(a.faults))
      else r.Err? && a.State() == old(a.State())
  {
    hide UnitName, RemovedMetrics, MetricsKind, KnownName, Matches, AliasTag;
    var kind := MetricsKind(name);
    var found := GetConsulService(a, kind, a.serviceName);
    if found.Failure? {
      if Monitored(a.Services(), kind, a.serviceName) {
        ghost var id :| id in a.Services() && Matches(a.Services()[id], kind, a.serviceName);
        assert RemoveOutcome(old(a.State()), a.State(), a.config.clientName, id, false, false);
      }
      return Err(Failed);
    }
    assert a.Services() == old(a.Services());
    if found.value.None? { return Err(NoService); }
    var f := found.value.value;
    MetricsUnit(name, f.svc, a.serviceName);
    r := Unregister(a, f.id, f.svc, "pmm-" + (name + "-" + ("metrics" + "-" + Itoa(f.svc.port))));
    assert RemoveOutcome(old(a.State()), a.State(), a.config.clientName, f.id, r.Ok?, a.faults == old(a.faults));
  }

  /** The local service that RemoveMetrics names is the one belonging to the catalog service. */
  lemma MetricsUnit(name: string, svc: Service, alias: string)
    requires KnownName(name) && Matches(svc, MetricsKind(name), alias)
    ensures "pmm-" + (name + "-" + ("metrics" + "-" + Itoa(svc.port))) == UnitName(svc.kind, svc.port)
  {
    hide UnitName;
    KnownMetrics(name);
    UnitNameOfParts(name, "metrics", svc.port);
  }
}
