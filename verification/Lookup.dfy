/** Finding services in the catalog, and ports that no service uses. */
module Lookup {
  import opened Stores
  import opened Transitions
  import opened Monitor

  // ---------- services ----------

  datatype Found = Found(id: string, svc: Service)

  predicate IsFound(services: map<string, Service>, f: Found, kind: string, name: string) {
    f.id in services && services[f.id] == f.svc && Matches(f.svc, kind, name)
  }

  predicate Monitored(services: map<string, Service>, kind: string, name: string) {
    exists id | id in services :: Matches(services[id], kind, name)
  }

  /** getConsulService: some service of the kind, with the alias if one is given. */
  method GetConsulService(a: Admin, kind: string, name: string) returns (r: Result<Option<Found>>)
    modifies a`faults
    ensures a.faults >= old(a.faults)
    ensures r.Success? <==> a.faults == old(a.faults)
    ensures r.Failure? ==> r.error == Failed
    ensures r.Success? && r.value.Some? ==> IsFound(a.Services(), r.value.value, kind, name)
    ensures r.Success? ==> (r.value.Some? <==> Monitored(a.Services(), kind, name))
  {
    var failed, node := a.ReadNode(a.config.clientName);
    if failed { return Failure(Failed); }
    if node.None? { return Success(None); }
    var services := node.value.services;
    var rest := services.Keys;
    while rest != {}
      invariant rest <= services.Keys
      invariant forall id | id in services && id !in rest :: !Matches(services[id], kind, name)
      decreases |rest|
    {
      var id :| id in rest;
      rest := rest - {id};
      var svc := services[id];
      if svc.kind != kind { continue; }
      if name == "" { return Success(Some(Found(id, svc))); }
      for i := 0 to |svc.tags|
        invariant AliasTag(name) !in svc.tags[..i]
      {
        if svc.tags[i] == AliasTag(name) { return Success(Some(Found(id, svc))); }
      }
      assert svc.tags == svc.tags[..|svc.tags|];
    }
    return Success(None);
  }

  /** No other node claims the client's name, and nobody monitors the kind under this alias. */
  predicate GloballyUnique(w: World, client: string, address: string, kind: string, name: string) {
    && (client in w.catalog && w.catalog[client].services != map[] ==> w.catalog[client].address == address)
    && !w.Offered(kind, AliasTag(name))
  }

  /** The client's name is in use from another address. */
  predicate NameTaken(w: World, client: string, address: string) {
    w.Services(client) != map[] && w.catalog[client].address != address
  }

  /** Some client, this one or another, has a service of the kind that is tagged with the alias. */
  predicate TaggedSomewhere(w: World, kind: string, name: string) {
    exists n, id | n in w.catalog && id in w.catalog[n].services ::
      w.catalog[n].services[id].kind == kind && "alias_" + name in w.catalog[n].services[id].tags
  }

  method CheckGlobalDuplicateService(a: Admin, kind: string, name: string) returns (r: Outcome)
    modifies a`faults
    ensures a.faults >= old(a.faults)
    ensures r.Ok? <==>
      && a.faults == old(a.faults) && !TaggedSomewhere(a.State(), kind, name)
      && !NameTaken(a.State(), a.config.clientName, a.config.clientAddress)
    ensures
      var unique := GloballyUnique(a.State(), a.config.clientName, a.config.clientAddress, kind, name);
      r.Ok? <==> a.faults == old(a.faults) && unique
    ensures r.Err? ==> r.error == Failed
  {
    var failed, node := a.ReadNode(a.config.clientName);
    if failed { return Err(Failed); }
    if node.Some? && node.value.address != a.config.clientAddress && |node.value.services| > 0 {
      return Err(Failed);
    }
    failed := a.Call(); // Catalog().Service
    if failed || a.State().Offered(kind, AliasTag(name)) { return Err(Failed); }
    return Ok;
  }

  // ---------- ports ----------

  predicate PortUsed(services: map<string, Service>, port: int) {
    exists id | id in services :: services[id].port == port
  }

  /** The first unused port among n ports. */
  function FirstFree(services: map<string, Service>, from: int, n: nat): (r: Option<int>)
    ensures r.Some? ==> from <= r.value < from + n && !PortUsed(services, r.value)
    ensures forall p | from <= p < if r.Some? then r.value else from + n :: PortUsed(services, p)
    decreases n
  {
    if n == 0 then None
    else if !PortUsed(services, from) then Some(from)
    else FirstFree(services, from + 1, n - 1)
  }

  /** The port a new exporter gets: the requested one if unused, else the first free of a thousand. */
  function ChosenPort(services: map<string, Service>, requested: int, default: int): Option<int> {
    if requested > 0
    then if PortUsed(services, requested) then None else Some(requested)
    else FirstFree(services, default, 1000)
  }

  method AvailablePort(a: Admin, port: int) returns (r: Result<bool>)
    modifies a`faults
    ensures a.faults >= old(a.faults)
    ensures r.Success? <==> a.faults == old(a.faults)
    ensures r.Failure? ==> r.error == Failed
    ensures r.Success? ==> (r.value <==> !PortUsed(a.Services(), port))
  {
    var failed, node := a.ReadNode(a.config.clientName);
    if failed { return Failure(Failed); }
    if node.Some? {
      var services := node.value.services;
      var rest := services.Keys;
      while rest != {}
        invariant rest <= services.Keys
        invariant forall id | id in services && id !in rest :: services[id].port != port
        decreases |rest|
      {
        var id :| id in rest;
        if port == services[id].port { return Success(false); }
        rest := rest - {id};
      }
    }
    return Success(true);
  }

  lemma FirstFreeStep(services: map<string, Service>, from: int, n: nat)
    ensures FirstFree(services, from, n) ==
      if n == 0 then None else if !PortUsed(services, from) then Some(from) else FirstFree(services, from + 1, n - 1)
  {
  }

  method ChoosePort(a: Admin, port: int, default: int) returns (r: Result<int>)
    modifies a`faults
    ensures a.faults >= old(a.faults)
    ensures r.Success? ==> ChosenPort(a.Services(), port, default) == Some(r.value)
    ensures r.Success? <==> a.faults == old(a.faults) && ChosenPort(a.Services(), port, default).Some?
    ensures r.Failure? ==> r.error == Failed
  {
    hide FirstFree, PortUsed;
    if port > 0 {
      var ok := AvailablePort(a, port);
      if ok.Failure? { return Failure(Failed); }
      if ok.value { return Success(port); }
      return Failure(Failed);
    }
    var i := default;
    while i < default + 1000
      invariant default <= i <= default + 1000
      invariant a.faults == old(a.faults)
      invariant FirstFree(a.Services(), default, 1000) == FirstFree(a.Services(), i, default + 1000 - i)
    {
      FirstFreeStep(a.Services(), i, default + 1000 - i);
      var ok := AvailablePort(a, i);
      if ok.Failure? { return Failure(Failed); }
      if ok.value { return Success(i); }
      i := i + 1;
    }
    FirstFreeStep(a.Services(), i, 0);
    return Failure(Failed);
  }

  /** The ports in use, from which the pigeonhole argument counts. */
  function UsedPorts(services: map<string, Service>): set<int> {
    set id | id in services :: services[id].port
  }

  lemma {:induction false} FewPorts(services: map<string, Service>)
    ensures |UsedPorts(services)| <= |services|
    decreases |services|
  {
    if services != map[] {
      var id :| id in services;
      var rest := services - {id};
      FewPorts(rest);
      forall p | p in UsedPorts(services)
        ensures p in UsedPorts(rest) + {services[id].port}
      {
        var id' :| id' in services && services[id'].port == p;
        assert id' == id || id' in rest;
      }
      SubsetSize(UsedPorts(services), UsedPorts(rest) + {services[id].port});
    }
  }

  function Range(from: int, n: nat): (r: set<int>)
    ensures |r| == n && forall p :: p in r <==> from <= p < from + n
  {
    if n == 0 then {} else Range(from, n - 1) + {from + n - 1}
  }

  lemma SubsetSize<T>(a: set<T>, b: set<T>)
    requires a <= b
    ensures |a| <= |b|
  {
    assert b == a + (b - a);
  }

  /** Without a requested port the search cannot fail on a node with fewer than a thousand services. */
  lemma PortExists(services: map<string, Service>, requested: int, default: int)
    requires requested <= 0 && |services| < 1000
    ensures ChosenPort(services, requested, default).Some?
  {
    if FirstFree(services, default, 1000).None? {
      FewPorts(services);
      forall p | p in Range(default, 1000)
        ensures p in UsedPorts(services)
      {
        assert PortUsed(services, p);
      }
      SubsetSize(Range(default, 1000), UsedPorts(services));
    }
  }

  /** What is chosen is unused; a requested port is taken as it is, otherwise everything below is in use. */
  lemma ChosenPortIsLeast(services: map<string, Service>, requested: int, default: int)
    ensures ChosenPort(services, requested, default).None? <==>
      if requested > 0 then PortUsed(services, requested)
      else forall p | default <= p < default + 1000 :: PortUsed(services, p)
    ensures ChosenPort(services, requested, default).Some? ==>
      var p := ChosenPort(services, requested, default).value;
      !PortUsed(services, p) &&
      if requested > 0 then p == requested
      else default <= p < default + 1000 && forall q | default <= q < p :: PortUsed(services, q)
  {
  }
}
