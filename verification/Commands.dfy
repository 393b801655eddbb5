/** The commands as they are invoked: behind the gate, one by one, and several in one invocation. */
module Commands {
  import opened Stores
  import opened Registry
  import opened Transitions
  import opened Monitor
  import opened Lookup
  import opened Metrics
  import opened Qan
  import opened Queries
  import opened Refinement
  import opened Runs
  import opened Repair
  import opened Failures
  import opened Admission
  import opened Sweeps
  import DataSources
  import GatedRuns
  import Recovery
  import RemoveAll
  import Reuse

  /** The parts of the configuration that the registry commands read. */
  predicate SameClient(was: Config, now: Config) {
    now == was.(mySQLPassword := now.mySQLPassword)
  }

  /** There is nothing to do: what is to be added is there, what is to be removed is not. */
  predicate Settled(c: Command, services: map<string, Service>) {
    match c
    case AddExporter(m, alias, _, force, _) => IsDuplicate(services, m, force, alias)
    case AddSource(q, alias) => Monitored(services, q.Kind(), alias)
    case RemoveExporter(name, alias) => !Monitored(services, MetricsKind(name), alias)
    case RemoveSource(name, alias) => !Monitored(services, QueriesKind(name), alias)
  }

  /** The password that a command's plugin has made up, if any. */
  function PasswordOf(c: Command): string {
    match c
    case AddExporter(m, _, _, _, _) => NewPassword(m.init)
    case AddSource(q, _) => NewPassword(q.init)
    case RemoveExporter(_, _) => ""
    case RemoveSource(_, _) => ""
  }

  lemma AddedMeansFaultless(was: World, now: World, client: string, address: string, parent: string, alias: string,
                            q: Source, dsn: string, faultless: bool)
    requires AddedSomehow(was, now, client, address, parent, alias, q, dsn, true, faultless)
    ensures faultless
  {
    hide FullyAddedSource, UnitName, UnitReady, IsBase, InstanceStage;
  }

  method ExecuteAddExporter(a: Admin, c: Command, ghost reg: Registry) returns (ok: bool, known: bool)
    requires c.Valid() && c.AddExporter?
    modifies a`serviceName, a`servicePort, a`catalog, a`kv, a`units, a`config, a`file, a`faults
    ensures a.faults >= old(a.faults) && SameClient(old(a.config), a.config)
    ensures FileKept(old(a.file), old(a.config), a.file)
    ensures Attempts(c, old(a.State()), a.State(), old(a.config), a.agentParent)
    ensures PasswordKept(PasswordOf(c), old(a.config), old(a.file), a.config, a.file, a.faults == old(a.faults),
                         a.State() == old(a.State()))
    ensures ok ==> a.faults == old(a.faults) && c.Performs(old(a.State()), a.State(), old(a.config), a.agentParent)
    ensures known ==> !ok && a.State() == old(a.State()) && Settled(c, old(a.Services()))
    ensures a.server == Current ==> Reuse.NoSecond(c, old(a.State()), a.State(), a.agentParent)
    ensures old(Represents(a.State(), a.config.clientName, a.agentParent, reg)) ==>
      && (ok <==> a.faults == old(a.faults) && Allows(c, reg, old(a.State()), old(a.config)))
      && (known <==> a.faults == old(a.faults) && Initialised(c) && Known(c, reg))
  {
    hide BaseName, GloballyUnique, FullyAdded, PartlyAdded, ChosenPort, MetricsKind, UnitName, IsDuplicate,
      Plugin.Valid, ServiceName, Represents, Undisputed, PortLeft, Known, TaggedSomewhere, NameTaken;
    ghost var was, config := a.State(), a.config;
    a.serviceName, a.servicePort := c.alias, c.requested;
    var r := AddMetrics(a, c.m, c.force, c.disableSSL);
    ok, known := r.Success?, r == Failure(Duplicate);
    if Represents(was, config.clientName, a.agentParent, reg) {
      AddExporterAllowed(c, was, config, a.agentParent, reg);
    }
  }

  method ExecuteRemoveExporter(a: Admin, c: Command, ghost reg: Registry) returns (ok: bool, known: bool)
    requires c.Valid() && c.RemoveExporter?
    modifies a`serviceName, a`catalog, a`kv, a`units, a`faults
    ensures a.faults >= old(a.faults)
    ensures Attempts(c, old(a.State()), a.State(), old(a.config), a.agentParent)
    ensures ok ==> a.faults == old(a.faults) && c.Performs(old(a.State()), a.State(), old(a.config), a.agentParent)
    ensures Tries(c, old(a.State()), a.State(), old(a.config), a.faults == old(a.faults))
    ensures known ==> !ok && a.State() == old(a.State()) && Settled(c, old(a.Services()))
    ensures a.server == Current ==> Reuse.NoSecond(c, old(a.State()), a.State(), a.agentParent)
    ensures old(Represents(a.State(), a.config.clientName, a.agentParent, reg)) ==>
      && (ok <==> a.faults == old(a.faults) && Allows(c, reg, old(a.State()), old(a.config)))
      && (known <==> a.faults == old(a.faults) && Initialised(c) && Known(c, reg))
  {
    hide RemovedAMatch, MetricsKind, Matches, KnownName, ServiceName, Represents, HasNamed, Monitored;
    ghost var was, client := a.State(), a.config.clientName;
    a.serviceName := c.alias;
    var r := RemoveMetrics(a, c.name);
    ok, known := r.Ok?, r == Err(NoService);
    if ok {
      RemovedMeansFaultless(was, a.State(), client, MetricsKind(c.name), c.alias, a.faults == old(a.faults));
    }
    if Represents(was, client, a.agentParent, reg) {
      RemoveMetricsRefines(was, a.State(), client, a.agentParent, reg, c.name, c.alias, ok, a.faults == old(a.faults));
    }
  }

  method ExecuteAddSource(a: Admin, c: Command, ghost reg: Registry) returns (ok: bool, known: bool)
    requires c.Valid() && c.AddSource?
    modifies a`serviceName, a`catalog, a`kv, a`units, a`instances, a`files, a`config, a`file, a`faults
    ensures a.faults >= old(a.faults) && SameClient(old(a.config), a.config)
    ensures FileKept(old(a.file), old(a.config), a.file)
    ensures Attempts(c, old(a.State()), a.State(), old(a.config), a.agentParent)
    ensures PasswordKept(PasswordOf(c), old(a.config), old(a.file), a.config, a.file, a.faults == old(a.faults),
                         a.State() == old(a.State()))
    ensures ok ==> a.faults == old(a.faults) && c.Performs(old(a.State()), a.State(), old(a.config), a.agentParent)
    ensures known ==> !ok && a.State() == old(a.State()) && Settled(c, old(a.Services()))
    ensures a.server == Current ==> Reuse.NoSecond(c, old(a.State()), a.State(), a.agentParent)
    ensures old(Represents(a.State(), a.config.clientName, a.agentParent, reg)) ==>
      && (ok <==> a.faults == old(a.faults) && Allows(c, reg, old(a.State()), old(a.config)))
      && (known <==> a.faults == old(a.faults) && Initialised(c) && Known(c, reg))
  {
    hide AddedSomehow, QueriesKind, Source.Valid, ServiceName, GloballyUnique, Represents, Undisputed, Known, Monitored,
      TaggedSomewhere, NameTaken, HasIdentity;
    ghost var was, config := a.State(), a.config;
    a.serviceName := c.alias;
    var r := AddQueries(a, c.q);
    ok, known := r.Success?, r == Failure(Duplicate);
    if ok {
      AddedMeansFaultless(was, a.State(), config.clientName, config.clientAddress, a.agentParent, c.alias, c.q,
                          c.q.init.value.dsn, a.faults == old(a.faults));
    }
    if Represents(was, config.clientName, a.agentParent, reg) {
      AddSourceAllowed(c, was, config, a.agentParent, reg);
      if CanAddQueries(was, config.clientName, config.clientAddress, c.alias, c.q) {
        AddQueriesRefines(was, a.State(), config.clientName, config.clientAddress, a.agentParent, reg, c.alias, c.q,
                          c.q.init.value.dsn, ok, a.faults == old(a.faults));
      }
    }
  }

  method ExecuteRemoveSource(a: Admin, c: Command, ghost reg: Registry) returns (ok: bool, known: bool)
    requires c.Valid() && c.RemoveSource?
    modifies a`serviceName, a`catalog, a`kv, a`units, a`instances, a`faults
    ensures a.faults >= old(a.faults)
    ensures Attempts(c, old(a.State()), a.State(), old(a.config), a.agentParent)
    ensures ok ==> a.faults == old(a.faults) && c.Performs(old(a.State()), a.State(), old(a.config), a.agentParent)
    ensures Tries(c, old(a.State()), a.State(), old(a.config), a.faults == old(a.faults))
    ensures known ==> !ok && a.State() == old(a.State()) && Settled(c, old(a.Services()))
    ensures a.server == Current ==> Reuse.NoSecond(c, old(a.State()), a.State(), a.agentParent)
    ensures old(Represents(a.State(), a.config.clientName, a.agentParent, reg)) ==>
      && (ok <==> a.faults == old(a.faults) && Allows(c, reg, old(a.State()), old(a.config)))
      && (known <==> a.faults == old(a.faults) && Initialised(c) && Known(c, reg))
  {
    hide RemovedASource, QueriesKind, Matches, KnownName, ServiceName, Represents, HasNamed, Monitored;
    ghost var was, config := a.State(), a.config;
    a.serviceName := c.alias;
    var r := RemoveQueries(a, c.name);
    ok, known := r.Ok?, r == Err(NoService);
    if ok {
      WithdrawnMeansFaultless(was, a.State(), config.clientName, config.clientAddress, QueriesKind(c.name), c.alias,
                              c.name, a.faults == old(a.faults));
    }
    if Represents(was, config.clientName, a.agentParent, reg) {
      RemoveQueriesRefines(was, a.State(), config.clientName, config.clientAddress, a.agentParent, reg, c.name, c.alias,
                           ok, a.faults == old(a.faults));
    }
  }

  /** One registry command, with the service name and port given on the command line. */
  method Execute(a: Admin, c: Command, ghost reg: Registry) returns (ok: bool, known: bool)
    requires c.Valid()
    modifies a`serviceName, a`servicePort, a`catalog, a`kv, a`units, a`instances, a`files, a`config, a`file, a`faults
    ensures a.faults >= old(a.faults) && SameClient(old(a.config), a.config)
    ensures FileKept(old(a.file), old(a.config), a.file)
    ensures Attempts(c, old(a.State()), a.State(), old(a.config), a.agentParent)
    ensures PasswordKept(PasswordOf(c), old(a.config), old(a.file), a.config, a.file, a.faults == old(a.faults),
                         a.State() == old(a.State()))
    ensures ok ==> a.faults == old(a.faults) && c.Performs(old(a.State()), a.State(), old(a.config), a.agentParent)
    ensures !c.Adds() ==> Tries(c, old(a.State()), a.State(), old(a.config), a.faults == old(a.faults))
    ensures known ==> !ok && a.State() == old(a.State()) && Settled(c, old(a.Services()))
    ensures a.server == Current ==> Reuse.NoSecond(c, old(a.State()), a.State(), a.agentParent)
    ensures old(Represents(a.State(), a.config.clientName, a.agentParent, reg)) ==>
      && (ok <==> a.faults == old(a.faults) && Allows(c, reg, old(a.State()), old(a.config)))
      && (known <==> a.faults == old(a.faults) && Initialised(c) && Known(c, reg))
  {
    hide Attempts, Command.Performs, Command.Valid, Represents, Allows, Known, Reuse.NoSecond, Tries;
    if c.AddExporter? {
      ok, known := ExecuteAddExporter(a, c, reg);
    } else if c.RemoveExporter? {
      ok, known := ExecuteRemoveExporter(a, c, reg);
    } else if c.AddSource? {
      ok, known := ExecuteAddSource(a, c, reg);
    } else {
      ok, known := ExecuteRemoveSource(a, c, reg);
    }
  }

  // ---------- one invocation ----------

  /** pmm-admin with one command: the check first, and then the command unless something disagrees. */
  method Invoke(a: Admin, c: Command, ghost reg: Registry) returns (open: bool, ok: bool, ghost readable: bool)
    requires c.Valid()
    modifies a`serviceName, a`servicePort, a`catalog, a`kv, a`units, a`instances, a`files, a`config, a`file, a`faults
    ensures SameClient(old(a.config), a.config) && old(a.faults) <= a.faults && (a.faults == old(a.faults) ==> readable)
    ensures FileKept(old(a.file), old(a.config), a.file)
    ensures Invocation(old(a.State()), a.State(), 1, readable, old(a.config), a.agentParent)
    ensures
      var agrees := Disagreement(old(a.State()), old(a.config).clientName) == {};
      var pass := if readable then agrees else old(a.units) == map[];
      (open <==> pass) && (!open ==> !ok && a.State() == old(a.State()))
    ensures Attempts(c, old(a.State()), a.State(), old(a.config), a.agentParent)
    ensures open && readable ==>
      GatedRuns.Happens(GatedRuns.Tried(c), old(a.State()), a.State(), old(a.config), a.agentParent)
    ensures ok ==> c.Performs(old(a.State()), a.State(), old(a.config), a.agentParent)
    ensures a.server == Current ==> Reuse.NoSecond(c, old(a.State()), a.State(), a.agentParent)
    ensures open && readable ==>
      PasswordKept(PasswordOf(c), old(a.config), old(a.file), a.config, a.file, a.faults == old(a.faults),
                   a.State() == old(a.State()))
    ensures old(Represents(a.State(), a.config.clientName, a.agentParent, reg)) && a.faults == old(a.faults) ==>
      (ok <==> Allows(c, reg, old(a.State()), old(a.config)))
  {
    hide Attempts, Disagreement, Command.Valid, Command.Performs, PartlyRepaired, Repaired, Settled, Represents, Allows,
      Known, PasswordKept;
    ok := false;
    Unattempted(c, a.State(), a.config, a.agentParent);
    if Represents(a.State(), a.config.clientName, a.agentParent, reg) {
      Agreed(a.State(), a.config.clientName, a.agentParent, reg);
    }
    open := Gate(a);
    readable := a.faults == old(a.faults);
    if !open { return; }
    ghost var was, config := a.State(), a.config;
    var known;
    ok, known := Execute(a, c, reg);
    OneMoreInChain(was, was, a.State(), 0, c, config, a.agentParent);
  }

  lemma Unattempted(c: Command, w: World, config: Config, parent: string)
    ensures Attempts(c, w, w, config, parent)
  {
  }

  /** pmm-admin repair, which is not behind the check. */
  method InvokeRepair(a: Admin) returns (r: Outcome, ghost readable: bool)
    modifies a`catalog, a`kv, a`units, a`instances, a`faults
    ensures a.faults == old(a.faults) ==> readable && r.Ok?
    ensures Invocation(old(a.State()), a.State(), 0, readable, a.config, a.agentParent)
    ensures readable ==> GatedRuns.Happens(GatedRuns.Mended, old(a.State()), a.State(), a.config, a.agentParent)
    ensures a.faults == old(a.faults) ==> FullyRepaired(old(a.State()), a.State(), a.config.clientName)
  {
    hide Disagreement, PartlyRepaired, Repaired, FullyRepaired, Chain;
    r, readable := RepairInstallation(a);
  }

  /**
   * Invocations that all succeed are a run: each is its command's effect on the registry. Without failures they stop
   * only at a command that the registry does not allow.
   */
  method Session(a: Admin, commands: seq<Command>, ghost reg: Registry)
    returns (done: nat, ghost regs: seq<Registry>, ghost states: seq<World>)
    requires forall i | 0 <= i < |commands| :: commands[i].Valid()
    modifies a`serviceName, a`servicePort, a`catalog, a`kv, a`units, a`instances, a`files, a`config, a`file, a`faults
    ensures done <= |commands| && SameClient(old(a.config), a.config)
    ensures FileKept(old(a.file), old(a.config), a.file)
    ensures old(Represents(a.State(), a.config.clientName, a.agentParent, reg)) ==>
      && |regs| == done + 1 && regs[0] == reg
      && |states| == done + 1 && states[0] == old(a.State())
      && Run(states, commands[..done], old(a.config), a.agentParent)
      && (forall i | 0 <= i < done :: commands[i].Effect(regs[i], regs[i + 1]))
      && (done < |commands| && a.faults == old(a.faults) ==>
            !Allows(commands[done], regs[done], states[done], old(a.config)))
      && |Disagreement(a.State(), a.config.clientName)| <= 1
      && (done == |commands| ==>
            && a.State() == states[done]
            && Represents(a.State(), a.config.clientName, a.agentParent, regs[done])
            && (old(FilesAgree(a.State(), reg)) ==> FilesAgree(a.State(), regs[done])))
  {
    hide Attempts, Disagreement, Command.Valid, Command.Performs, Represents, Command.Effect, Invocation, FilesAgree,
      Allows, PasswordKept, GatedRuns.Happens, Reuse.NoSecond, Run;
    regs, done, states := [reg], 0, [a.State()];
    EmptyRun(a.State(), a.config, a.agentParent);
    assert commands[..0] == [];
    ghost var sound := Represents(a.State(), a.config.clientName, a.agentParent, reg);
    ghost var filed := FilesAgree(a.State(), reg);
    if sound {
      Agreed(a.State(), a.config.clientName, a.agentParent, reg);
    }
    while done < |commands|
      invariant done <= |commands| && SameClient(old(a.config), a.config) && a.faults >= old(a.faults)
      invariant FileKept(old(a.file), old(a.config), a.file)
      invariant |regs| == done + 1 && regs[0] == reg
      invariant |states| == done + 1 && states[0] == old(a.State()) && states[done] == a.State()
      invariant Run(states, commands[..done], old(a.config), a.agentParent)
      invariant sound ==> Represents(a.State(), a.config.clientName, a.agentParent, regs[done])
      invariant sound && filed ==> FilesAgree(a.State(), regs[done])
      invariant sound ==> forall i | 0 <= i < done :: commands[i].Effect(regs[i], regs[i + 1])
      invariant sound ==> |Disagreement(a.State(), a.config.clientName)| <= 1
    {
      ghost var was, config := a.State(), a.config;
      var open, ok;
      ghost var readable;
      open, ok, readable := Invoke(a, commands[done], regs[done]);
      if sound {
        SameAllows(commands[done], regs[done], was, config, old(a.config));
        Agreed(was, config.clientName, a.agentParent, regs[done]);
        AttemptGrowsByOne(commands[done], was, a.State(), config, a.agentParent);
      }
      if !ok { return; }
      ghost var next := regs[done];
      if sound {
        next := StepRefines(commands[done], was, a.State(), config, a.agentParent, regs[done]);
        if filed {
          DataSources.StepKeepsFiles(commands[done], was, a.State(), config, a.agentParent, regs[done], next);
        }
      }
      LongerRun(states, commands, done, a.State(), config, old(a.config), a.agentParent);
      regs, states, done := regs + [next], states + [a.State()], done + 1;
    }
  }

  lemma EmptyRun(w: World, config: Config, parent: string)
    ensures Run([w], [], config, parent)
  {
  }

  /** A generated password plays no part in what a command does. */
  lemma SamePerforms(c: Command, was: World, now: World, c1: Config, c2: Config, parent: string)
    requires SameClient(c1, c2) && c.Performs(was, now, c1, parent)
    ensures c.Performs(was, now, c2, parent)
  {
    hide RemovedAMatch, AddedSomehow, RemovedASource, UnitName, ChosenPort, CanAddQueries, FullyAdded, GloballyUnique,
      IsDuplicate, BaseName;
    if c.AddExporter? {
      var port := ChosenPort(was.Services(c1.clientName), c.requested, c.m.defaultPort).value;
      FullyAddedFor(was, c1, c2, c.alias, c.m, port, c.disableSSL);
    }
  }

  lemma SameAllows(c: Command, reg: Registry, w: World, c1: Config, c2: Config)
    requires SameClient(c1, c2)
    ensures Allows(c, reg, w, c1) == Allows(c, reg, w, c2)
  {
    hide Known, PortLeft, BaseName, Claims, NameTaken;
  }

  lemma LongerRun(states: seq<World>, commands: seq<Command>, n: nat, now: World, config: Config, config': Config,
                  parent: string)
    requires n < |commands| && Run(states, commands[..n], config', parent) && SameClient(config, config')
    requires commands[n].Valid() && commands[n].Performs(states[n], now, config, parent)
    ensures Run(states + [now], commands[..n + 1], config', parent)
  {
    hide Command.Valid, Command.Performs;
    SamePerforms(commands[n], states[n], now, config, config', parent);
  }

  lemma Agreed(w: World, client: string, parent: string, reg: Registry)
    requires Represents(w, client, parent, reg)
    ensures Disagreement(w, client) == {} && |Disagreement(w, client)| == 0 && WellNamed(w.Services(client))
  {
    hide Represents, Disagreement, WellNamed, CatalogAgrees, ValidRegistry;
    Recovery.RepresentedAgrees(w, client, parent, reg);
    Parts(w, client, parent, reg);
    AgreedIsWellNamed(w.Services(client), reg);
  }

  // ---------- several commands in one invocation ----------

  /** There is nothing in the way of an addition: what it adds is there already, or it is allowed. */
  ghost predicate Passes(c: Command, reg: Registry, w: World, config: Config) {
    Initialised(c) && (Known(c, reg) || Allows(c, reg, w, config))
  }

  lemma KnownStays(c: Command, reg: Registry, reg': Registry)
    requires c.Adds() && Known(c, reg) && reg.Keys <= reg'.Keys
    ensures Known(c, reg')
  {
    if c.AddExporter? && !(c.m.multiple || c.force) {
      var k :| k in reg && k.kind == c.m.Kind();
      assert k in reg'.Keys;
    }
  }

  lemma AddedIsKnown(c: Command, reg: Registry, reg': Registry)
    requires c.Effect(reg, reg') && c.Adds()
    ensures Known(c, reg') && reg'.Keys == reg.Keys + {c.Target()}
  {
    hide MetricsKind, QueriesKind, Sanitize.SanitizeDSN, Plugin.Registered;
    assert reg' == reg[c.Target() := reg'[c.Target()]];
  }

  /** One addition of several: what is there already is passed over. */
  ghost predicate OneAdded(c: Command, was: World, now: World, reg: Registry, reg': Registry, config: Config,
                           parent: string)
  {
    if Known(c, reg) then now == was && reg' == reg else c.Performs(was, now, config, parent) && c.Effect(reg, reg')
  }

  method AddNext(a: Admin, c: Command, ghost was: World, ghost n: nat, ghost reg: Registry)
    returns (goOn: bool, ghost reg': Registry)
    requires c.Valid() && c.Adds()
    modifies a`serviceName, a`servicePort, a`catalog, a`kv, a`units, a`instances, a`files, a`config, a`file, a`faults
    ensures a.faults >= old(a.faults)
    ensures SameClient(old(a.config), a.config) && FileKept(old(a.file), old(a.config), a.file)
    ensures Chain(was, old(a.State()), n, old(a.config), a.agentParent) ==>
      Chain(was, a.State(), n + 1, old(a.config), a.agentParent)
    ensures old(Represents(a.State(), a.config.clientName, a.agentParent, reg)) ==>
      && |Disagreement(a.State(), a.config.clientName)| <= 1
      && (goOn ==> Represents(a.State(), a.config.clientName, a.agentParent, reg') && Known(c, reg') &&
                   reg.Keys <= reg'.Keys <= reg.Keys + {c.Target()} &&
                   OneAdded(c, old(a.State()), a.State(), reg, reg', old(a.config), a.agentParent))
      && (a.faults == old(a.faults) ==> (goOn <==> Passes(c, reg, old(a.State()), old(a.config))))
  {
    hide Attempts, Disagreement, Command.Valid, Command.Performs, Represents, Command.Effect, Command.Target, Chain,
      Settled, Known, Allows, PasswordKept, Reuse.NoSecond;
    reg' := reg;
    ghost var before, config := a.State(), a.config;
    var done, known := Execute(a, c, reg);
    goOn := done || known;
    if Chain(was, before, n, config, a.agentParent) {
      OneMoreInChain(was, before, a.State(), n, c, config, a.agentParent);
    }
    if Represents(before, config.clientName, a.agentParent, reg) {
      Agreed(before, config.clientName, a.agentParent, reg);
      AttemptGrowsByOne(c, before, a.State(), config, a.agentParent);
      if done {
        NotKnown(c, reg, before, config);
        reg' := StepRefines(c, before, a.State(), config, a.agentParent, reg);
        AddedIsKnown(c, reg, reg');
      }
    }
  }

  lemma NotKnown(c: Command, reg: Registry, w: World, config: Config)
    ensures Allows(c, reg, w, config) ==> Initialised(c) && !Known(c, reg)
  {
    hide Known;
  }

  /** Additions one after the other. */
  ghost predicate AddedInTurn(cs: seq<Command>, states: seq<World>, regs: seq<Registry>, config: Config,
                              parent: string) {
    && 1 <= |states| == |regs| <= |cs| + 1
    && forall i | 0 <= i < |states| - 1 ::
         OneAdded(cs[i], states[i], states[i + 1], regs[i], regs[i + 1], config, parent)
  }

  lemma AddedOneMore(cs: seq<Command>, states: seq<World>, regs: seq<Registry>, now: World, reg: Registry,
                     config: Config, config': Config, parent: string)
    requires AddedInTurn(cs, states, regs, config', parent) && |states| <= |cs| && SameClient(config, config')
    requires
      var n := |states| - 1;
      OneAdded(cs[n], states[n], now, regs[n], reg, config, parent)
    ensures AddedInTurn(cs, states + [now], regs + [reg], config', parent)
  {
    hide Known, Command.Performs, Command.Effect;
    var n := |states| - 1;
    if !Known(cs[n], regs[n]) {
      SamePerforms(cs[n], states[n], now, config, config', parent);
    }
  }

  /** The first n additions are made: what they add is known by now. */
  ghost predicate AddedSoFar(cs: seq<Command>, n: nat, origin: World, now: World, reg: Registry, states: seq<World>,
                             regs: seq<Registry>, config: Config, parent: string)
  {
    && n <= |cs| && |states| == |regs| == n + 1 && states[0] == origin && states[n] == now && regs[0] == reg
    && AddedInTurn(cs, states, regs, config, parent)
    && Represents(now, config.clientName, parent, regs[n]) && reg.Keys <= regs[n].Keys
    && forall i | 0 <= i < n :: Known(cs[i], regs[n])
  }

  lemma NoneAdded(cs: seq<Command>, w: World, reg: Registry, config: Config, parent: string)
    requires Represents(w, config.clientName, parent, reg)
    ensures AddedSoFar(cs, 0, w, w, reg, [w], [reg], config, parent)
  {
    hide Represents, Known;
  }

  lemma AddedMore(cs: seq<Command>, n: nat, origin: World, now: World, reg: Registry, states: seq<World>,
                  regs: seq<Registry>, reg': Registry, config: Config, config': Config, parent: string)
    requires n < |cs| && |states| == |regs| == n + 1 && (forall c | c in cs :: c.Adds())
    requires AddedSoFar(cs, n, origin, states[n], reg, states, regs, config', parent) && SameClient(config, config')
    requires OneAdded(cs[n], states[n], now, regs[n], reg', config, parent)
    requires Represents(now, config.clientName, parent, reg') && Known(cs[n], reg') && regs[n].Keys <= reg'.Keys
    ensures AddedSoFar(cs, n + 1, origin, now, reg, states + [now], regs + [reg'], config', parent)
  {
    hide Represents, Known, OneAdded;
    AddedOneMore(cs, states, regs, now, reg', config, config', parent);
    forall i | 0 <= i < n
      ensures Known(cs[i], reg')
    {
      assert cs[i] in cs;
      KnownStays(cs[i], regs[n], reg');
    }
  }

  lemma SamePasses(c: Command, reg: Registry, w: World, c1: Config, c2: Config)
    requires SameClient(c1, c2)
    ensures Passes(c, reg, w, c1) == Passes(c, reg, w, c2)
  {
    hide Allows, Known;
    SameAllows(c, reg, w, c1, c2);
  }

  /** The password that a chain's commands may change is not among what they read. */
  lemma SameChain(was: World, now: World, n: nat, c1: Config, c2: Config, parent: string)
    requires SameClient(c1, c2)
    ensures Chain(was, now, n, c1, parent) ==> Chain(was, now, n, c2, parent)
    decreases n
  {
    hide Attempts, Command.Valid;
    if Chain(was, now, n, c1, parent) && now != was {
      var mid, c: Command :| c.Valid() && Chain(was, mid, n - 1, c1, parent) && Attempts(c, mid, now, c1, parent);
      SameChain(was, mid, n - 1, c1, c2, parent);
      SameAttempts(c, mid, now, c1, c2, parent);
    }
  }

  lemma SameAttempts(c: Command, was: World, now: World, c1: Config, c2: Config, parent: string)
    requires SameClient(c1, c2) && Attempts(c, was, now, c1, parent)
    ensures Attempts(c, was, now, c2, parent)
  {
    hide PartlyAdded, RemovedAMatch, AddedSomehow, RemovedASource, UnitName, ChosenPort, CanAddQueries, FullyAdded,
      GloballyUnique, IsDuplicate;
    if c.AddExporter? && now != was {
      var ok :| AddedAt(was, now, c1, c.alias, c.requested, c.m, c.disableSSL, ok);
      var port := ChosenPort(was.Services(c1.clientName), c.requested, c.m.defaultPort).value;
      FullyAddedFor(was, c1, c2, c.alias, c.m, port, c.disableSSL);
      assert AddedAt(was, now, c2, c.alias, c.requested, c.m, c.disableSSL, ok);
    }
  }

  /** What add mysql adds: the system, the exporter, the queries. */
  function MySQLAdditions(linux: Plugin, mysql: Plugin, queries: Source, alias: string, port: int, force: bool,
                          disableSSL: bool): seq<Command>
  {
    [AddExporter(linux, alias, port, force, disableSSL), AddExporter(mysql, alias, port, false, disableSSL),
     AddSource(queries, alias)]
  }

  /**
   * add mysql: the first failure ends the command. However it ends, at most one name disagrees; if it succeeds, all
   * three are monitored. Without failures it stops only at an addition that the registry does not allow.
   */
  method AddMySQL(a: Admin, linux: Plugin, mysql: Plugin, queries: Source, alias: string, port: int, force: bool,
                  disableSSL: bool, ghost reg: Registry)
    returns (ok: bool, ghost regs: seq<Registry>, ghost states: seq<World>)
    requires linux.Valid() && mysql.Valid() && queries.Valid() && ServiceName(alias)
    modifies a`serviceName, a`servicePort, a`catalog, a`kv, a`units, a`instances, a`files, a`config, a`file, a`faults
    ensures SameClient(old(a.config), a.config) && FileKept(old(a.file), old(a.config), a.file)
    ensures Chain(old(a.State()), a.State(), 3, old(a.config), a.agentParent)
    ensures
      var cs := MySQLAdditions(linux, mysql, queries, alias, port, force, disableSSL);
      old(Represents(a.State(), a.config.clientName, a.agentParent, reg)) ==>
        && |Disagreement(a.State(), a.config.clientName)| <= 1
        && AddedInTurn(cs, states, regs, old(a.config), a.agentParent) && regs[0] == reg && states[0] == old(a.State())
        && (ok ==>
              && |states| == 4 && a.State() == states[3]
              && Represents(a.State(), a.config.clientName, a.agentParent, regs[3]) && reg.Keys <= regs[3].Keys
              && forall i | 0 <= i < 3 :: Known(cs[i], regs[3]))
        && (!ok && a.faults == old(a.faults) ==>
              && |states| <= 3
              && !Passes(cs[|states| - 1], regs[|states| - 1], states[|states| - 1], old(a.config)))
  {
    hide Disagreement, Represents, Command.Target, Plugin.Valid, Source.Valid, Chain, OneAdded, Known, Passes,
      AddedInTurn;
    var cs := MySQLAdditions(linux, mysql, queries, alias, port, force, disableSSL);
    ghost var was, config := a.State(), a.config;
    ghost var sound := Represents(was, config.clientName, a.agentParent, reg);
    regs, states := [reg], [was];
    ChainStart(was, config, a.agentParent);
    if sound {
      NoneAdded(cs, was, reg, config, a.agentParent);
    }
    ghost var reg', before, config' := reg, a.State(), a.config;
    ok, reg' := AddNext(a, cs[0], was, 0, reg);
    if !ok { LongerChain(was, a.State(), 1, 3, config, a.agentParent); return; }
    if sound {
      AddedMore(cs, 0, was, a.State(), reg, states, regs, reg', config', config, a.agentParent);
    }
    regs, states, before, config' := regs + [reg'], states + [a.State()], a.State(), a.config;
    SameChain(was, before, 1, config, config', a.agentParent);
    ok, reg' := AddNext(a, cs[1], was, 1, reg');
    SameChain(was, a.State(), 2, config', config, a.agentParent);
    SamePasses(cs[1], regs[1], before, config', config);
    if !ok { LongerChain(was, a.State(), 2, 3, config, a.agentParent); return; }
    if sound {
      AddedMore(cs, 1, was, a.State(), reg, states, regs, reg', config', config, a.agentParent);
    }
    regs, states, before, config' := regs + [reg'], states + [a.State()], a.State(), a.config;
    SameChain(was, before, 2, config, config', a.agentParent);
    ok, reg' := AddNext(a, cs[2], was, 2, reg');
    SameChain(was, a.State(), 3, config', config, a.agentParent);
    SamePasses(cs[2], regs[2], before, config', config);
    if !ok { return; }
    if sound {
      AddedMore(cs, 2, was, a.State(), reg, states, regs, reg', config', config, a.agentParent);
    }
    regs, states := regs + [reg'], states + [a.State()];
  }

  /**
   * Several removals, part way: those of some keys are behind, and what was missed is among them. As long as nothing
   * fails, the stores represent the registry without them.
   */
  ghost predicate PartlyDone(origin: World, now: World, client: string, parent: string, reg: Registry, keys: set<Key>,
                             gone: set<Key>, missed: set<Key>, calm: bool)
  {
    && Represents(origin, client, parent, reg) && gone <= keys && missed <= gone
    && Swept(reg, origin, now, client, reg.Keys + keys - gone, missed)
    && (calm ==> Represents(now, client, parent, reg - gone))
  }

  lemma NothingDone(w: World, client: string, parent: string, reg: Registry, keys: set<Key>)
    requires Represents(w, client, parent, reg)
    ensures PartlyDone(w, w, client, parent, reg, keys, {}, {}, true)
  {
    hide Represents, Swept;
    SweptAtFirst(w, client, parent, reg, keys);
    assert reg.Keys + keys - {} == reg.Keys + keys && reg - {} == reg;
  }

  lemma MoreDone(c: Command, origin: World, was: World, now: World, config: Config, parent: string, reg: Registry,
                 keys: set<Key>, gone: set<Key>, missed: set<Key>, before: bool, calm: bool)
    requires c.Valid() && !c.Adds() && Named(c).alias != "" && Named(c) in keys && Named(c) !in gone
    requires PartlyDone(origin, was, config.clientName, parent, reg, keys, gone, missed, before)
    requires Tries(c, was, now, config, calm)
    requires before && calm ==> Represents(now, config.clientName, parent, reg - gone - {Named(c)})
    ensures
      PartlyDone(origin, now, config.clientName, parent, reg, keys, gone + {Named(c)},
                 if calm then missed else missed + {Named(c)}, before && calm)
  {
    hide Represents, Swept, Tries, Named, Command.Valid;
    var left := reg.Keys + keys - gone;
    OneMoreSwept(c, origin, was, now, config, parent, reg, left, missed, calm);
    assert left - {Named(c)} == reg.Keys + keys - (gone + {Named(c)});
    assert reg - gone - {Named(c)} == reg - (gone + {Named(c)});
  }

  lemma AllDone(origin: World, now: World, client: string, parent: string, reg: Registry, keys: set<Key>,
                gone: set<Key>, missed: set<Key>, calm: bool, n: nat)
    requires PartlyDone(origin, now, client, parent, reg, keys, gone, missed, calm) && gone == keys && |missed| <= n
    ensures calm ==> Represents(now, client, parent, reg - keys)
    ensures LeavesAtMost(now.Services(client), reg, keys, n)
  {
    hide Represents, Swept;
    assert reg.Keys + keys - keys == reg.Keys - keys;
    SweptPart(origin, now, client, reg, keys, missed, n);
  }

  /** One removal of several. */
  method RemoveNext(a: Admin, c: Command, ghost was: World, ghost n: nat, ghost reg: Registry, ghost keys: set<Key>,
                    ghost gone: set<Key>, ghost missed: set<Key>, ghost before: bool)
    returns (done: bool, ghost missed': set<Key>, ghost calm: bool)
    requires c.Valid() && !c.Adds()
    modifies a`serviceName, a`servicePort, a`catalog, a`kv, a`units, a`instances, a`files, a`config, a`file, a`faults
    ensures a.faults >= old(a.faults) && a.config == old(a.config) && a.file == old(a.file)
    ensures calm <==> before && a.faults == old(a.faults)
    ensures |missed'| <= |missed| + (a.faults - old(a.faults))
    ensures Chain(was, old(a.State()), n, a.config, a.agentParent) ==>
      Chain(was, a.State(), n + 1, a.config, a.agentParent)
    ensures
      PartlyDone(was, old(a.State()), a.config.clientName, a.agentParent, reg, keys, gone, missed, before) &&
      Named(c).alias != "" && Named(c) in keys && Named(c) !in gone ==>
        PartlyDone(was, a.State(), a.config.clientName, a.agentParent, reg, keys, gone + {Named(c)}, missed', calm)
  {
    hide Attempts, Command.Valid, Command.Performs, Chain, Settled, Represents, Tries, Command.Effect, Reuse.NoSecond,
      PartlyDone, Named, Allows, Known;
    ghost var start, config, left := a.State(), a.config, reg - gone;
    ghost var doing := PartlyDone(was, start, config.clientName, a.agentParent, reg, keys, gone, missed, before) &&
      Named(c).alias != "" && Named(c) in keys && Named(c) !in gone;
    var known;
    done, known := Execute(a, c, left);
    assert PasswordOf(c) == "";
    calm := before && a.faults == old(a.faults);
    missed' := if a.faults == old(a.faults) then missed else missed + {Named(c)};
    if Chain(was, start, n, config, a.agentParent) {
      OneMoreInChain(was, start, a.State(), n, c, config, a.agentParent);
    }
    if doing {
      if calm {
        StillRepresented(was, start, config.clientName, a.agentParent, reg, keys, gone, missed);
        CalmRemoval(c, start, a.State(), config, a.agentParent, left, done, known);
      }
      MoreDone(c, was, start, a.State(), config, a.agentParent, reg, keys, gone, missed, before,
               a.faults == old(a.faults));
    }
  }

  lemma StillRepresented(origin: World, now: World, client: string, parent: string, reg: Registry, keys: set<Key>,
                         gone: set<Key>, missed: set<Key>)
    requires PartlyDone(origin, now, client, parent, reg, keys, gone, missed, true)
    ensures Represents(now, client, parent, reg - gone)
  {
    hide Represents, Swept;
  }

  /** A removal without failures takes exactly what it names out of the registry, if that is there. */
  lemma CalmRemoval(c: Command, was: World, now: World, config: Config, parent: string, reg: Registry, done: bool,
                    known: bool)
    requires c.Valid() && !c.Adds() && Named(c).alias != "" && Represents(was, config.clientName, parent, reg)
    requires done <==> Allows(c, reg, was, config)
    requires known <==> Initialised(c) && Known(c, reg)
    requires done ==> c.Performs(was, now, config, parent)
    requires known ==> now == was
    ensures Represents(now, config.clientName, parent, reg - {Named(c)})
  {
    hide Represents, Command.Performs, Command.Effect, Command.Valid, Named, Allows, Known;
    RemovalIsKnownOrAllowed(c, reg, was, config);
    if done {
      var reg' := StepRefines(c, was, now, config, parent, reg);
      NamedGoes(c, reg, reg');
    } else {
      NothingNamed(c, reg);
    }
  }

  lemma RemovalIsKnownOrAllowed(c: Command, reg: Registry, w: World, config: Config)
    requires !c.Adds() && Named(c).alias != ""
    ensures Initialised(c) && (Allows(c, reg, w, config) <==> !Known(c, reg))
  {
    hide HasNamed;
  }

  lemma NamedGoes(c: Command, reg: Registry, reg': Registry)
    requires !c.Adds() && c.Effect(reg, reg') && Named(c).alias != ""
    ensures reg' == reg - {Named(c)}
  {
    hide MetricsKind, QueriesKind;
  }

  lemma NothingNamed(c: Command, reg: Registry)
    requires !c.Adds() && Known(c, reg) && Named(c).alias != ""
    ensures reg - {Named(c)} == reg
  {
    hide MetricsKind, QueriesKind;
    assert NamedBy(Named(c), Named(c).kind, Named(c).alias);
  }

  /** What remove mysql removes. */
  function MySQLKeys(alias: string): set<Key> {
    {Key(MetricsKind("linux"), alias), Key(MetricsKind("mysql"), alias), Key(QueriesKind("mysql"), alias)}
  }

  lemma MySQLKeysDiffer(alias: string)
    ensures MetricsKind("linux") != MetricsKind("mysql") && MetricsKind("linux") != QueriesKind("mysql")
    ensures MetricsKind("mysql") != QueriesKind("mysql")
  {
    KnownMetrics("linux");
    KnownMetrics("mysql");
    KnownQueries("mysql");
  }

  /**
   * remove mysql: without failures all three go and nothing else. It goes on after a failure: each of its steps may
   * leave a name in disagreement, but of the three no more stay in the catalog than calls have failed.
   */
  method RemoveMySQL(a: Admin, alias: string, ghost reg: Registry)
    modifies a`serviceName, a`servicePort, a`catalog, a`kv, a`units, a`instances, a`files, a`config, a`file, a`faults
    ensures a.faults >= old(a.faults) && a.config == old(a.config) && a.file == old(a.file)
    ensures Chain(old(a.State()), a.State(), 3, a.config, a.agentParent)
    ensures old(WellNamed(a.Services())) ==>
      && WellNamed(a.Services())
      && |Disagreement(a.State(), a.config.clientName)| <= |old(Disagreement(a.State(), a.config.clientName))| + 3
    ensures old(Represents(a.State(), a.config.clientName, a.agentParent, reg)) && alias != "" ==>
      && (a.faults == old(a.faults) ==>
            Represents(a.State(), a.config.clientName, a.agentParent, reg - MySQLKeys(alias)))
      && LeavesAtMost(a.Services(), reg, MySQLKeys(alias), a.faults - old(a.faults))
  {
    hide Chain, WellNamed, Disagreement, Represents, LeavesAtMost, MetricsKind, QueriesKind, PartlyDone;
    ghost var was, config, keys := a.State(), a.config, MySQLKeys(alias);
    var c1, c2, c3 := RemoveExporter("linux", alias), RemoveExporter("mysql", alias), RemoveSource("mysql", alias);
    ghost var sound := Represents(was, config.clientName, a.agentParent, reg) && alias != "";
    ChainStart(was, config, a.agentParent);
    MySQLKeysDiffer(alias);
    if sound {
      NothingDone(was, config.clientName, a.agentParent, reg, keys);
    }
    var done;
    ghost var missed, calm;
    done, missed, calm := RemoveNext(a, c1, was, 0, reg, keys, {}, {}, true);
    done, missed, calm := RemoveNext(a, c2, was, 1, reg, keys, {Named(c1)}, missed, calm);
    done, missed, calm := RemoveNext(a, c3, was, 2, reg, keys, {Named(c1)} + {Named(c2)}, missed, calm);
    if WellNamed(was.Services(config.clientName)) {
      CompositeGrowsByN(was, a.State(), 3, config, a.agentParent);
    }
    if sound {
      assert {} + {Named(c1)} == {Named(c1)};
      AllDone(was, a.State(), config.clientName, a.agentParent, reg, keys, {Named(c1)} + {Named(c2)} + {Named(c3)},
              missed, calm, a.faults - old(a.faults));
    }
  }

  /** pmm-admin remove mysql: one check, three removals. */
  method InvokeRemoveMySQL(a: Admin, alias: string, ghost reg: Registry) returns (open: bool, ghost readable: bool)
    modifies a`serviceName, a`servicePort, a`catalog, a`kv, a`units, a`instances, a`files, a`config, a`file, a`faults
    ensures a.faults >= old(a.faults)
    ensures Invocation(old(a.State()), a.State(), 3, readable, a.config, a.agentParent)
    ensures a.config == old(a.config) && a.file == old(a.file)
    ensures old(Represents(a.State(), a.config.clientName, a.agentParent, reg)) && alias != "" ==>
      && (a.faults == old(a.faults) ==>
            open && Represents(a.State(), a.config.clientName, a.agentParent, reg - MySQLKeys(alias)))
      && (open ==> LeavesAtMost(a.Services(), reg, MySQLKeys(alias), a.faults - old(a.faults)))
      && (!open ==> a.State() == old(a.State()))
  {
    hide Disagreement, PartlyRepaired, Repaired, Chain, Represents, LeavesAtMost, MySQLKeys;
    ghost var was := a.State();
    if Represents(was, a.config.clientName, a.agentParent, reg) {
      Agreed(was, a.config.clientName, a.agentParent, reg);
    }
    open := Gate(a);
    readable := a.faults == old(a.faults);
    if !open { return; }
    ghost var faults := a.faults;
    RemoveMySQL(a, alias, reg);
    if Represents(was, a.config.clientName, a.agentParent, reg) && alias != "" {
      LeavesAtMostMore(a.Services(), reg, MySQLKeys(alias), a.faults - faults,
                       a.faults - old(a.faults));
    }
  }

  /**
   * pmm-admin remove --all: one check, as many removals as there are aliases, up to the first error. Whatever
   * its calls do, it adds no more names to the disagreement than a single command.
   */
  method InvokeRemoveAll(a: Admin, ghost reg: Registry)
    returns (open: bool, count: nat, r: Outcome, ghost readable: bool)
    modifies a`serviceName, a`catalog, a`kv, a`units, a`instances, a`config, a`file, a`faults
    ensures Invocation(old(a.State()), a.State(), 1, readable, old(a.config), a.agentParent)
    ensures FileKept(old(a.file), old(a.config), a.file)
    ensures old(WellNamed(a.Services())) ==>
      && WellNamed(a.Services())
      && |Disagreement(a.State(), a.config.clientName)| <= |old(Disagreement(a.State(), a.config.clientName))| + 1
    ensures old(Represents(a.State(), a.config.clientName, a.agentParent, reg)) && a.faults == old(a.faults) ==>
      && open && count == RemoveAll.Uint16(|reg|) && r.Ok?
      && Represents(a.State(), a.config.clientName, a.agentParent, map[])
    ensures !open ==> a.State() == old(a.State()) && a.config == old(a.config) && a.file == old(a.file)
    ensures a.config == old(a.config) || a.config == old(a.config).(mySQLPassword := "")
  {
    hide Disagreement, PartlyRepaired, Repaired, Chain, Sweep, WellNamed, Represents, LeavesAtMost;
    count, r := 0, Ok;
    if Represents(a.State(), a.config.clientName, a.agentParent, reg) {
      Agreed(a.State(), a.config.clientName, a.agentParent, reg);
    }
    open := Gate(a);
    readable := a.faults == old(a.faults);
    if !open { return; }
    ghost var read, tries;
    count, r, read, tries := RemoveAll.RemoveAllMonitoring(a, false, reg);
  }
}
