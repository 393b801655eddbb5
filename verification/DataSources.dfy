/**
 * The data source of a query source: its sanitised form on the server, the real one in the agent's file. What
 * commands and repairs keep of that, and what a change of the client name makes of it.
 */
module DataSources {
  import opened Strings
  import opened Stores
  import opened Registry
  import opened Transitions
  import opened Sanitize
  import opened Monitor
  import opened Metrics
  import opened Qan
  import opened Queries
  import opened Refinement
  import opened Runs
  import opened Repair
  import opened Failures
  import opened Rename
  import opened RenameRefinement

  // ---------- the agent's files over runs ----------

  /** Sources whose record and file stay as they are keep having their file. */
  lemma UntouchedFiles(was: World, now: World, reg: Registry, reg': Registry, but: Key)
    requires FilesAgree(was, reg)
    requires forall k | k in reg' && k != but :: k in reg && reg'[k] == reg[k]
    requires but in reg' && reg'[but].Source? ==> HasFile(now, reg'[but])
    requires forall k | k in reg' && k != but && reg'[k].Source? ::
      SameAt(was.instances, now.instances, reg'[k].uuid) && SameAt(was.files, now.files, reg'[k].uuid)
    ensures FilesAgree(now, reg')
  {
    hide SanitizeDSN;
    forall k | k in reg' && reg'[k].Source?
      ensures HasFile(now, reg'[k])
    {
      if k != but {
        assert HasFile(was, reg[k]);
      }
    }
  }

  predicate SameAt(was: map<string, Instance>, now: map<string, Instance>, u: string) {
    u in was ==> u in now && now[u] == was[u]
  }

  lemma AdditionKeepsFiles(was: World, now: World, client: string, address: string, parent: string, alias: string,
                           q: Source, dsn: string, reg: Registry, reg': Registry)
    requires Represents(was, client, parent, reg) && Represents(now, client, parent, reg') && FilesAgree(was, reg)
    requires q.Valid() && AddedSomehow(was, now, client, address, parent, alias, q, dsn, true, true)
    requires
      var k := Key(q.Kind(), alias);
      k !in reg && k in reg' && reg' == reg[k := reg'[k]] && reg'[k].Source? && reg'[k].dsn == SanitizeDSN(dsn)
    ensures FilesAgree(now, reg')
  {
    hide Represents, SanitizeDSN, UnitName, IsBase, UnitReady, Subsystem, Source.Valid, Source.Kind, KeyOfInstance,
      FullyAddedSource;
    var b, uuid :| AddOutcome(was, now, client, address, parent, alias, q, dsn, b, uuid, true, true);
    var k := Key(q.Kind(), alias);
    FullyAddedSourceFields(was, client, address, alias, q, b, dsn, uuid, now.instances);
    AcquiredIsLive(was.instances, now.instances, uuid, alias, q, parent);
    LiveHasEntry(now, client, parent, reg', uuid, k);
    forall k' | k' in reg' && k' != k && reg'[k'].Source?
      ensures SameAt(was.instances, now.instances, reg'[k'].uuid) && SameAt(was.files, now.files, reg'[k'].uuid)
    {
      EntryIsLive(now, client, parent, reg', k');
    }
    UntouchedFiles(was, now, reg, reg', k);
  }

  lemma RemovalKeepsFiles(was: World, now: World, client: string, address: string, parent: string, kind: string,
                          alias: string, name: string, reg: Registry, reg': Registry, k: Key)
    requires Represents(was, client, parent, reg) && Represents(now, client, parent, reg') && FilesAgree(was, reg)
    requires RemovedASource(was, now, client, address, kind, alias, name, true, true)
    requires k in reg && reg' == reg - {k}
    ensures FilesAgree(now, reg')
  {
    hide Represents, SanitizeDSN, UnitName, Matches, KeyOfInstance, RemovedQueries, CanRemoveSource, StoredUuid;
    var id :| id in was.Services(client) && Matches(was.Services(client)[id], kind, alias) &&
      RemoveSourceOutcome(was, now, client, address, id, alias, name, true, true);
    var uuid := StoredUuid(was, client, id, alias, name);
    RemovedQueriesFields(was, client, address, id, was.Services(client)[id], alias, uuid);
    forall k' | k' in reg'
      ensures reg'[k'].Source? ==>
        SameAt(was.instances, now.instances, reg'[k'].uuid) && SameAt(was.files, now.files, reg'[k'].uuid)
    {
      if reg'[k'].Source? {
        EntryIsLive(now, client, parent, reg', k');
      }
    }
    UntouchedFiles(was, now, reg, reg', k);
  }

  /** What a successful command does to the files keeps one for every source. */
  lemma StepKeepsFiles(c: Command, was: World, now: World, config: Config, parent: string, reg: Registry,
                       reg': Registry)
    requires Represents(was, config.clientName, parent, reg) && Represents(now, config.clientName, parent, reg')
    requires c.Valid() && c.Performs(was, now, config, parent) && c.Effect(reg, reg') && FilesAgree(was, reg)
    ensures FilesAgree(now, reg')
  {
    hide Represents, FilesAgree, FullyAdded, BaseName, Lookup.GloballyUnique, IsDuplicate, CanAddQueries, SanitizeDSN,
      RemovedASource, AddedSomehow,
      MetricsKind, QueriesKind, UnitName, Plugin.Registered, Plugin.Valid, Source.Valid, RemovedMetrics, KnownName,
      ServiceName, Matches, Lookup.ChosenPort;
    var client := config.clientName;
    match c {
      case AddExporter(m, alias, requested, force, disableSSL) =>
        FullyAddedStores(was, config, alias, m,
                         Lookup.ChosenPort(was.Services(client), requested, m.defaultPort).value, disableSSL);
        UntouchedFiles(was, now, reg, reg', c.Target());
      case RemoveExporter(name, alias) =>
        var id :| id in was.Services(client) && RemoveOutcome(was, now, client, id, true, true);
        assert RemoveOutcome(was, now, client, id, true, true);
        RemovedMetricsFields(was, client, id, was.Services(client)[id].kind, was.Services(client)[id].port);
        var k :| k in reg && reg' == reg - {k};
        UntouchedFiles(was, now, reg, reg', k);
      case AddSource(q, alias) =>
        AdditionKeepsFiles(was, now, client, config.clientAddress, parent, alias, q, q.init.value.dsn, reg, reg');
      case RemoveSource(name, alias) =>
        var k :| k in reg && reg' == reg - {k};
        RemovalKeepsFiles(was, now, client, config.clientAddress, parent, QueriesKind(name), alias, name, reg, reg', k);
    }
  }

  /** Over every run of successful commands from a new client, each source has a file like its record. */
  lemma {:induction false} EveryRunHasFiles(states: seq<World>, commands: seq<Command>, config: Config, parent: string,
                                            regs: seq<Registry>, i: nat)
    requires Run(states, commands, config, parent) && |regs| == |states| && regs[0] == map[] && i < |states|
    requires forall j | 0 <= j < |states| :: Represents(states[j], config.clientName, parent, regs[j])
    requires forall j | 0 <= j < |commands| :: commands[j].Effect(regs[j], regs[j + 1])
    ensures FilesAgree(states[i], regs[i])
  {
    hide Represents, Command.Performs, Command.Effect, Command.Valid, HasFile;
    if i > 0 {
      EveryRunHasFiles(states, commands, config, parent, regs, i - 1);
      StepKeepsFiles(commands[i - 1], states[i - 1], states[i], config, parent, regs[i - 1], regs[i]);
    }
  }

  // ---------- what the server holds ----------

  /** No instance goes, none changes its data source, and a new one holds what the command's source sanitises to. */
  predicate DsnsAfter(c: Command, was: World, now: World) {
    && was.instances.Keys <= now.instances.Keys
    && forall u | u in now.instances ::
         if u in was.instances then now.instances[u].dsn == was.instances[u].dsn
         else c.AddSource? && c.q.init.Some? && now.instances[u].dsn == SanitizeDSN(c.q.init.value.dsn)
  }

  lemma MarkingKeepsDsns(c: Command, was: World, now: World, uuid: string)
    requires now.instances == was.instances || now.instances == MarkedDeleted(was.instances, uuid)
    ensures DsnsAfter(c, was, now)
  {
    hide SanitizeDSN;
  }

  lemma AdditionSanitises(was: World, now: World, client: string, address: string, parent: string, alias: string,
                          q: Source, dsn: string, ok: bool, faultless: bool)
    requires AddedSomehow(was, now, client, address, parent, alias, q, dsn, ok, faultless)
    ensures DsnsKept(was.instances, now.instances, dsn) && was.instances.Keys <= now.instances.Keys
  {
    hide SanitizeDSN, UnitName, IsBase, UnitReady, FullyAddedSource, UnitStage, Registered;
    var b, uuid :| AddOutcome(was, now, client, address, parent, alias, q, dsn, b, uuid, ok, faultless);
    FullyAddedSourceFields(was, client, address, alias, q, b, dsn, uuid, now.instances);
  }

  /** Whatever becomes of a command: only the sanitised form of a data source reaches the server. */
  lemma AttemptSanitises(c: Command, was: World, now: World, config: Config, parent: string)
    requires Attempts(c, was, now, config, parent)
    ensures DsnsAfter(c, was, now)
  {
    hide FullyAdded, CanAddQueries, SanitizeDSN, AddedSomehow, IsDuplicate, Lookup.GloballyUnique,
      MetricsKind, QueriesKind, UnitName,
      RemovedMetrics, Matches, Lookup.ChosenPort, MarkedDeleted, Between, RemoveSourceOutcome;
    var client, address := config.clientName, config.clientAddress;
    if now == was {
      MarkingKeepsDsns(c, was, now, "");
      return;
    }
    match c {
      case AddExporter(m, alias, requested, force, disableSSL) =>
        var ok :| AddedAt(was, now, config, alias, requested, m, disableSSL, ok);
        assert AddedAt(was, now, config, alias, requested, m, disableSSL, ok);
        FullyAddedStores(was, config, alias, m,
                         Lookup.ChosenPort(was.Services(client), requested, m.defaultPort).value, disableSSL);
        MarkingKeepsDsns(c, was, now, "");
      case RemoveExporter(name, alias) =>
        var ok, faultless :| RemovedAMatch(was, now, client, MetricsKind(name), alias, ok, faultless);
        var id :| id in was.Services(client) && RemoveOutcome(was, now, client, id, ok, faultless);
        assert RemoveOutcome(was, now, client, id, ok, faultless);
        RemovedMetricsFields(was, client, id, was.Services(client)[id].kind, was.Services(client)[id].port);
        MarkingKeepsDsns(c, was, now, "");
      case AddSource(q, alias) =>
        InitIsKnown(was, client, address, alias, q);
        var ok, faultless :| AddedSomehow(was, now, client, address, parent, alias, q, q.init.value.dsn, ok, faultless);
        AdditionSanitises(was, now, client, address, parent, alias, q, q.init.value.dsn, ok, faultless);
      case RemoveSource(name, alias) =>
        var ok, faultless :| RemovedASource(was, now, client, address, QueriesKind(name), alias, name, ok, faultless);
        var id :|
          id in was.Services(client) && RemoveSourceOutcome(was, now, client, address, id, alias, name, ok, faultless);
        assert RemoveSourceOutcome(was, now, client, address, id, alias, name, ok, faultless);
        RemovalRecords(was, now, client, address, id, alias, name, ok, faultless);
        var key := UuidKey(client, id, alias, name);
        MarkingKeepsDsns(c, was, now, if key in was.kv then was.kv[key] else "");
    }
  }

  lemma RepairSanitises(c: Command, was: World, now: World, client: string)
    requires Repaired(was, now, client) || PartlyRepaired(was, now, client)
    ensures DsnsAfter(c, was, now)
  {
    hide SanitizeDSN, UnderMissing, IsUuidKey, Matched, WantedUnits, KeysKept, OtherNodesKept;
    forall u | u in now.instances
      ensures u in was.instances && now.instances[u].dsn == was.instances[u].dsn
    {
      assert SameOrDeleted(was.instances, now.instances, u);
    }
  }

  /** Commands with whatever failures, and repairs in between. */
  ghost predicate Trials(states: seq<World>, commands: seq<Command>, config: Config, parent: string) {
    && |states| == |commands| + 1
    && forall i | 0 <= i < |commands| :: Trial(commands[i], states[i], states[i + 1], config, parent)
  }

  ghost predicate Trial(c: Command, was: World, now: World, config: Config, parent: string) {
    || Attempts(c, was, now, config, parent)
    || Repaired(was, now, config.clientName)
    || PartlyRepaired(was, now, config.clientName)
  }

  /** The instance holds what the data source of one of the commands sanitises to. */
  predicate HoldsSanitised(i: Instance, commands: seq<Command>) {
    exists c | c in commands :: c.AddSource? && c.q.init.Some? && i.dsn == SanitizeDSN(c.q.init.value.dsn)
  }

  /**
   * Over every run of commands and repairs, whatever fails: an instance keeps the data source it had at the
   * start, and one that the run has created holds the sanitised form of what some command of the run was given.
   */
  lemma {:induction false} ServerHoldsSanitised(states: seq<World>, commands: seq<Command>, config: Config,
                                                parent: string, n: nat, u: string)
    requires Trials(states, commands, config, parent) && n <= |commands| && u in states[n].instances
    ensures
      if u in states[0].instances then states[n].instances[u].dsn == states[0].instances[u].dsn
      else HoldsSanitised(states[n].instances[u], commands[..n])
    ensures forall v | v in states[0].instances :: v in states[n].instances
  {
    hide Attempts, Repaired, PartlyRepaired, SanitizeDSN;
    InstancesStay(states, commands, config, parent, n);
    if n > 0 {
      InstancesStay(states, commands, config, parent, n - 1);
      var c, was, now := commands[n - 1], states[n - 1], states[n];
      assert Trial(c, was, now, config, parent);
      if Attempts(c, was, now, config, parent) {
        AttemptSanitises(c, was, now, config, parent);
      } else {
        RepairSanitises(c, was, now, config.clientName);
      }
      assert commands[..n] == commands[..n - 1] + [c];
      if u in was.instances {
        ServerHoldsSanitised(states, commands, config, parent, n - 1, u);
        if u !in states[0].instances {
          var c' :| c' in commands[..n - 1] && c'.AddSource? && c'.q.init.Some? &&
            was.instances[u].dsn == SanitizeDSN(c'.q.init.value.dsn);
          assert c' in commands[..n];
        }
      } else {
        assert c in commands[..n];
      }
    }
  }

  lemma {:induction false} InstancesStay(states: seq<World>, commands: seq<Command>, config: Config, parent: string,
                                         n: nat)
    requires Trials(states, commands, config, parent) && n <= |commands|
    ensures states[0].instances.Keys <= states[n].instances.Keys
  {
    hide Attempts, Repaired, PartlyRepaired, SanitizeDSN;
    if n > 0 {
      InstancesStay(states, commands, config, parent, n - 1);
      assert Trial(commands[n - 1], states[n - 1], states[n], config, parent);
      if Attempts(commands[n - 1], states[n - 1], states[n], config, parent) {
        AttemptSanitises(commands[n - 1], states[n - 1], states[n], config, parent);
      } else {
        RepairSanitises(commands[n - 1], states[n - 1], states[n], config.clientName);
      }
    }
  }

  // ---------- what a change of the name makes of it ----------

  lemma {:induction false} ReplaceFirstChanges(s: string, from: string, to: string)
    requires from != "" && from != to
    ensures ReplaceFirst(s, from, to) != s <==> Contains(s, from)
  {
    if from <= s {
      if |to| == |from| {
        assert ReplaceFirst(s, from, to)[..|to|] == to && s[..|from|] == from;
      }
    } else if s != [] {
      ReplaceFirstChanges(s[1..], from, to);
      if |from| > |s| {
        TooShort(s, from, to);
      }
    }
  }

  /**
   * What a renaming publishes: the server gets another data source for exactly those renamed instances whose
   * name contains the old one and whose file has another; and it gets the file's.
   */
  lemma PublishedExactly(instances: map<string, Instance>, files: map<string, Instance>,
                         nowInstances: map<string, Instance>, nowFiles: map<string, Instance>, uuids: set<string>,
                         oldName: string, newName: string, u: string)
    requires RecordsRenamed(instances, files, nowInstances, nowFiles, uuids, oldName, newName)
    requires oldName != "" && oldName != newName && u in instances
    ensures u in nowInstances
    ensures nowInstances[u].dsn != instances[u].dsn <==>
      u in uuids && u in files && Contains(files[u].name, oldName) && files[u].dsn != instances[u].dsn
    ensures nowInstances[u].dsn != instances[u].dsn ==> nowInstances[u].dsn == files[u].dsn
  {
    hide ReplaceFirst, Contains;
    if u in files {
      ReplaceFirstChanges(files[u].name, oldName, newName);
    }
  }

  /** The instance of the MySQL source with the client's name gets the data source of the agent's file. */
  function DsnAfterRename(w: World, reg: Registry, client: string, u: string): string
    requires u in w.instances
  {
    var k := Key(QueriesKind("mysql"), client);
    if k in reg && reg[k].Source? && reg[k].uuid == u && u in w.files then w.files[u].dsn else w.instances[u].dsn
  }

  /**
   * A renaming that meets no error, of a client in agreement: the MySQL source with the client's name is the one
   * whose instance is given the real data source. Every other instance keeps what it holds.
   */
  lemma RenamePublishes(w: World, now: World, address: string, parent: string, reg: Registry, oldName: string,
                        newName: string, u: string)
    requires Represents(w, oldName, parent, reg) && FilesAgree(w, reg) && Names(w, reg, oldName, newName)
    requires FullyRenamed(w, now, address, oldName, newName) && u in w.instances
    ensures u in now.instances && now.instances[u].dsn == DsnAfterRename(w, reg, oldName, u)
  {
    hide Represents, Clean, NoClash, UuidsAt, StoredFor, UnderWay, MovedCatalog, NameOf, QueriesKind, ReplaceFirst,
      Contains, FilesAgree, KeyOfInstance;
    var k := Key(QueriesKind("mysql"), oldName);
    var uuids := UuidsAt(w.kv, StoredFor(w.kv, oldName, w.Services(oldName).Keys));
    if u in uuids {
      var k' := RenamedIsSource(w, parent, reg, oldName, u);
      SourceOfClient(w, parent, reg, oldName, k');
      ReplaceFirstChanges(k'.alias, oldName, newName);
    } else if k in reg && reg[k].Source? && reg[k].uuid == u {
      KindOfMySQL();
      RenamedUuids(w, parent, reg, oldName, k);
    }
  }

  lemma KindOfMySQL()
    ensures NameOf(QueriesKind("mysql")) == "mysql"
  {
    assert KnownName("mysql");
    KnownQueries("mysql");
  }

  /** A clean MySQL source has the client's name for its alias, or a name that does not contain it. */
  lemma SourceOfClient(w: World, parent: string, reg: Registry, client: string, k: Key)
    requires Represents(w, client, parent, reg) && FilesAgree(w, reg) && Clean(reg, client)
    requires k in reg && reg[k].Source? && NameOf(k.kind) == "mysql" && client != ""
    ensures k.kind == QueriesKind("mysql") && reg[k].uuid in w.files && w.files[reg[k].uuid].name == k.alias
    ensures Contains(k.alias, client) <==> k == Key(QueriesKind("mysql"), client)
    ensures forall k' | k' in reg && reg[k'].Source? && reg[k'].uuid == reg[k].uuid :: k' == k
  {
    hide Represents, Clean, NameOf, QueriesKind, ServiceID, SanitizeDSN;
    Parts(w, client, parent, reg);
    ValidOf(w, client, parent, reg, k);
    SourceName(k, reg[k]);
    OfClean(reg, client, k);
    EntryIsLive(w, client, parent, reg, k);
    UuidsAreDistinct(w, client, parent, reg);
    assert HasFile(w, reg[k]);
    assert client <= client;
  }

  /** So the server learns nothing new exactly if no such source is there, or its file has what the server has. */
  lemma NothingPublishedExactly(w: World, now: World, address: string, parent: string, reg: Registry, oldName: string,
                                newName: string)
    requires Represents(w, oldName, parent, reg) && FilesAgree(w, reg) && Names(w, reg, oldName, newName)
    requires FullyRenamed(w, now, address, oldName, newName)
    ensures
      var k := Key(QueriesKind("mysql"), oldName);
      && (k in reg ==> reg[k].Source? && HasFile(w, reg[k]))
      && ((forall u | u in w.instances :: u in now.instances && now.instances[u].dsn == w.instances[u].dsn) <==>
            (k in reg ==> w.files[reg[k].uuid].dsn == w.instances[reg[k].uuid].dsn))
  {
    hide Represents, Clean, NoClash, FullyRenamed, QueriesKind, SanitizeDSN;
    var k := Key(QueriesKind("mysql"), oldName);
    if k in reg {
      SourceOfMySQL(w, oldName, parent, reg, k);
      assert HasFile(w, reg[k]);
      RenamePublishes(w, now, address, parent, reg, oldName, newName, reg[k].uuid);
    }
    forall u | u in w.instances
      ensures u in now.instances
      ensures now.instances[u].dsn == if k in reg && reg[k].uuid == u then w.files[u].dsn else w.instances[u].dsn
    {
      RenamePublishes(w, now, address, parent, reg, oldName, newName, u);
    }
  }

  /** What an addition stores for its source: a record on the server and a file, under one UUID. */
  lemma AddedRecord(was: World, now: World, client: string, address: string, parent: string, alias: string, q: Source,
                    dsn: string, reg': Registry)
    requires q.Valid() && AddedSomehow(was, now, client, address, parent, alias, q, dsn, true, true)
    requires Represents(now, client, parent, reg')
    ensures
      var k := Key(q.Kind(), alias);
      && k in reg' && reg'[k].Source? && reg'[k].uuid in now.instances && reg'[k].uuid in now.files
      && now.files[reg'[k].uuid].dsn == dsn
      && now.instances.Keys == was.instances.Keys + {reg'[k].uuid}
      && DsnsKept(was.instances, now.instances, dsn)
  {
    hide Represents, SanitizeDSN, UnitName, IsBase, UnitReady, Subsystem, Source.Valid, Source.Kind, KeyOfInstance,
      FullyAddedSource;
    var b, uuid :| AddOutcome(was, now, client, address, parent, alias, q, dsn, b, uuid, true, true);
    FullyAddedSourceFields(was, client, address, alias, q, b, dsn, uuid, now.instances);
    AcquiredIsLive(was.instances, now.instances, uuid, alias, q, parent);
    LiveHasEntry(now, client, parent, reg', uuid, Key(q.Kind(), alias));
  }

  /**
   * Without a name on the command line a source is added under the client's. If a new instance is created for
   * it, the server is given the sanitised data source; a change of the client name then gives it the real one.
   */
  lemma DefaultAliasPublishes(was: World, mid: World, now: World, config: Config, parent: string, reg: Registry,
                              reg': Registry, q: Source, newName: string) returns (u: string)
    requires Represents(was, config.clientName, parent, reg) && FilesAgree(was, reg)
    requires Represents(mid, config.clientName, parent, reg') && q.name == "mysql"
    requires
      var c := AddSource(q, config.clientName);
      c.Valid() && c.Performs(was, mid, config, parent) && c.Effect(reg, reg')
    requires mid.instances.Keys != was.instances.Keys
    requires Names(mid, reg', config.clientName, newName)
    requires FullyRenamed(mid, now, config.clientAddress, config.clientName, newName)
    ensures q.init.Some? && u !in was.instances && u in mid.instances && u in now.instances
    ensures mid.instances[u].dsn == SanitizeDSN(q.init.value.dsn) && now.instances[u].dsn == q.init.value.dsn
  {
    hide Represents, Clean, NoClash, FullyRenamed, QueriesKind, SanitizeDSN, FilesAgree, ServiceName, CanAddQueries,
      AddedSomehow, Source.Valid;
    var client := config.clientName;
    InitIsKnown(was, client, config.clientAddress, client, q);
    AddedRecord(was, mid, client, config.clientAddress, parent, client, q, q.init.value.dsn, reg');
    StepKeepsFiles(AddSource(q, client), was, mid, config, parent, reg, reg');
    u := reg'[Key(q.Kind(), client)].uuid;
    assert u in was.instances ==> was.instances.Keys + {u} == was.instances.Keys;
    RenamePublishes(mid, now, config.clientAddress, parent, reg', client, newName, u);
  }

  /** For one with a password that is: hidden when the source is added, shown once the name has changed. */
  lemma PasswordIsPublished(was: World, mid: World, now: World, config: Config, parent: string, reg: Registry,
                            reg': Registry, q: Source, newName: string, user: string, password: string, host: string)
    returns (u: string)
    requires Represents(was, config.clientName, parent, reg) && FilesAgree(was, reg)
    requires Represents(mid, config.clientName, parent, reg') && q.name == "mysql"
    requires
      var c := AddSource(q, config.clientName);
      c.Valid() && c.Performs(was, mid, config, parent) && c.Effect(reg, reg')
    requires mid.instances.Keys != was.instances.Keys
    requires Names(mid, reg', config.clientName, newName)
    requires FullyRenamed(mid, now, config.clientAddress, config.clientName, newName)
    requires q.init.Some? && q.init.value.dsn == user + ":" + password + "@" + host
    requires user != "" && ':' !in user && '@' !in user && '?' !in user && !MakesUpScheme(user, password)
    requires '?' !in password && '@' !in host && '?' !in host
    ensures u in mid.instances && mid.instances[u].dsn == user + ":***@" + TrimRight(host, '/')
    ensures u in now.instances && now.instances[u].dsn == user + ":" + password + "@" + host
  {
    hide *;
    var dsn := user + ":" + password + "@" + host;
    u := DefaultAliasPublishes(was, mid, now, config, parent, reg, reg', q, newName);
    SanitizeHidesPassword("", user, password, host, "");
    assert "" + dsn + "" == dsn;
    assert !TakenForScheme("", user, password) by { NotTaken(user, password); }
  }

  lemma NotTaken(user: string, password: string)
    requires !MakesUpScheme(user, password)
    ensures !TakenForScheme("", user, password)
  {
  }
}
