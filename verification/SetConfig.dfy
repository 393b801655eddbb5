/** Reading and changing the client's configuration. */
module SetConfig {
  import opened Stores
  import opened Monitor
  import Refinement
  import opened Repair
  import opened StartStop
  import opened Rename
  import opened Registry
  import RenameRefinement
  import DataSources
  import Recovery
  import Admission
  import Commands
  import Runs
  import opened Transitions
  import opened Lookup

  const NoConfig := Config("", "", "", "", "", "", "", false, false)

  predicate NameChar(c: char) {
    'a' <= c <= 'z' || 'A' <= c <= 'Z' || '0' <= c <= '9' || c == '_' || c == '-' || c == ':' || c == '.'
  }

  /** NameRegex. */
  predicate NameMatches(name: string) {
    2 <= |name| <= 60 && forall c | c in name :: NameChar(c)
  }

  /** A name that matches can be a segment of a key. */
  lemma NameIsSegment(name: string)
    requires NameMatches(name)
    ensures Refinement.ServiceName(name)
  {
    assert !NameChar('/');
  }

  /** The server's flags and credentials never contradict each other. */
  predicate Consistent(c: Config) {
    !(c.serverSSL && c.serverInsecureSSL) && (c.serverPassword == "" ==> c.serverUser == "")
  }

  /** The configuration a command starts from; a client without a file has an empty one. */
  function Loaded(file: Config): Config {
    if file.bindAddress == "" then file.(bindAddress := file.clientAddress) else file
  }

  method LoadConfig(a: Admin) returns (r: Outcome)
    modifies a`config, a`faults
    ensures a.faults >= old(a.faults) && (r.Ok? <==> a.faults == old(a.faults))
    ensures a.config == if r.Ok? then Loaded(a.file) else NoConfig
    ensures Consistent(a.file) ==> Consistent(a.config)
  {
    a.config := NoConfig;
    var failed := a.Call();
    if failed { return Err(Failed); }
    a.config := a.file;
    if a.config.bindAddress == "" {
      a.config := a.config.(bindAddress := a.config.clientAddress);
    }
    return Ok;
  }

  // ---------- the server ----------

  /** What the options say, and what remains: a new address drops flags and credentials. */
  predicate ServerConfigured(was: Config, cf: Config, now: Config) {
    && now == was.(serverAddress := now.serverAddress, serverUser := now.serverUser,
                   serverPassword := now.serverPassword,
                   serverSSL := now.serverSSL, serverInsecureSSL := now.serverInsecureSSL)
    && now.serverAddress == (if cf.serverAddress != "" then cf.serverAddress else was.serverAddress)
    && (now.serverUser, now.serverPassword) == (
         if cf.serverPassword != "" then (cf.serverUser, cf.serverPassword)
         else if cf.serverAddress != "" then ("", "") else (was.serverUser, was.serverPassword))
    && (now.serverSSL, now.serverInsecureSSL) == (
         if cf.serverSSL || cf.serverInsecureSSL then (cf.serverSSL, cf.serverInsecureSSL)
         else if cf.serverAddress != "" then (false, false) else (was.serverSSL, was.serverInsecureSSL))
  }

  method ServerOptions(a: Admin, cf: Config) returns (r: Outcome)
    modifies a`config
    ensures r.Ok? <==>
      !(cf.serverSSL && cf.serverInsecureSSL) && (cf.serverAddress != "" || old(a.config).serverAddress != "")
    ensures r.Ok? ==> ServerConfigured(old(a.config), cf, a.config)
    ensures r.Err? ==> a.config == old(a.config)
    ensures Consistent(old(a.config)) ==> Consistent(a.config)
  {
    if cf.serverSSL && cf.serverInsecureSSL { return Err(Failed); }
    if cf.serverAddress != "" {
      a.config := a.config.(serverAddress := cf.serverAddress, serverSSL := false, serverInsecureSSL := false,
                            serverUser := "", serverPassword := "");
    }
    if a.config.serverAddress == "" { return Err(Failed); }
    if cf.serverPassword != "" {
      a.config := a.config.(serverUser := cf.serverUser, serverPassword := cf.serverPassword);
    }
    if cf.serverSSL {
      a.config := a.config.(serverSSL := true, serverInsecureSSL := false);
    }
    if cf.serverInsecureSSL {
      a.config := a.config.(serverSSL := false, serverInsecureSSL := true);
    }
    return Ok;
  }

  /** Connecting: with a new address, the stores are those of the server that answers there. */
  method SetAPI(a: Admin, cf: Config, remote: World) returns (r: Outcome)
    modifies a`catalog, a`kv, a`instances, a`server, a`faults
    ensures a.faults >= old(a.faults) && (r.Ok? <==> a.faults == old(a.faults))
    ensures r.Ok? ==> a.State() == InUse(old(a.State()), cf, remote)
    ensures r.Err? ==> a.State() == old(a.State())
  {
    var failed := a.Call();
    if failed { return Err(Failed); }
    if cf.serverAddress != "" {
      a.catalog, a.kv, a.instances := remote.catalog, remote.kv, remote.instances;
      a.server := *;
    }
    return Ok;
  }

  function InUse(w: World, cf: Config, remote: World): World {
    if cf.serverAddress != "" then remote.(units := w.units, files := w.files) else w
  }

  // ---------- the client's name ----------

  predicate Occupied(node: Option<Node>) { node.Some? && |node.value.services| > 0 }

  /** All services have arrived under the new name, and nothing is left under the old one. */
  predicate NodeMoved(w: World, now: World, address: string, oldName: string, newName: string) {
    var ids := w.Services(oldName).Keys;
    && oldName in w.catalog
    && now.catalog == MovedCatalog(w.catalog, oldName, newName, address, ids, ids) - {oldName}
  }

  /** The keys and instances have moved with them. */
  ghost predicate DataMoved(w: World, now: World, oldName: string, newName: string)
    requires oldName != ""
  {
    var moved := StoredFor(w.kv, oldName, w.Services(oldName).Keys);
    && UnderWay(w.kv, now.kv, oldName, newName, moved, moved)
    && RecordsRenamed(w.instances, w.files, now.instances, now.files, UuidsAt(w.kv, moved), oldName, newName)
  }

  /** What the loops need in order to move everything. */
  ghost predicate Movable(w: World, oldName: string, newName: string) {
    && Renamable(w.kv, oldName, newName) && DistinctUuids(w.kv, oldName) &&
      KnownInstances(w.kv, oldName, w.instances, w.files)
    && forall id | id in w.Services(oldName) :: '/' !in id
  }

  /**
   * The client takes another name. Refused without any effect if the name is taken, and without --force if
   * there are services. Otherwise the old node is deregistered even if some services did not make it: it stays only
   * if this very call fails as well.
   */
  method RenameClient(a: Admin, newName: string, force: bool)
    returns (r: Outcome, ghost registered: set<string>, ghost dropped: set<string>)
    requires a.config.clientName != "" && newName != a.config.clientName
    modifies a`config, a`catalog, a`kv, a`instances, a`files, a`faults
    ensures a.faults >= old(a.faults)
    ensures
      var w, oldName := old(a.State()), old(a.config).clientName;
      && a.config == (if r.Ok? then old(a.config).(clientName := newName) else old(a.config))
      && (r.Err? ==> a.State() == w)
      && (w.Services(newName) != map[] || (w.Services(oldName) != map[] && !force) ==> r.Err?)
      && (w.Services(newName) == map[] && (w.Services(oldName) == map[] || force) && a.faults == old(a.faults) ==>
            r.Ok?)
      && (r.Ok? && w.Services(oldName) == map[] ==> a.State() == w)
      && (r.Ok? && w.Services(oldName) != map[] ==>
            && dropped <= registered <= w.Services(oldName).Keys && oldName in w.catalog
            && (var moved :=
                  MovedCatalog(w.catalog, oldName, newName, old(a.config).clientAddress, registered, dropped);
                || a.catalog == moved - {oldName}
                || (a.catalog == moved && old(a.faults) + |w.Services(oldName).Keys - dropped| < a.faults))
            && a.State().Services(newName) == Arrived(map[], w.Services(oldName), oldName, newName, registered))
      && (r.Ok? && w.Services(oldName) != map[] && a.faults == old(a.faults) ==>
            && registered == w.Services(oldName).Keys
            && NodeMoved(w, a.State(), old(a.config).clientAddress, oldName, newName)
            && (Movable(w, oldName, newName) ==> DataMoved(w, a.State(), oldName, newName)))
  {
    hide MovedCatalog, UnderWay, Renamable, RecordsRenamed, UuidsAt, DistinctUuids, KnownInstances, StoredFor,
      Arrived;
    registered, dropped := {}, {};
    ghost var w, oldName := a.State(), a.config.clientName;
    var failed, node := a.ReadNode(newName);
    if failed { return Err(Failed), {}, {}; }
    if Occupied(node) { return Err(Failed), {}, {}; }
    failed, node := a.ReadNode(a.config.clientName);
    if failed { return Err(Failed), {}, {}; }
    if Occupied(node) {
      if !force { return Err(Failed), {}, {}; }
      var errs;
      ghost var keysCopied, keysDropped;
      errs, registered, dropped, keysCopied, keysDropped :=
        RenameClientNameInServices(a, node.value.services, a.config.clientName, newName);
      MovedTo(w, oldName, newName, a.config.clientAddress, registered, dropped);
      failed := a.DeregisterNode(a.config.clientName);
    } else {
      assert w.Services(oldName) == map[];
    }
    a.config := a.config.(clientName := newName);
    return Ok, registered, dropped;
  }

  lemma MovedTo(w: World, oldName: string, newName: string, address: string, registered: set<string>,
                dropped: set<string>)
    requires oldName in w.catalog && oldName != newName && registered <= w.catalog[oldName].services.Keys
    requires w.Services(newName) == map[]
    ensures
      var catalog := MovedCatalog(w.catalog, oldName, newName, address, registered, dropped);
      var arrived := Arrived(map[], w.catalog[oldName].services, oldName, newName, registered);
      && w.(catalog := catalog).Services(newName) == arrived
      && w.(catalog := catalog - {oldName}).Services(newName) == arrived
  {
    hide RenamedService;
  }

  /** Local services may have gone; those that are there run or do not run as before. */
  predicate NoneSwitched(was: map<string, bool>, now: map<string, bool>) {
    forall u | u in now :: u in was && now[u] == was[u]
  }

  lemma RepairSwitchesNone(was: World, now: World, client: string)
    requires FullyRepaired(was, now, client)
    ensures NoneSwitched(was.units, now.units)
  {
    hide Wanted, Matched, KeysKept, InstancesKept, UnderMissing, UuidUnderMissing;
  }

  /** The options, or for a new client the host name; a name in use is taken over only with --force. */
  method ClientNameOptions(a: Admin, cf: Config, force: bool, hostname: string) returns (r: Outcome)
    modifies a`config, a`catalog, a`kv, a`units, a`instances, a`files, a`faults
    ensures a.faults >= old(a.faults)
    ensures a.config == old(a.config).(clientName := a.config.clientName)
    ensures r.Ok? ==>
      && NameMatches(a.config.clientName)
      && a.config.clientName == (
           if cf.clientName != "" then cf.clientName
           else if old(a.config).clientName != "" then old(a.config).clientName else hostname)
    ensures
      var w, was := old(a.State()), old(a.config);
      var renaming := was.clientName != "" && cf.clientName != "" && cf.clientName != was.clientName;
      && (renaming && r.Err? && a.State() != w ==> !NameMatches(cf.clientName) && a.config.clientName == cf.clientName)
      && (renaming && w.Services(was.clientName) != map[] && !force ==> r.Err? && a.State() == w)
      && (renaming && w.Services(cf.clientName) != map[] ==> r.Err? && a.State() == w)
      && (renaming && w.Services(cf.clientName) == map[] && w.Services(was.clientName) != map[] && force
          && a.faults == old(a.faults) ==>
            && NodeMoved(w, a.State(), was.clientAddress, was.clientName, cf.clientName)
            && (Movable(w, was.clientName, cf.clientName) ==> DataMoved(w, a.State(), was.clientName, cf.clientName))
            && a.units == old(a.units)
            && a.Services() == Arrived(map[], w.Services(was.clientName), was.clientName, cf.clientName,
                                       w.Services(was.clientName).Keys)
            && (r.Ok? <==> NameMatches(cf.clientName)))
      && (was.clientName != "" && !renaming ==>
            a.State() == w && (r.Ok? <==> NameMatches(was.clientName)) && a.faults == old(a.faults))
    ensures old(a.config).clientName != "" ==> a.units == old(a.units)
    ensures a.faults == old(a.faults) ==> NoneSwitched(old(a.units), a.units)
    ensures
      var w, name := old(a.State()), if cf.clientName != "" then cf.clientName else hostname;
      old(a.config).clientName == "" ==>
        && a.config.clientName == name
        && (w.Services(name) == map[] || !force ==> a.State() == w)
        && (w.Services(name) != map[] && !force ==> r.Err?)
        && (w.Services(name) == map[] ==> (r.Ok? <==> NameMatches(name) && a.faults == old(a.faults)))
        && (w.Services(name) != map[] && force && a.faults == old(a.faults) ==>
              FullyRepaired(w, a.State(), name) && (r.Ok? <==> NameMatches(name)))
  {
    hide NameMatches, NodeMoved, DataMoved, Movable, Arrived, Repaired, PartlyRepaired, FullyRepaired;
    ghost var start := a.State();
    if a.config.clientName == "" {
      a.config := a.config.(clientName := if cf.clientName != "" then cf.clientName else hostname);
      var failed, node := a.ReadNode(a.config.clientName);
      if failed { return Err(Failed); }
      if Occupied(node) {
        if !force { return Err(Failed); }
        var repaired;
        ghost var readable;
        repaired, readable := RepairInstallation(a); // its outcome is ignored
        if a.faults == old(a.faults) {
          RepairSwitchesNone(start, a.State(), a.config.clientName);
        }
      }
    } else if cf.clientName != "" && cf.clientName != a.config.clientName {
      ghost var registered, dropped;
      r, registered, dropped := RenameClient(a, cf.clientName, force);
      if r.Err? { return; }
    }
    if !NameMatches(a.config.clientName) { return Err(Failed); }
    return Ok;
  }

  /** All calls of a rename have succeeded: what can be moved has moved. */
  ghost predicate Moved(w: World, now: World, address: string, oldName: string, newName: string) {
    && oldName != ""
    && NodeMoved(w, now, address, oldName, newName)
    && (Movable(w, oldName, newName) ==> DataMoved(w, now, oldName, newName))
    && now.units.Keys == w.units.Keys
  }

  /** A forced rename whose calls all succeed turns a represented registry into itself under the new name. */
  lemma RenameKeepsRegistry(w: World, now: World, address: string, parent: string, reg: Registry, oldName: string,
                            newName: string)
    requires Represents(w, oldName, parent, reg) && FilesAgree(w, reg)
    requires RenameRefinement.Names(w, reg, oldName, newName) && reg != map[]
    requires Moved(w, now, address, oldName, newName)
    ensures
      var reg' := RenameRefinement.RenamedRegistry(reg, oldName, newName);
      && CatalogAgrees(now.Services(newName), reg') && UnitsAgree(now.units, reg') && KeysAgree(now.kv, newName, reg')
      && (Represents(now, newName, parent, reg') <==> Key(QueriesKind("mongodb"), oldName) !in reg)
      && FilesAgree(now, reg')
    ensures forall u | u in w.instances ::
      u in now.instances && now.instances[u].dsn == DataSources.DsnAfterRename(w, reg, oldName, u)
  {
    hide Represents, UnderWay, Renamable, DistinctUuids, KnownInstances, RecordsRenamed, StoredFor, UuidsAt,
      MovedCatalog, RenameRefinement.NoClash, RenameRefinement.Clean, RenameRefinement.RenamedRegistry, CatalogAgrees,
      UnitsAgree, KeysAgree;
    var calm := now.(units := w.units);
    RenameRefinement.RenamingIsSound(w, parent, reg, oldName, newName);
    RenameRefinement.RenameRefines(w, calm, address, parent, reg, oldName, newName);
    SameUnitsAgree(w.units, now.units, RenameRefinement.RenamedRegistry(reg, oldName, newName));
    forall u | u in w.instances
      ensures u in now.instances && now.instances[u].dsn == DataSources.DsnAfterRename(w, reg, oldName, u)
    {
      DataSources.RenamePublishes(w, calm, address, parent, reg, oldName, newName, u);
    }
    assert calm.Services(newName) == now.Services(newName);
    if Represents(calm, newName, parent, RenameRefinement.RenamedRegistry(reg, oldName, newName)) {
      Recovery.RunningDoesNotMatter(calm, now, newName, parent,
                                    RenameRefinement.RenamedRegistry(reg, oldName, newName));
    }
    if Represents(now, newName, parent, RenameRefinement.RenamedRegistry(reg, oldName, newName)) {
      Recovery.RunningDoesNotMatter(now, calm, newName, parent,
                                    RenameRefinement.RenamedRegistry(reg, oldName, newName));
    }
  }

  lemma SameUnitsAgree(was: map<string, bool>, now: map<string, bool>, reg: Registry)
    requires UnitsAgree(was, reg) && now.Keys == was.Keys
    ensures UnitsAgree(now, reg)
  {
    hide IsUnitOf, UnitOf;
    assert forall u :: u in now <==> u in was;
  }

  // ---------- the addresses ----------

  /** An address that is set changes only while there are no services. */
  predicate Kept(was: string, now: string, services: map<string, Service>) {
    was != "" && now != was ==> services == map[]
  }

  /** Another client address is asked for. */
  predicate Readdressing(was: Config, cf: Config) {
    was.clientAddress != "" && cf.clientAddress != "" && cf.clientAddress != was.clientAddress
  }

  /** Another bind address is asked for. */
  predicate Rebinding(was: Config, cf: Config) {
    was.bindAddress != "" && cf.bindAddress != "" && cf.bindAddress != was.bindAddress
  }

  /** The addresses that the options lead to; the client address may come from the server's response header. */
  function NewClientAddress(was: Config, cf: Config, header: string): string {
    if cf.clientAddress != "" then cf.clientAddress else if was.clientAddress != "" then was.clientAddress else header
  }

  function NewBindAddress(was: Config, cf: Config, header: string): string {
    if cf.bindAddress != "" then cf.bindAddress
    else if was.bindAddress != "" then was.bindAddress
    else NewClientAddress(was, cf, header)
  }

  /** The addresses can become what the options say. */
  predicate AddressesAllowed(was: Config, cf: Config, header: string, interfaces: seq<string>, services: map<string,
                             Service>) {
    && NewClientAddress(was, cf, header) != ""
    && (Readdressing(was, cf) || Rebinding(was, cf) ==> services == map[])
    && IsAddressLocal(interfaces, NewBindAddress(was, cf, header))
  }

  method ClientAddressOptions(a: Admin, cf: Config, header: string) returns (r: Outcome, isDetectedIP: bool)
    modifies a`config, a`faults
    ensures a.faults >= old(a.faults)
    ensures a.config == old(a.config).(clientAddress := a.config.clientAddress)
    ensures
      var was, now := old(a.config).clientAddress, a.config.clientAddress;
      && (r.Ok? ==> now != "" && Kept(was, now, a.Services()))
      && (r.Ok? ==> now == if cf.clientAddress != "" then cf.clientAddress else if was != "" then was else header)
      && (was != "" && cf.clientAddress != "" && cf.clientAddress != was && a.Services() != map[] ==>
            r.Err? && now == was)
      && (was != "" && (cf.clientAddress == "" || cf.clientAddress == was) ==> r.Ok?)
      && (a.faults == old(a.faults) ==>
            (r.Ok? <==> NewClientAddress(old(a.config), cf, header) != "" &&
                        (Readdressing(old(a.config), cf) ==> a.Services() == map[])))
      && isDetectedIP == (was == "" && cf.clientAddress == "")
  {
    isDetectedIP := false;
    if a.config.clientAddress == "" {
      if cf.clientAddress != "" {
        a.config := a.config.(clientAddress := cf.clientAddress);
      } else {
        a.config := a.config.(clientAddress := header);
        isDetectedIP := true;
      }
      if a.config.clientAddress == "" { return Err(Failed), isDetectedIP; }
    } else if cf.clientAddress != "" && cf.clientAddress != a.config.clientAddress {
      var failed, node := a.ReadNode(a.config.clientName);
      if failed { return Err(Failed), isDetectedIP; }
      if Occupied(node) { return Err(Failed), isDetectedIP; }
      a.config := a.config.(clientAddress := cf.clientAddress);
    }
    return Ok, isDetectedIP;
  }

  method BindAddressOptions(a: Admin, cf: Config, detected: bool) returns (r: Outcome, isDetectedIP: bool)
    modifies a`config, a`faults
    ensures a.faults >= old(a.faults)
    ensures a.config == old(a.config).(bindAddress := a.config.bindAddress)
    ensures
      var was, now := old(a.config).bindAddress, a.config.bindAddress;
      && (r.Ok? ==> Kept(was, now, a.Services()))
      && (r.Ok? ==>
            now == if cf.bindAddress != "" then cf.bindAddress else if was != "" then was else a.config.clientAddress)
      && (was != "" && cf.bindAddress != "" && cf.bindAddress != was && a.Services() != map[] ==> r.Err? && now == was)
      && (a.faults == old(a.faults) ==> (r.Ok? <==> (Rebinding(old(a.config), cf) ==> a.Services() == map[])))
      && (r.Ok? ==> isDetectedIP == (detected && !(was == "" && cf.bindAddress != "")))
  {
    isDetectedIP := detected;
    if a.config.bindAddress == "" {
      a.config := a.config.(bindAddress := a.config.clientAddress);
      if cf.bindAddress != "" {
        a.config := a.config.(bindAddress := cf.bindAddress);
        isDetectedIP := false;
      }
    } else if cf.bindAddress != "" && cf.bindAddress != a.config.bindAddress {
      var failed, node := a.ReadNode(a.config.clientName);
      if failed { return Err(Failed), isDetectedIP; }
      if Occupied(node) { return Err(Failed), isDetectedIP; }
      a.config := a.config.(bindAddress := cf.bindAddress);
    }
    return Ok, isDetectedIP;
  }

  /** isAddressLocal, over the network interfaces in CIDR notation. */
  predicate IsAddressLocal(interfaces: seq<string>, address: string) {
    exists i | 0 <= i < |interfaces| :: address + "/" <= interfaces[i]
  }

  /** An address is local exactly if it is that of an interface, whatever its mask. */
  lemma LocalMeans(interfaces: seq<string>, address: string)
    ensures IsAddressLocal(interfaces, address) <==> exists mask :: address + "/" + mask in interfaces
  {
    if IsAddressLocal(interfaces, address) {
      var i :| 0 <= i < |interfaces| && address + "/" <= interfaces[i];
      assert interfaces[i] == address + "/" + interfaces[i][|address| + 1..];
    }
    if mask :| address + "/" + mask in interfaces {
      var i :| 0 <= i < |interfaces| && interfaces[i] == address + "/" + mask;
    }
  }

  // ---------- the command ----------

  predicate ServerPart(was: Config, now: Config, cf: Config) {
    && (Consistent(was) ==> Consistent(now))
    && ServerConfigured(was, cf, was.(serverAddress := now.serverAddress, serverUser := now.serverUser,
                                      serverPassword := now.serverPassword, serverSSL := now.serverSSL,
                                      serverInsecureSSL := now.serverInsecureSSL))
    && now.mySQLPassword == was.mySQLPassword
  }

  predicate NamePart(was: Config, now: Config, cf: Config) {
    && NameMatches(now.clientName)
    && (cf.clientName != "" ==> now.clientName == cf.clientName)
    && (cf.clientName == "" && was.clientName != "" ==> now.clientName == was.clientName)
  }

  predicate AddressPart(was: Config, now: Config, cf: Config, services: map<string, Service>, interfaces: seq<string>) {
    && now.clientAddress != "" && Kept(was.clientAddress, now.clientAddress, services)
    && now.bindAddress != "" && Kept(was.bindAddress, now.bindAddress, services)
    && IsAddressLocal(interfaces, now.bindAddress)
    && (cf.clientAddress != "" ==> now.clientAddress == cf.clientAddress)
    && (cf.bindAddress != "" ==> now.bindAddress == cf.bindAddress)
  }

  /** What a configuration that gets written has to do with the one before. */
  predicate Configured(was: Config, now: Config, cf: Config, services: map<string, Service>, interfaces: seq<string>) {
    ServerPart(was, now, cf) && NamePart(was, now, cf) && AddressPart(was, now, cf, services, interfaces)
  }

  /** Another name is asked for. */
  predicate Renaming(was: Config, cf: Config) {
    was.clientName != "" && cf.clientName != "" && cf.clientName != was.clientName
  }

  predicate ServerKnown(was: Config, cf: Config) {
    !(cf.serverSSL && cf.serverInsecureSSL) && (cf.serverAddress != "" || was.serverAddress != "")
  }

  /** A rename that is let through: forced, with services to move and a name that is free. */
  predicate Forced(was: Config, cf: Config, force: bool, w: World) {
    && Renaming(was, cf) && force && ServerKnown(was, cf)
    && w.Services(was.clientName) != map[] && w.Services(cf.clientName) == map[]
  }

  /** The options about the server and the name. */
  method Identify(a: Admin, cf: Config, force: bool, hostname: string, remote: World) returns (r: Outcome)
    modifies a`config, a`catalog, a`kv, a`units, a`instances, a`server, a`files, a`faults
    ensures a.faults >= old(a.faults)
    ensures r.Ok? ==> ServerPart(old(a.config), a.config, cf) && NamePart(old(a.config), a.config, cf)
    ensures a.config.clientAddress == old(a.config).clientAddress && a.config.bindAddress == old(a.config).bindAddress
    ensures
      var was, w := old(a.config), InUse(old(a.State()), cf, remote);
      && (Renaming(was, cf) && w.Services(was.clientName) != map[] && !force ==> r.Err?)
      && (Renaming(was, cf) && w.Services(cf.clientName) != map[] ==> r.Err?)
      && (Forced(was, cf, force, w) && a.faults == old(a.faults) ==>
            && Moved(w, a.State(), was.clientAddress, was.clientName, cf.clientName)
            && a.Services() == Arrived(map[], w.Services(was.clientName), was.clientName, cf.clientName,
                                       w.Services(was.clientName).Keys)
            && (r.Ok? <==> NameMatches(cf.clientName)))
    ensures old(a.config).clientName != "" ==> a.units == old(a.units)
    ensures a.faults == old(a.faults) ==> NoneSwitched(old(a.units), a.units)
    ensures
      var name := if cf.clientName != "" then cf.clientName else hostname;
      old(a.config).clientName == "" && InUse(old(a.State()), cf, remote).Services(name) != map[] && !force ==> r.Err?
  {
    hide NameMatches, NodeMoved, DataMoved, Movable, Arrived, FullyRepaired;
    r := ServerOptions(a, cf);
    if r.Err? { return; }
    r := SetAPI(a, cf, remote);
    if r.Err? { return; }
    r := ClientNameOptions(a, cf, force, hostname);
  }

  /** The options about the addresses; they leave all stores alone. */
  method Address(a: Admin, cf: Config, header: string, interfaces: seq<string>) returns (r: Outcome)
    modifies a`config, a`faults
    ensures a.faults >= old(a.faults)
    ensures a.config == old(a.config).(clientAddress := a.config.clientAddress, bindAddress := a.config.bindAddress)
    ensures r.Ok? ==> AddressPart(old(a.config), a.config, cf, a.Services(), interfaces)
    ensures a.faults == old(a.faults) ==>
      (r.Ok? <==> AddressesAllowed(old(a.config), cf, header, interfaces, a.Services()))
  {
    hide IsAddressLocal;
    var detected;
    r, detected := ClientAddressOptions(a, cf, header);
    if r.Err? { return; }
    r, detected := BindAddressOptions(a, cf, detected);
    if r.Err? { return; }
    if !IsAddressLocal(interfaces, a.config.bindAddress) { return Err(Failed); }
  }

  lemma SameAddresses(was: Config, mid: Config, cf: Config, header: string, interfaces: seq<string>,
                      services: map<string, Service>)
    requires mid.clientAddress == was.clientAddress && mid.bindAddress == was.bindAddress
    ensures AddressesAllowed(mid, cf, header, interfaces,
                             services) == AddressesAllowed(was, cf, header, interfaces, services)
  {
    hide IsAddressLocal;
  }

  /** The part of SetConfig that decides on the new configuration. */
  method Decide(a: Admin, cf: Config, force: bool, hostname: string, header: string, interfaces: seq<string>,
                remote: World)
    returns (r: Outcome)
    modifies a`config, a`catalog, a`kv, a`units, a`instances, a`server, a`files, a`faults
    ensures a.faults >= old(a.faults)
    ensures r.Ok? ==> Configured(old(a.config), a.config, cf, a.Services(), interfaces)
    ensures
      var was, w := old(a.config), InUse(old(a.State()), cf, remote);
      && (Renaming(was, cf) && w.Services(was.clientName) != map[] && !force ==> r.Err?)
      && (Renaming(was, cf) && w.Services(cf.clientName) != map[] ==> r.Err?)
      && (Forced(was, cf, force, w) && a.faults == old(a.faults) ==>
            && Moved(w, a.State(), was.clientAddress, was.clientName, cf.clientName)
            && (r.Ok? <==> NameMatches(cf.clientName) &&
                           AddressesAllowed(was, cf, header, interfaces, w.Services(was.clientName)))
            && (r.Ok? ==> a.Services() == Arrived(map[], w.Services(was.clientName), was.clientName, cf.clientName,
                                                  w.Services(was.clientName).Keys)))
    ensures old(a.config).clientName != "" ==> a.units == old(a.units)
    ensures a.faults == old(a.faults) ==> NoneSwitched(old(a.units), a.units)
    ensures
      var name := if cf.clientName != "" then cf.clientName else hostname;
      old(a.config).clientName == "" && InUse(old(a.State()), cf, remote).Services(name) != map[] && !force ==> r.Err?
  {
    hide NameMatches, Moved, IsAddressLocal, ServerConfigured, Consistent, InUse, AddressesAllowed, Arrived,
      ServerKnown, NoneSwitched;
    ghost var was, w := a.config, InUse(a.State(), cf, remote);
    r := Identify(a, cf, force, hostname, remote);
    if r.Err? { return; }
    ghost var mid := a.config;
    SameAddresses(was, mid, cf, header, interfaces, a.Services());
    if w.Services(was.clientName) != map[] {
      ArrivedAll(w.Services(was.clientName), was.clientName, cf.clientName);
      SameEmptiness(was, cf, header, interfaces, w.Services(was.clientName), a.Services());
    }
    r := Address(a, cf, header, interfaces);
    if r.Ok? {
      BothParts(was, mid, a.config, cf, a.Services(), interfaces);
    }
  }

  lemma SameEmptiness(was: Config, cf: Config, header: string, interfaces: seq<string>, s1: map<string, Service>,
                      s2: map<string, Service>)
    requires s1 != map[]
    ensures s2 != map[] ==>
      AddressesAllowed(was, cf, header, interfaces, s1) == AddressesAllowed(was, cf, header, interfaces, s2)
  {
    hide IsAddressLocal;
  }

  lemma BothParts(was: Config, mid: Config, now: Config, cf: Config, services: map<string, Service>,
                  interfaces: seq<string>)
    requires ServerPart(was, mid, cf) && NamePart(was, mid, cf)
    requires mid.clientAddress == was.clientAddress && mid.bindAddress == was.bindAddress
    requires now == mid.(clientAddress := now.clientAddress, bindAddress := now.bindAddress)
    requires AddressPart(mid, now, cf, services, interfaces)
    ensures Configured(was, now, cf, services, interfaces)
  {
    hide NameMatches, IsAddressLocal;
  }

  lemma ArrivedAll(services: map<string, Service>, oldName: string, newName: string)
    requires services != map[]
    ensures Arrived(map[], services, oldName, newName, services.Keys) != map[]
  {
    hide RenamedService;
    var id :| id in services;
    assert id in Arrived(map[], services, oldName, newName, services.Keys);
  }

  /** Services of the two kinds that the local agent runs. */
  predicate RunByAgent(kind: string) { kind == QueriesKind("mysql") || kind == QueriesKind("mongodb") }

  /** Every such service is installed locally. */
  predicate SourcesInstalled(services: map<string, Service>, units: map<string, bool>, kind: string) {
    forall id | id in services && services[id].kind == kind :: UnitOfService(services[id]) in units
  }

  /** There is at most one of each kind. */
  predicate OnePerKind(services: map<string, Service>) {
    forall i, j | i in services && j in services && services[i].kind == services[j].kind &&
      RunByAgent(services[i].kind) :: i == j
  }

  lemma ArrivedSources(services: map<string, Service>, oldName: string, newName: string, units: map<string, bool>,
                       kind: string)
    ensures
      var arrived := Arrived(map[], services, oldName, newName, services.Keys);
      && SourcesInstalled(arrived, units, kind) == SourcesInstalled(services, units, kind)
      && (OnePerKind(services) ==> OnePerKind(arrived))
  {
    hide RunByAgent, UnitName;
    var arrived := Arrived(map[], services, oldName, newName, services.Keys);
    assert arrived.Keys == services.Keys;
    assert forall id | id in services :: arrived[id].kind == services[id].kind && arrived[id].port == services[id].port;
  }

  /** Restarting the agent's service of one kind: nothing to do if there is none. */
  method RestartSources(a: Admin, kind: string) returns (r: Outcome, ghost anew: bool)
    requires RunByAgent(kind)
    modifies a`units, a`faults
    ensures a.faults >= old(a.faults) && a.units.Keys == old(a.units).Keys
    ensures a.faults == old(a.faults) && a.serviceName == "" && OnePerKind(a.Services()) ==>
      (r.Ok? <==> SourcesInstalled(a.Services(), a.units, kind)) &&
      (r.Ok? ==> SourcesRun(a.Services(), a.units, kind))
    ensures OthersKept(a.Services(), old(a.units), a.units, kind)
    ensures a.faults == old(a.faults) && r.Ok? && Monitored(a.Services(), kind, a.serviceName) ==> anew
  {
    hide UnitName, SvcTypes;
    ghost var units, services, name := a.units, a.Services(), a.serviceName;
    AgentKindIsKnown(kind);
    var affected;
    ghost var unseen;
    affected, r, unseen, anew := StartStopMonitoring(a, Restart, kind);
    if Monitored(services, kind, name) {
      var id :| id in services && Matches(services[id], kind, name) &&
        Switched(units, a.units, UnitOfService(services[id]), Restart, affected, r.Ok?, a.faults == old(a.faults),
                 unseen);
      OnlyThisSwitched(services, units, a.units, kind, id, affected, r.Ok?, a.faults == old(a.faults), unseen);
    } else {
      NoSources(services, a.units, kind, name);
    }
    if r == Err(NoService) { r := Ok; }
  }

  /** The local services of a kind. */
  predicate UnitOfKind(services: map<string, Service>, u: string, kind: string) {
    exists id | id in services :: services[id].kind == kind && UnitOfService(services[id]) == u
  }

  /** Those that are installed run. */
  predicate SourcesRun(services: map<string, Service>, units: map<string, bool>, kind: string) {
    forall u | u in units && UnitOfKind(services, u, kind) :: units[u]
  }

  /** All others are as they were. */
  predicate OthersKept(services: map<string, Service>, was: map<string, bool>, now: map<string, bool>, kind: string) {
    now.Keys == was.Keys && forall u | u in now && !UnitOfKind(services, u, kind) :: now[u] == was[u]
  }

  lemma OnlyThisSwitched(services: map<string, Service>, was: map<string, bool>, now: map<string, bool>, kind: string,
                         id: string, affected: bool, ok: bool, faultless: bool, unseen: bool)
    requires id in services && services[id].kind == kind
    requires Switched(was, now, UnitOfService(services[id]), Restart, affected, ok, faultless, unseen)
    ensures OthersKept(services, was, now, kind)
    ensures faultless && RunByAgent(kind) && OnePerKind(services) && ok ==> SourcesRun(services, now, kind)
  {
    hide UnitOfService, RunByAgent;
    forall u | u in now && u != UnitOfService(services[id])
      ensures now[u] == was[u]
    {
    }
    if RunByAgent(kind) && OnePerKind(services) {
      forall u | UnitOfKind(services, u, kind)
        ensures u == UnitOfService(services[id])
      {
      }
    }
  }

  lemma NoSources(services: map<string, Service>, units: map<string, bool>, kind: string, name: string)
    requires !Monitored(services, kind, name)
    ensures OthersKept(services, units, units, kind) && (name == "" ==> SourcesRun(services, units, kind))
  {
    hide UnitOfService;
    if name == "" {
      forall id | id in services
        ensures services[id].kind != kind
      {
        assert !Matches(services[id], kind, name);
      }
    }
  }

  lemma AgentKindIsKnown(kind: string)
    requires RunByAgent(kind)
    ensures kind in SvcTypes
  {
    hide QueriesKind;
  }

  /** The local agent's file gets the new server; its services are restarted, one kind after the other. */
  method SyncAgent(a: Admin, agentInstalled: bool) returns (r: Outcome, ghost anew: set<string>)
    modifies a`units, a`access, a`faults
    ensures a.faults >= old(a.faults) && a.units.Keys == old(a.units).Keys
    ensures a.faults == old(a.faults) && a.serviceName == "" && OnePerKind(a.Services()) ==>
      (r.Ok? <==> (agentInstalled ==> AgentCanRestart(a.Services(), a.units))) &&
      (r.Ok? && agentInstalled ==> AgentRuns(a.Services(), a.units))
    ensures AgentSynced(a.Services(), old(a.units), a.units, agentInstalled)
    ensures agentInstalled && (r.Ok? || a.faults == old(a.faults)) ==> a.access == AccessOf(a.config)
    ensures a.access == old(a.access) || (agentInstalled && a.access == AccessOf(a.config))
    ensures a.faults == old(a.faults) && r.Ok? && agentInstalled ==>
      forall kind | RunByAgent(kind) && Monitored(a.Services(), kind, a.serviceName) :: kind in anew
  {
    anew := {};
    hide OnePerKind, SourcesInstalled, QueriesKind, SourcesRun, OthersKept, UnitOfKind, AgentSynced, AgentRuns;
    if !agentInstalled { NothingSynced(a.Services(), a.units); return Ok, anew; }
    ghost var services := a.Services();
    var failed := a.WriteAccess();
    if failed { NothingSynced(a.Services(), a.units); return Err(Failed), anew; }
    ghost var before, first, second := a.units, false, false;
    r, first := RestartSources(a, QueriesKind("mysql"));
    ghost var mid := a.units;
    FirstSynced(services, before, mid);
    if r.Err? {
      SameInstalled(services, mid, mid, QueriesKind("mysql"));
      return;
    }
    r, second := RestartSources(a, QueriesKind("mongodb"));
    anew := (if first then {QueriesKind("mysql")} else {}) + if second then {QueriesKind("mongodb")} else {};
    BothSynced(services, before, mid, a.units);
    SameInstalled(services, mid, a.units, QueriesKind("mysql"));
  }

  /** The local services of the agent's two kinds run. */
  predicate AgentRuns(services: map<string, Service>, units: map<string, bool>) {
    SourcesRun(services, units, QueriesKind("mysql")) && SourcesRun(services, units, QueriesKind("mongodb"))
  }

  /** Other local services than those of the agent's two kinds are as they were; so are these without an agent. */
  predicate AgentSynced(services: map<string, Service>, was: map<string, bool>, now: map<string, bool>,
                        agentInstalled: bool)
  {
    && now.Keys == was.Keys && (!agentInstalled ==> now == was)
    && forall u | u in now && !UnitOfKind(services, u, QueriesKind("mysql")) &&
         !UnitOfKind(services, u, QueriesKind("mongodb")) :: now[u] == was[u]
  }

  lemma NothingSynced(services: map<string, Service>, units: map<string, bool>)
    ensures forall agentInstalled :: AgentSynced(services, units, units, agentInstalled)
  {
    hide UnitOfKind, QueriesKind;
  }

  lemma FirstSynced(services: map<string, Service>, was: map<string, bool>, now: map<string, bool>)
    requires OthersKept(services, was, now, QueriesKind("mysql"))
    ensures AgentSynced(services, was, now, true)
  {
    hide UnitOfKind, QueriesKind;
  }

  lemma BothSynced(services: map<string, Service>, was: map<string, bool>, mid: map<string, bool>,
                   now: map<string, bool>)
    requires AgentSynced(services, was, mid, true) && OthersKept(services, mid, now, QueriesKind("mongodb"))
    ensures AgentSynced(services, was, now, true)
    ensures SourcesRun(services, mid, QueriesKind("mysql")) && SourcesRun(services, now, QueriesKind("mongodb")) ==>
      AgentRuns(services, now)
  {
    hide QueriesKind, UnitOfService;
  }

  predicate AgentCanRestart(services: map<string, Service>, units: map<string, bool>) {
    SourcesInstalled(services, units, QueriesKind("mysql")) && SourcesInstalled(services, units, QueriesKind("mongodb"))
  }

  lemma SameInstalled(services: map<string, Service>, was: map<string, bool>, now: map<string, bool>, kind: string)
    requires was.Keys == now.Keys
    ensures SourcesInstalled(services, was, kind) == SourcesInstalled(services, now, kind)
  {
    hide UnitOfService;
  }

  /** What a forced rename needs, beyond its calls succeeding, to reach the configuration file. */
  predicate Completes(was: Config, cf: Config, header: string, interfaces: seq<string>, agentInstalled: bool,
                      services: map<string, Service>, units: map<string, bool>)
  {
    && NameMatches(cf.clientName)
    && !Readdressing(was, cf) && !Rebinding(was, cf)
    && NewClientAddress(was, cf, header) != ""
    && IsAddressLocal(interfaces, NewBindAddress(was, cf, header))
    && (agentInstalled ==> AgentCanRestart(services, units))
  }

  /**
   * SetConfig writes only a configuration that follows from the previous one. A forced rename whose calls all
   * succeed has moved the services in any case, but the new name reaches the file exactly if the rename
   * completes; otherwise the command fails and the file has the old name still.
   */
  method SetConfig(a: Admin, cf: Config, force: bool, hostname: string, header: string, interfaces: seq<string>,
                   agentInstalled: bool, remote: World)
    returns (r: Outcome, ghost written: bool, ghost anew: set<string>)
    modifies a`config, a`file, a`access, a`catalog, a`kv, a`units, a`instances, a`server, a`files, a`faults
    ensures a.faults >= old(a.faults)
    ensures a.file == if written then a.config else old(a.file)
    ensures written ==> Configured(old(a.config), a.config, cf, a.Services(), interfaces)
    ensures r.Ok? ==> written
    ensures r.Err? && written ==> cf.serverAddress != "" || cf.serverPassword != ""
    ensures r.Ok? && (cf.serverAddress != "" || cf.serverPassword != "") ==>
      (forall u | u in a.units :: a.units[u]) && (a.faults == old(a.faults) ==> anew == a.units.Keys)
    ensures written && agentInstalled ==> a.access == AccessOf(a.file)
    ensures a.access == old(a.access) || (agentInstalled && a.access == AccessOf(a.config))
    ensures
      var name := if cf.clientName != "" then cf.clientName else hostname;
      old(a.config).clientName == "" && InUse(old(a.State()), cf, remote).Services(name) != map[] && !force ==> !written
    ensures r.Ok? && cf.serverAddress == "" && cf.serverPassword == "" ==>
      OnlyAgentRestarted(old(a.units), a.units, a.Services(), old(a.config).clientName == "", agentInstalled,
                         a.faults == old(a.faults), a.serviceName == "" && OnePerKind(a.Services()))
    ensures
      var was, w := old(a.config), InUse(old(a.State()), cf, remote);
      && (Renaming(was, cf) && w.Services(was.clientName) != map[] && !force ==> !written)
      && (Renaming(was, cf) && w.Services(cf.clientName) != map[] ==> !written)
      && (Forced(was, cf, force, w) && a.faults == old(a.faults) ==>
            && Moved(w, a.State(), was.clientAddress, was.clientName, cf.clientName)
            && (written ==> a.file.clientName == cf.clientName)
            && (r.Ok? <==> written)
            && (a.serviceName == "" && OnePerKind(w.Services(was.clientName)) ==>
                  (written <==> Completes(was, cf, header, interfaces, agentInstalled, w.Services(was.clientName),
                                          w.units))))
  {
    hide NameMatches, Moved, InUse, Arrived, Configured, OnePerKind, SourcesInstalled, IsAddressLocal, AgentCanRestart,
      QueriesKind, ServerKnown, NewClientAddress, NewBindAddress, NoneSwitched, AgentSynced, AgentRuns,
      OnlyAgentRestarted;
    written, anew := false, {};
    ghost var was, w := a.config, InUse(a.State(), cf, remote);
    ghost var services := w.Services(was.clientName);
    r := Decide(a, cf, force, hostname, header, interfaces, remote);
    DecisionMeans(was, cf, header, interfaces, agentInstalled, services, w.units);
    if r.Err? { return; }
    NamedAsAsked(was, a.config, cf, a.Services(), interfaces);
    ghost var mid := a.State();
    ghost var kinds;
    r, kinds := SyncAgent(a, agentInstalled);
    StillMoved(w, mid, a.State(), was.clientAddress, was.clientName, cf.clientName);
    AgentSame(services, a.Services(), was.clientName, cf.clientName, w.units, a.units);
    if r.Err? { return; }
    ghost var synced := a.units;
    r, written, anew := Persist(a, cf);
    if r.Ok? && cf.serverAddress == "" && cf.serverPassword == "" {
      SyncedOnly(old(a.units), mid.units, synced, a.Services(), was.clientName == "", agentInstalled,
                 a.faults == old(a.faults), a.serviceName == "" && OnePerKind(a.Services()));
    }
    StillMoved(w, mid, a.State(), was.clientAddress, was.clientName, cf.clientName);
  }

  /**
   * Without a new server or password, local services are as they were, except that those of an installed agent have
   * been restarted. A new client may have lost some to the repair that takes over its name.
   */
  predicate OnlyAgentRestarted(was: map<string, bool>, now: map<string, bool>, services: map<string, Service>,
                               newClient: bool, agentInstalled: bool, faultless: bool, plain: bool)
  {
    faultless || !newClient ==>
      && (!newClient ==> now.Keys == was.Keys)
      && (!agentInstalled ==> NoneSwitched(was, now))
      && (forall u | u in now && !UnitOfKind(services, u, QueriesKind("mysql")) &&
            !UnitOfKind(services, u, QueriesKind("mongodb")) :: u in was && now[u] == was[u])
      && (agentInstalled && faultless && plain ==> AgentRuns(services, now))
  }

  lemma SyncedOnly(was: map<string, bool>, mid: map<string, bool>, now: map<string, bool>,
                   services: map<string, Service>, newClient: bool, agentInstalled: bool, faultless: bool, plain: bool)
    requires if newClient then faultless ==> NoneSwitched(was, mid) else mid == was
    requires AgentSynced(services, mid, now, agentInstalled)
    requires agentInstalled && faultless && plain ==> AgentRuns(services, now)
    ensures OnlyAgentRestarted(was, now, services, newClient, agentInstalled, faultless, plain)
  {
    hide QueriesKind, UnitOfKind, AgentRuns;
  }

  /** The file, and after a change of server or password the restart of everything. */
  method Persist(a: Admin, cf: Config) returns (r: Outcome, ghost written: bool, ghost anew: set<string>)
    modifies a`file, a`units, a`faults
    ensures a.faults >= old(a.faults) && (a.faults == old(a.faults) ==> r.Ok?)
    ensures a.file == (if written then a.config else old(a.file)) && a.units.Keys == old(a.units).Keys
    ensures r.Ok? ==> written
    ensures r.Err? && written ==> cf.serverAddress != "" || cf.serverPassword != ""
    ensures if cf.serverAddress != "" || cf.serverPassword != ""
      then r.Ok? ==> (forall u | u in a.units :: a.units[u]) && (a.faults == old(a.faults) ==> anew == a.units.Keys)
      else a.units == old(a.units)
  {
    anew := {};
    var failed := a.WriteConfig();
    if failed { return Err(Failed), false, anew; }
    if cf.serverAddress != "" || cf.serverPassword != "" {
      var affected, all, errors;
      ghost var already, unseen;
      affected, all, errors, already, unseen, anew := StartStopAllMonitoring(a, Restart);
      if errors > 0 { return Err(Failed), true, anew; }
    }
    return Ok, true, anew;
  }

  lemma NamedAsAsked(was: Config, now: Config, cf: Config, services: map<string, Service>, interfaces: seq<string>)
    requires Configured(was, now, cf, services, interfaces)
    ensures cf.clientName != "" ==> now.clientName == cf.clientName
  {
    hide ServerPart, AddressPart, NameMatches;
  }

  lemma DecisionMeans(was: Config, cf: Config, header: string, interfaces: seq<string>, agentInstalled: bool,
                      services: map<string, Service>, units: map<string, bool>)
    ensures services != map[] ==>
      (Completes(was, cf, header, interfaces, agentInstalled, services, units) <==>
         && NameMatches(cf.clientName) && AddressesAllowed(was, cf, header, interfaces, services)
         && (agentInstalled ==> AgentCanRestart(services, units)))
  {
    hide NameMatches, IsAddressLocal, AgentCanRestart;
  }

  /** Restarting what has moved leaves it moved. */
  lemma StillMoved(w: World, mid: World, now: World, address: string, oldName: string, newName: string)
    requires now == mid.(units := now.units) && now.units.Keys == mid.units.Keys
    ensures Moved(w, mid, address, oldName, newName) ==>
      Moved(w, now, address, oldName, newName) && now.units.Keys == w.units.Keys
  {
    hide UnderWay, Renamable, DistinctUuids, KnownInstances, RecordsRenamed, StoredFor, UuidsAt, MovedCatalog;
  }

  lemma AgentSame(services: map<string, Service>, arrived: map<string, Service>, oldName: string, newName: string,
                  was: map<string, bool>, now: map<string, bool>)
    ensures arrived == Arrived(map[], services, oldName, newName, services.Keys) && was.Keys == now.Keys ==>
      && AgentCanRestart(arrived, now) == AgentCanRestart(services, was)
      && (OnePerKind(services) ==> OnePerKind(arrived))
  {
    hide Arrived, SourcesInstalled, OnePerKind, QueriesKind;
    if arrived == Arrived(map[], services, oldName, newName, services.Keys) && was.Keys == now.Keys {
      ArrivedSources(services, oldName, newName, was, QueriesKind("mysql"));
      ArrivedSources(services, oldName, newName, was, QueriesKind("mongodb"));
      SameInstalled(arrived, was, now, QueriesKind("mysql"));
      SameInstalled(arrived, was, now, QueriesKind("mongodb"));
    }
  }

  // ---------- renaming a client in agreement ----------

  /** In a represented state the agent's services are one per kind, and installed. */
  lemma AgentIsReady(w: World, client: string, parent: string, reg: Registry)
    requires Represents(w, client, parent, reg)
    ensures OnePerKind(w.Services(client)) && AgentCanRestart(w.Services(client), w.units)
  {
    hide Represents, ServiceID, UnitName, QueriesKind, ValidEntry;
    var services := w.Services(client);
    Runs.UnitsMatchServices(w, client, parent, reg);
    assert forall id | id in services :: UnitOfService(services[id]) in Wanted(services);
    forall i | i in services && RunByAgent(services[i].kind)
      ensures i == ServiceID(services[i].kind, 0)
    {
      var k := Runs.ServicesAreNamed(w, client, parent, reg, i);
      QueriesByAgent(k.kind);
      Refinement.EntryRole(k, reg[k]);
    }
  }

  lemma QueriesByAgent(kind: string)
    requires RunByAgent(kind)
    ensures IsQueries(kind)
  {
    KnownQueries("mysql");
    KnownQueries("mongodb");
  }

  /**
   * config --client-name --force, for a client in agreement whose calls all succeed: services, local services
   * and keys are those of the same registry under the new name, and so are the instances exactly if no MongoDB
   * source has the client's name. The file follows exactly if the name matches the pattern, the addresses are
   * known and the bind address is local.
   */
  method RenameCommand(a: Admin, newName: string, header: string, interfaces: seq<string>, agentInstalled: bool,
                       ghost reg: Registry) returns (r: Outcome, ghost written: bool)
    modifies a`config, a`file, a`access, a`catalog, a`kv, a`units, a`instances, a`server, a`files, a`faults
    ensures
      var was, w, parent := old(a.config), old(a.State()), a.agentParent;
      Represents(w, was.clientName, parent, reg) && FilesAgree(w, reg) &&
      RenameRefinement.Names(w, reg, was.clientName, newName) && reg != map[] && was.serverAddress != "" &&
        a.serviceName == "" && a.faults == old(a.faults) ==>
        var reg' := RenameRefinement.RenamedRegistry(reg, was.clientName, newName);
        var asked := NoConfig.(clientName := newName);
        && CatalogAgrees(a.State().Services(newName), reg') && UnitsAgree(a.units, reg') &&
          KeysAgree(a.kv, newName, reg')
        && (Represents(a.State(), newName, parent, reg') <==> Key(QueriesKind("mongodb"), was.clientName) !in reg)
        && FilesAgree(a.State(), reg')
        && (forall u | u in w.instances ::
              u in a.instances && a.instances[u].dsn == DataSources.DsnAfterRename(w, reg, was.clientName, u))
        && (r.Ok? <==> written)
        && a.file.clientName == (if written then newName else old(a.file).clientName)
        && (written <==> NameMatches(newName) && NewClientAddress(was, asked, header) != "" &&
                         IsAddressLocal(interfaces, NewBindAddress(was, asked, header)))
  {
    hide Represents, Moved, RenameRefinement.NoClash, RenameRefinement.Clean, RenameRefinement.RenamedRegistry,
      NameMatches,
      IsAddressLocal, CatalogAgrees, UnitsAgree, KeysAgree, QueriesKind, Configured, OnePerKind, AgentCanRestart,
      NewClientAddress, NewBindAddress;
    ghost var was, w, parent := a.config, a.State(), a.agentParent;
    ghost var sound := Represents(w, was.clientName, parent, reg) && FilesAgree(w, reg) &&
      RenameRefinement.Names(w, reg, was.clientName,
                             newName) && reg != map[] && was.serverAddress != "" && a.serviceName == "";
    if sound {
      AgentIsReady(w, was.clientName, parent, reg);
      HasServices(w, was.clientName, parent, reg);
    }
    ghost var anew;
    r, written, anew := SetConfig(a, NoConfig.(clientName := newName), true, "", header, interfaces, agentInstalled,
                                  a.State());
    if sound && a.faults == old(a.faults) {
      RenameKeepsRegistry(w, a.State(), was.clientAddress, parent, reg, was.clientName, newName);
    }
  }

  lemma HasServices(w: World, client: string, parent: string, reg: Registry)
    requires Represents(w, client, parent, reg) && reg != map[]
    ensures w.Services(client) != map[]
  {
    hide Represents;
    var k :| k in reg;
    Refinement.ServiceOfEntry(w, client, parent, reg, k);
  }

  // ---------- runs ----------

  /** The file, and the services that the server in use has under the client's current name. */
  datatype Snapshot = Snapshot(file: Config, services: map<string, Service>)

  /** A config command, or another command: those change no more of the file than the MySQL password. */
  ghost predicate Step(was: Snapshot, now: Snapshot) {
    || FileKept(was.file, Loaded(was.file), now.file)
    || exists cf, interfaces :: Configured(Loaded(was.file), now.file, cf, now.services, interfaces)
  }

  ghost predicate IsRun(run: seq<Snapshot>) {
    && |run| > 0 && run[0].file == NoConfig
    && forall i | 0 <= i < |run| - 1 :: Step(run[i], run[i + 1])
  }

  /** One whole config command, from reading the file on, is a step. */
  method Configure(a: Admin, cf: Config, force: bool, hostname: string, header: string, interfaces: seq<string>,
                   agentInstalled: bool, remote: World) returns (r: Outcome, ghost written: bool)
    modifies a`config, a`file, a`access, a`catalog, a`kv, a`units, a`instances, a`server, a`files, a`faults
    ensures a.faults >= old(a.faults)
    ensures r.Ok? ==> written
    ensures a.file == if written then a.config else old(a.file)
    ensures r.Ok? && (cf.serverAddress != "" || cf.serverPassword != "") ==> forall u | u in a.units :: a.units[u]
    ensures forall services :: Step(Snapshot(old(a.file), services), Snapshot(a.file, a.Services()))
  {
    hide Configured, Loaded, InUse, NodeMoved, NameMatches;
    written := false;
    r := LoadConfig(a);
    if r.Err? { return; }
    ghost var anew;
    r, written, anew := SetConfig(a, cf, force, hostname, header, interfaces, agentInstalled, remote);
  }

  lemma LoadedName(file: Config)
    ensures Loaded(file).clientName == file.clientName
  {
  }

  lemma KeptIsStep(was: Config, now: Config, services: map<string, Service>, services': map<string, Service>)
    requires FileKept(was, Loaded(was), now)
    ensures Step(Snapshot(was, services), Snapshot(now, services'))
  {
  }

  /** So is a registry command, from reading the file on. */
  method RunCommand(a: Admin, c: Runs.Command, ghost reg: Registry) returns (ok: bool)
    requires c.Valid()
    modifies a`serviceName, a`servicePort, a`catalog, a`kv, a`units, a`instances, a`files, a`config, a`file, a`faults
    ensures forall services :: Step(Snapshot(old(a.file), services), Snapshot(a.file, a.Services()))
    ensures
      var config := Loaded(old(a.file));
      && (ok ==> c.Performs(old(a.State()), a.State(), config, a.agentParent))
      && (a.faults == old(a.faults) && Represents(old(a.State()), config.clientName, a.agentParent, reg) ==>
            (ok <==> Admission.Allows(c, reg, old(a.State()), config)))
  {
    hide Loaded, Configured, Runs.Command.Valid, Runs.Command.Performs, Represents, Admission.Allows;
    var loaded := LoadConfig(a);
    if loaded.Err? { return false; }
    ghost var was := a.file;
    var open;
    ghost var readable;
    open, ok, readable := Commands.Invoke(a, c, reg);
    forall services
      ensures Step(Snapshot(was, services), Snapshot(a.file, a.Services()))
    {
      KeptIsStep(was, a.file, services, a.Services());
    }
  }

  /** And the removal of everything. */
  method RunRemoveAll(a: Admin, ghost reg: Registry) returns (open: bool)
    modifies a`serviceName, a`catalog, a`kv, a`units, a`instances, a`config, a`file, a`faults
    ensures forall services :: Step(Snapshot(old(a.file), services), Snapshot(a.file, a.Services()))
    ensures
      var client := old(a.file).clientName;
      a.faults == old(a.faults) && Represents(old(a.State()), client, a.agentParent, reg) ==>
        open && Represents(a.State(), client, a.agentParent, map[])
  {
    hide Loaded, Configured, Represents;
    LoadedName(a.file);
    var loaded := LoadConfig(a);
    if loaded.Err? { return false; }
    ghost var was := a.file;
    var count, removed;
    ghost var readable;
    open, count, removed, readable := Commands.InvokeRemoveAll(a, reg);
    forall services
      ensures Step(Snapshot(was, services), Snapshot(a.file, a.Services()))
    {
      KeptIsStep(was, a.file, services, a.Services());
    }
  }

  /** Over every run from an empty configuration, no file ever contradicts itself. */
  lemma {:induction false} RunsAreConsistent(run: seq<Snapshot>, i: nat)
    requires IsRun(run) && i < |run|
    ensures Consistent(run[i].file)
  {
    if i > 0 {
      RunsAreConsistent(run, i - 1);
      assert Step(run[i - 1], run[i]);
    }
  }

  /** While there are services, addresses that are set stay as they are. */
  lemma {:induction false} AddressesAreKept(run: seq<Snapshot>, i: nat, j: nat)
    requires IsRun(run) && i <= j < |run|
    requires forall k | i < k <= j :: run[k].services != map[]
    ensures Loaded(run[i].file).clientAddress != "" ==> run[j].file.clientAddress == run[i].file.clientAddress
    ensures Loaded(run[i].file).bindAddress != "" ==> Loaded(run[j].file).bindAddress == Loaded(run[i].file).bindAddress
    decreases j
  {
    if i < j {
      AddressesAreKept(run, i, j - 1);
      assert Step(run[j - 1], run[j]);
    }
  }
}
