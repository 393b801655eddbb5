/** Transitions of one local system service, through the platform's service manager. */
module Services {
  import opened Monitor

  /** The service exists and runs. */
  predicate Running(units: map<string, bool>, name: string) {
    name in units && units[name]
  }

  /** Install and start: fails if the service exists already; if only the start fails, it is installed but stopped. */
  method InstallService(a: Admin, name: string) returns (r: Outcome, ghost installed: bool)
    modifies a`units, a`faults
    ensures a.faults >= old(a.faults)
    ensures r.Ok? <==> a.faults == old(a.faults) && name !in old(a.units)
    ensures r.Ok? ==> a.units == old(a.units)[name := true]
    ensures r.Err? && installed ==> name !in old(a.units) && a.units == old(a.units)[name := false]
    ensures r.Err? && !installed ==> a.units == old(a.units)
  {
    installed := false;
    var failed := a.Call(); // NewService
    if failed { return Err(Failed), installed; }
    failed := a.Call(); // Install
    if failed || name in a.units { return Err(Failed), installed; }
    a.units, installed := a.units[name := false], true;
    failed := a.Call(); // Start
    if failed { return Err(Failed), installed; }
    a.units := a.units[name := true];
    return Ok, installed;
  }

  /**
   * Stop if running, then uninstall: fails if the service does not exist; if only the uninstall fails, it is stopped.
   * A status query that gets no answer only skips the stop.
   */
  method UninstallService(a: Admin, name: string) returns (r: Outcome, ghost answered: bool, ghost stopped: bool)
    modifies a`units, a`faults
    ensures a.faults >= old(a.faults)
    ensures r.Ok? <==> a.faults == old(a.faults) && name in old(a.units)
    ensures r.Ok? ==> a.units == old(a.units) - {name}
    ensures r.Ok? && answered ==> (stopped <==> Running(old(a.units), name))
    ensures r.Err? && stopped ==> name in old(a.units) && a.units == old(a.units)[name := false]
    ensures r.Err? && !stopped ==> a.units == old(a.units)
  {
    answered, stopped := false, false;
    var failed := a.Call(); // NewService
    if failed { return Err(Failed), answered, stopped; }
    var status: bool := *; // Status
    answered := status;
    if status && Running(a.units, name) {
      failed := a.Call(); // Stop
      if failed { return Err(Failed), answered, stopped; }
      a.units, stopped := a.units[name := false], true;
    }
    failed := a.Call(); // Uninstall
    if failed || name !in a.units { return Err(Failed), answered, stopped; }
    a.units := a.units - {name};
    return Ok, answered, stopped;
  }

  /**
   * Start unless running. A status query that gets no answer only adds a start of what runs already. The last result
   * says whether a start was made.
   */
  method StartService(a: Admin, name: string) returns (r: Outcome, ghost answered: bool, ghost started: bool)
    modifies a`units, a`faults
    ensures a.faults >= old(a.faults)
    ensures r.Ok? <==> a.faults == old(a.faults) && name in old(a.units)
    ensures a.units == if r.Ok? then old(a.units)[name := true] else old(a.units)
    ensures r.Ok? ==> (started <==> !answered || !Running(old(a.units), name))
  {
    answered, started := false, false;
    var failed := a.Call(); // NewService
    if failed { return Err(Failed), answered, started; }
    var status: bool := *; // Status
    answered := status;
    if !status || !Running(a.units, name) {
      failed := a.Call(); // Start
      if failed || name !in a.units { return Err(Failed), answered, started; }
      a.units, started := a.units[name := true], true;
    }
    return Ok, answered, started;
  }

  /**
   * Stop if running. Stopping a service that does not exist succeeds, and so does stopping one whose status
   * cannot be queried: that is a failed call without an error, and the service stays as it is.
   */
  method StopService(a: Admin, name: string) returns (r: Outcome)
    modifies a`units, a`faults
    ensures a.faults >= old(a.faults)
    ensures r.Err? ==> a.faults > old(a.faults)
    ensures a.units ==
      if a.faults == old(a.faults) && name in old(a.units) then old(a.units)[name := false] else old(a.units)
  {
    var failed := a.Call(); // NewService
    if failed { return Err(Failed); }
    failed := a.Call(); // Status
    if !failed && Running(a.units, name) {
      failed := a.Call(); // Stop
      if failed { return Err(Failed); }
      a.units := a.units[name := false];
    }
    return Ok;
  }

  /** A service manager that cannot be asked reports the service as stopped. */
  method GetServiceStatus(a: Admin, name: string) returns (running: bool)
    modifies a`faults
    ensures a.faults >= old(a.faults)
    ensures running ==> Running(a.units, name) && a.faults == old(a.faults)
    ensures a.faults == old(a.faults) ==> running == Running(a.units, name)
  {
    var failed := a.Call(); // NewService
    if failed { return false; }
    failed := a.Call(); // Status
    if failed { return false; }
    return Running(a.units, name);
  }
}
