/** Query Analytics instances: looking one up and reviving it, creating one, deleting one. */
module Qan {
  import opened Stores
  import opened Transitions
  import opened Monitor
  import opened Sanitize

  /** The instance is of this type and name. */
  predicate IsNamed(i: Instance, subsystem: string, name: string) {
    i.subsystem == subsystem && i.name == name
  }

  /** The server may give this answer when it is asked for an instance by type, name and parent. */
  predicate MayAnswer(instances: map<string, Instance>, server: Server, subsystem: string, name: string,
                      parent: string, answer: Option<string>)
  {
    match answer
    case Some(u) =>
      u in instances && IsNamed(instances[u], subsystem, name) && (server.filters ==> instances[u].parent == parent)
    case None =>
      forall u | u in instances && IsNamed(instances[u], subsystem, name) ::
        server.filters && instances[u].parent != parent
  }

  /** The answer can be used: it is an instance of the agent's own parent, which is not deleted or can be revived. */
  predicate Usable(instances: map<string, Instance>, server: Server, parent: string, answer: Option<string>) {
    && answer.Some? && answer.value in instances && instances[answer.value].parent == parent
    && (instances[answer.value].deleted ==> server.undeletes)
  }

  /** One instance is not deleted any more. */
  function Revived(instances: map<string, Instance>, u: string): map<string, Instance> {
    if u in instances then instances[u := instances[u].(deleted := false)] else instances
  }

  /** There is an instance of this type, name and parent, deleted or not. */
  predicate HasIdentity(instances: map<string, Instance>, subsystem: string, name: string, parent: string) {
    exists u | u in instances :: IsNamed(instances[u], subsystem, name) && instances[u].parent == parent
  }

  /** No second instance of the same type, name and parent is created. */
  predicate Thrifty(was: map<string, Instance>, now: map<string, Instance>, subsystem: string, name: string,
                    parent: string)
  {
    HasIdentity(was, subsystem, name, parent) ==> now.Keys == was.Keys
  }

  /**
   * getInstance: whatever the server may answer, an instance comes back exactly if the answer can be used, and then
   * it is the one answered, not deleted. Servers may answer with an instance of another parent, and may ignore the
   * request to undelete; both count as having no instance.
   */
  method GetInstance(a: Admin, subsystem: string, name: string)
    returns (r: Result<string>, ghost answer: Option<string>)
    modifies a`instances, a`faults
    ensures a.faults >= old(a.faults)
    ensures r == Failure(Failed) <==> a.faults > old(a.faults)
    ensures r.Failure? ==> r.error == Failed || r.error == NoInstance
    ensures a.faults == old(a.faults) ==>
      && MayAnswer(old(a.instances), a.server, subsystem, name, a.agentParent, answer)
      && (r.Success? <==> Usable(old(a.instances), a.server, a.agentParent, answer))
    ensures r.Success? ==> Some(r.value) == answer && a.instances == Revived(old(a.instances), r.value)
    ensures r == Failure(NoInstance) ==> a.instances == old(a.instances)
    ensures r.Success? ==> Acquired(old(a.instances), a.instances, r.value, subsystem, name, a.agentParent)
    ensures a.instances == old(a.instances) ||
      exists u :: Acquired(old(a.instances), a.instances, u, subsystem, name, a.agentParent)
    ensures a.instances.Keys == old(a.instances).Keys
    ensures forall dsn :: DsnsKept(old(a.instances), a.instances, dsn)
  {
    hide SanitizeDSN;
    answer := None;
    var failed := a.Call(); // GET by type, name and parent
    if failed { return Failure(Failed), None; }
    var named := set u | u in a.instances && IsNamed(a.instances[u], subsystem, name);
    var answers := if a.server.filters then set u | u in named && a.instances[u].parent == a.agentParent else named;
    if answers == {} {
      assert forall u | u in a.instances && IsNamed(a.instances[u], subsystem, name) :: u in named && u !in answers;
      return Failure(NoInstance), None;
    }
    var uuid :| uuid in answers;
    answer := Some(uuid);
    if a.instances[uuid].parent != a.agentParent { return Failure(NoInstance), answer; }
    failed := a.Call(); // PUT with the deletion time reset
    if failed { return Failure(Failed), answer; }
    if a.server.undeletes {
      a.instances := a.instances[uuid := a.instances[uuid].(deleted := false)];
    }
    assert !a.instances[uuid].deleted ==>
      Acquired(old(a.instances), a.instances, uuid, subsystem, name, a.agentParent);
    failed := a.Call(); // GET by UUID
    if failed { return Failure(Failed), answer; }
    if a.instances[uuid].deleted { return Failure(NoInstance), answer; }
    return Success(uuid), answer;
  }

  lemma {:induction false} LengthBound(keys: set<string>) returns (n: nat)
    ensures forall k | k in keys :: |k| <= n
    decreases |keys|
  {
    n := 0;
    if keys != {} {
      var k :| k in keys;
      var m := LengthBound(keys - {k});
      n := if |k| > m then |k| else m;
    }
  }

  lemma FreshUuidExists(instances: map<string, Instance>)
    ensures exists u: string :: u !in instances
  {
    var n := LengthBound(instances.Keys);
    var u: string := seq(n + 1, i => '0');
    assert u !in instances;
  }

  /** Instances keep the data source they hold; a new one holds the sanitised form of the one given. */
  predicate DsnsKept(was: map<string, Instance>, now: map<string, Instance>, dsn: string) {
    forall u | u in now :: now[u].dsn == if u in was then was[u].dsn else SanitizeDSN(dsn)
  }

  /** The agent's files with the record that the server has of one instance, but with this data source. */
  function WithFile(files: map<string, Instance>, instances: map<string, Instance>, uuid: string, dsn: string)
    : map<string, Instance>
  {
    if uuid in instances then files[uuid := instances[uuid].(dsn := dsn)] else files
  }

  /** createInstance: the server picks the UUID. A failed read afterwards leaves the new instance behind. */
  method CreateInstance(a: Admin, subsystem: string, name: string, dsn: string) returns (r: Result<string>)
    modifies a`instances, a`faults
    ensures a.faults >= old(a.faults)
    ensures r.Success? <==> a.faults == old(a.faults)
    ensures r.Failure? ==> r.error == Failed
    ensures r.Success? ==>
      r.value !in old(a.instances) && Acquired(old(a.instances), a.instances, r.value, subsystem, name, a.agentParent)
    ensures a.instances == old(a.instances) ||
      exists u :: Acquired(old(a.instances), a.instances, u, subsystem, name, a.agentParent)
    ensures DsnsKept(old(a.instances), a.instances, dsn)
  {
    hide SanitizeDSN;
    var failed := a.Call(); // POST
    if failed { return Failure(Failed); }
    FreshUuidExists(a.instances);
    var uuid :| uuid !in a.instances;
    a.instances := a.instances[uuid := Instance(subsystem, a.agentParent, name, SanitizeDSN(dsn), false)];
    assert Acquired(old(a.instances), a.instances, uuid, subsystem, name, a.agentParent);
    failed := a.Call(); // GET by UUID
    if failed { return Failure(Failed); }
    return Success(uuid);
  }

  /**
   * An instance to collect for: the one the server answers with if it can be used, else a new one. The server holds
   * its sanitised data source; the file that the agent reads gets the real one.
   */
  method AcquireInstance(a: Admin, subsystem: string, name: string, dsn: string)
    returns (r: Result<string>, ghost answer: Option<string>)
    modifies a`instances, a`files, a`faults
    ensures a.faults >= old(a.faults)
    ensures r.Success? <==> a.faults == old(a.faults)
    ensures r.Failure? ==> r.error == Failed
    ensures r.Success? ==>
      && MayAnswer(old(a.instances), a.server, subsystem, name, a.agentParent, answer)
      && (r.value in old(a.instances) <==> Usable(old(a.instances), a.server, a.agentParent, answer))
      && (r.value in old(a.instances) ==> Some(r.value) == answer && a.instances == Revived(old(a.instances), r.value))
    ensures r.Success? ==> Acquired(old(a.instances), a.instances, r.value, subsystem, name, a.agentParent)
    ensures a.instances == old(a.instances) ||
      exists u :: Acquired(old(a.instances), a.instances, u, subsystem, name, a.agentParent)
    ensures a.server == Current ==> Thrifty(old(a.instances), a.instances, subsystem, name, a.agentParent)
    ensures DsnsKept(old(a.instances), a.instances, dsn)
    ensures a.files == if r.Success? then WithFile(old(a.files), a.instances, r.value, dsn) else old(a.files)
  {
    hide SanitizeDSN, IsNamed;
    r, answer := GetInstance(a, subsystem, name);
    if r == Failure(NoInstance) {
      NothingUsable(a.instances, a.server, subsystem, name, a.agentParent, answer);
      r := CreateInstance(a, subsystem, name, dsn);
    }
    if r.Success? {
      var failed := a.WriteInstance(r.value, a.instances[r.value].(dsn := dsn));
      if failed { r := Failure(Failed); }
    }
  }

  /** A server that filters and undeletes has no usable answer only if there is no such instance. */
  lemma NothingUsable(instances: map<string, Instance>, server: Server, subsystem: string, name: string, parent: string,
                      answer: Option<string>)
    requires MayAnswer(instances, server, subsystem, name, parent, answer)
    requires !Usable(instances, server, parent, answer)
    ensures server == Current ==> !HasIdentity(instances, subsystem, name, parent)
  {
  }

  /** deleteInstance. */
  method DeleteInstance(a: Admin, uuid: string) returns (r: Outcome)
    modifies a`instances, a`faults
    ensures a.faults >= old(a.faults)
    ensures r.Ok? <==> a.faults == old(a.faults) && uuid in old(a.instances)
    ensures r.Err? ==> r.error == Failed
    ensures a.instances == if r.Ok? then MarkedDeleted(old(a.instances), uuid) else old(a.instances)
  {
    var failed := a.Call();
    if failed || uuid !in a.instances { return Err(Failed); }
    a.instances := MarkedDeleted(a.instances, uuid);
    return Ok;
  }
}
