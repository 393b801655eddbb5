/**
 * The administration client: its configuration, the stores it works on, and the external calls it makes.
 * Any call may fail; a failed call leaves its store as it was and is counted in `faults`, except for a status
 * query of the service manager where its failure only adds or skips another call.
 */
module Monitor {
  import opened Stores

  datatype Option<+T> = None | Some(value: T)

  /** ErrDuplicate, ErrNoService, errNoInstance, and every other error. */
  datatype Error = Duplicate | NoService | NoInstance | Failed

  datatype Outcome = Ok | Err(error: Error)
  datatype Result<+T> = Success(value: T) | Failure(error: Error)

  /** The configuration file pmm.yml. */
  datatype Config = Config(
    serverAddress: string,
    clientAddress: string,
    bindAddress: string,
    clientName: string,
    mySQLPassword: string,
    serverUser: string,
    serverPassword: string,
    serverSSL: bool,
    serverInsecureSSL: bool)

  /** What the local agent's own configuration file says of the server. */
  datatype Access = Access(address: string, user: string, password: string, ssl: bool, insecureSSL: bool)

  /** What it should say. */
  function AccessOf(config: Config): Access {
    Access(config.serverAddress, config.serverUser, config.serverPassword, config.serverSSL, config.serverInsecureSSL)
  }

  /**
   * What the QAN server in use can do: filter instances by their parent, and undelete one. Version 1.0.4 of its
   * interface could do neither.
   */
  datatype Server = Server(filters: bool, undeletes: bool)

  const Current := Server(true, true)

  /** The file is as it was, or has this configuration, perhaps with another MySQL password. */
  predicate FileKept(was: Config, config: Config, now: Config) {
    now == was || now == config.(mySQLPassword := now.mySQLPassword)
  }

  class Admin {
    var serviceName: string
    var servicePort: int
    var config: Config
    var file: Config
    var catalog: map<string, Node>
    var kv: map<string, string>
    var units: map<string, bool>
    var instances: map<string, Instance>
    var files: map<string, Instance>
    var access: Access
    const agentParent: string
    var server: Server
    ghost var faults: nat

    constructor (config: Config, stores: World, access: Access, agentParent: string, server: Server)
      ensures this.config == config && this.file == config && this.access == access
      ensures this.agentParent == agentParent && this.server == server
      ensures State() == stores && faults == 0 && serviceName == "" && servicePort == 0
    {
      serviceName, servicePort := "", 0;
      this.config, this.file := config, config;
      catalog, kv, units := stores.catalog, stores.kv, stores.units;
      instances, files := stores.instances, stores.files;
      this.access, this.agentParent, this.server := access, agentParent, server;
      faults := 0;
    }

    /** The stores as one value. */
    function State(): World
      reads this
    {
      World(catalog, kv, units, instances, files)
    }

    /** The services registered for this client. */
    function Services(): map<string, Service>
      reads this
    {
      State().Services(config.clientName)
    }

    /** One external call that changes nothing here. */
    method Call() returns (failed: bool)
      modifies this`faults
      ensures faults == old(faults) + if failed then 1 else 0
    {
      failed := *;
      if failed {
        faults := faults + 1;
      }
    }

    /** Catalog().Node. */
    method ReadNode(name: string) returns (failed: bool, node: Option<Node>)
      modifies this`faults
      ensures faults == old(faults) + if failed then 1 else 0
      ensures !failed ==> node == if name in catalog then Some(catalog[name]) else None
    {
      node := None;
      failed := Call();
      if !failed && name in catalog {
        node := Some(catalog[name]);
      }
    }

    /** Catalog().Register. */
    method Register(node: string, address: string, id: string, svc: Service) returns (failed: bool)
      modifies this`catalog, this`faults
      ensures faults == old(faults) + if failed then 1 else 0
      ensures catalog == if failed then old(catalog) else WithService(old(catalog), node, address, id, svc)
    {
      failed := Call();
      if !failed {
        catalog := WithService(catalog, node, address, id, svc);
      }
    }

    /** Catalog().Deregister with a service ID. */
    method Deregister(node: string, id: string) returns (failed: bool)
      modifies this`catalog, this`faults
      ensures faults == old(faults) + if failed then 1 else 0
      ensures catalog == if failed then old(catalog) else WithoutService(old(catalog), node, id)
    {
      failed := Call();
      if !failed {
        catalog := WithoutService(catalog, node, id);
      }
    }

    /** Catalog().Deregister without one. */
    method DeregisterNode(node: string) returns (failed: bool)
      modifies this`catalog, this`faults
      ensures faults == old(faults) + if failed then 1 else 0
      ensures catalog == if failed then old(catalog) else old(catalog) - {node}
    {
      failed := Call();
      if !failed {
        catalog := catalog - {node};
      }
    }

    /** KV().Put. */
    method Put(key: string, value: string) returns (failed: bool)
      modifies this`kv, this`faults
      ensures faults == old(faults) + if failed then 1 else 0
      ensures kv == if failed then old(kv) else old(kv)[key := value]
    {
      failed := Call();
      if !failed {
        kv := kv[key := value];
      }
    }

    /** KV().Get. */
    method Get(key: string) returns (failed: bool, value: Option<string>)
      modifies this`faults
      ensures faults == old(faults) + if failed then 1 else 0
      ensures !failed ==> value == if key in kv then Some(kv[key]) else None
      ensures failed ==> value == None
    {
      value := None;
      failed := Call();
      if !failed && key in kv {
        value := Some(kv[key]);
      }
    }

    /** KV().Delete. */
    method Delete(key: string) returns (failed: bool)
      modifies this`kv, this`faults
      ensures faults == old(faults) + if failed then 1 else 0
      ensures kv == if failed then old(kv) else old(kv) - {key}
    {
      failed := Call();
      if !failed {
        kv := kv - {key};
      }
    }

    /** KV().Keys: the keys below a prefix, each once, in some order. */
    method Keys(prefix: string) returns (failed: bool, keys: seq<string>)
      modifies this`faults
      ensures faults == old(faults) + if failed then 1 else 0
      ensures failed ==> keys == []
      ensures forall key | key in keys :: key in kv && prefix <= key
      ensures !failed ==> forall key | key in kv && prefix <= key :: key in keys
      ensures forall i, j | 0 <= i < j < |keys| :: keys[i] != keys[j]
    {
      keys := [];
      failed := Call();
      if !failed {
        keys := Listing(set key | key in kv && prefix <= key);
      }
    }

    /** KV().List: the pairs below a prefix, each key once, in some order. */
    method List(prefix: string) returns (failed: bool, pairs: seq<(string, string)>)
      modifies this`faults
      ensures faults == old(faults) + if failed then 1 else 0
      ensures !failed ==> forall key :: key in kv && prefix <= key ==> (key, kv[key]) in pairs
      ensures forall p | p in pairs :: p.0 in kv && prefix <= p.0 && p.1 == kv[p.0]
    {
      pairs := [];
      var keys;
      failed, keys := Keys(prefix);
      for i := 0 to |keys|
        invariant forall j | 0 <= j < i :: (keys[j], kv[keys[j]]) in pairs
        invariant forall p | p in pairs :: p.0 in keys && p.1 == kv[p.0]
      {
        assert keys[i] in keys;
        pairs := pairs + [(keys[i], kv[keys[i]])];
      }
    }

    /** KV().DeleteTree. */
    method DeleteSubtree(prefix: string) returns (failed: bool)
      modifies this`kv, this`faults
      ensures faults == old(faults) + if failed then 1 else 0
      ensures kv == if failed then old(kv) else DeleteTree(old(kv), prefix)
    {
      failed := Call();
      if !failed {
        kv := DeleteTree(kv, prefix);
      }
    }

    /** Writing the file of an instance. */
    method WriteInstance(uuid: string, record: Instance) returns (failed: bool)
      modifies this`files, this`faults
      ensures faults == old(faults) + if failed then 1 else 0
      ensures files == if failed then old(files) else old(files)[uuid := record]
    {
      failed := Call();
      if !failed {
        files := files[uuid := record];
      }
    }

    /** syncAgentConfig: the agent's file gets the server's address, flags and credentials. */
    method WriteAccess() returns (failed: bool)
      modifies this`access, this`faults
      ensures faults == old(faults) + if failed then 1 else 0
      ensures access == if failed then old(access) else AccessOf(config)
    {
      failed := Call();
      if !failed {
        access := access.(address := config.serverAddress, ssl := config.serverSSL,
                          insecureSSL := config.serverInsecureSSL, user := config.serverUser,
                          password := config.serverPassword);
      }
    }

    /** Writing the configuration file. */
    method WriteConfig() returns (failed: bool)
      modifies this`file, this`faults
      ensures faults == old(faults) + if failed then 1 else 0
      ensures file == if failed then old(file) else config
    {
      failed := Call();
      if !failed {
        file := config;
      }
    }
  }

  /** The elements of a set, each once, in an order the caller cannot rely on. */
  method Listing<T(==)>(s: set<T>) returns (list: seq<T>)
    ensures forall x :: x in list <==> x in s
    ensures forall i, j | 0 <= i < j < |list| :: list[i] != list[j]
    ensures |list| == |s|
  {
    list := [];
    var rest := s;
    while rest != {}
      invariant rest <= s && |list| + |rest| == |s|
      invariant forall x :: x in list <==> x in s && x !in rest
      invariant forall i, j | 0 <= i < j < |list| :: list[i] != list[j]
      decreases |rest|
    {
      var x :| x in rest;
      list := list + [x];
      rest := rest - {x};
    }
  }
}
