/** The stores that monitoring is spread over, as values, and the names they are keyed by. */
module Stores {
  import opened Strings

  /** consul.AgentService; its ID is the key it is stored under. */
  datatype Service = Service(kind: string, tags: seq<string>, port: int)

  /** consul.CatalogNode. */
  datatype Node = Node(address: string, services: map<string, Service>)

  /** An instance as Query Analytics keeps it; deleting one only marks it. */
  datatype Instance = Instance(subsystem: string, parent: string, name: string, dsn: string, deleted: bool)

  /**
   * Catalog and key-value tree of Consul, local system services (running or not), QAN instances by UUID, and the
   * files in which the local agent keeps its own record of an instance.
   */
  datatype World = World(
    catalog: map<string, Node>,
    kv: map<string, string>,
    units: map<string, bool>,
    instances: map<string, Instance>,
    files: map<string, Instance>)
  {
    function Services(node: string): map<string, Service> {
      if node in catalog then catalog[node].services else map[]
    }

    /** Catalog().Register: creates the node if needed and always sets its address. */
    function Register(node: string, address: string, id: string, svc: Service): World {
      this.(catalog := WithService(catalog, node, address, id, svc))
    }

    /** Catalog().Deregister with a service ID: the node stays, even when empty. */
    function Deregister(node: string, id: string): World {
      this.(catalog := WithoutService(catalog, node, id))
    }

    /** Catalog().Deregister without a service ID. */
    function DeregisterNode(node: string): World {
      this.(catalog := catalog - {node})
    }

    /** Catalog().Service(kind, tag), as the nodes that answer. */
    predicate Offered(kind: string, tag: string) {
      exists n, id | n in catalog && id in catalog[n].services ::
        catalog[n].services[id].kind == kind && tag in catalog[n].services[id].tags
    }
  }

  function WithService(catalog: map<string, Node>, node: string, address: string, id: string, svc: Service)
    : map<string, Node>
  {
    catalog[node := Node(address, (if node in catalog then catalog[node].services else map[])[id := svc])]
  }

  function WithoutService(catalog: map<string, Node>, node: string, id: string): map<string, Node> {
    if node in catalog
    then catalog[node := Node(catalog[node].address, catalog[node].services - {id})]
    else catalog
  }

  /** KV().DeleteTree. */
  function DeleteTree(kv: map<string, string>, prefix: string): map<string, string> {
    map key | key in kv && !(prefix <= key) :: kv[key]
  }

  /** What a family of Puts below one directory writes. */
  function Below(dir: string, data: map<string, string>): map<string, string> {
    assert forall s | s in data :: (dir + s)[|dir|..] == s;
    map s | s in data :: dir + s := data[s]
  }

  lemma BelowFacts(dir: string, data: map<string, string>, key: string)
    ensures key in Below(dir, data) <==> dir <= key && key[|dir|..] in data
    ensures key in Below(dir, data) ==> Below(dir, data)[key] == data[key[|dir|..]]
  {
    if dir <= key && key[|dir|..] in data {
      assert key == dir + key[|dir|..];
    }
    if key in Below(dir, data) {
      var s :| s in data && key == dir + s;
      assert key[|dir|..] == s;
    }
  }

  lemma BelowAt(dir: string, data: map<string, string>, s: string)
    ensures dir + s in Below(dir, data) <==> s in data
    ensures s in data ==> Below(dir, data)[dir + s] == data[s]
  {
    assert (dir + s)[|dir|..] == s;
    BelowFacts(dir, data, dir + s);
  }

  lemma BelowKey(dir: string, data: map<string, string>, key: string) returns (s: string)
    requires key in Below(dir, data)
    ensures s in data && key == dir + s
  {
    s :| s in data && key == dir + s;
  }

  /** One more Put. */
  lemma BelowInsert(dir: string, data: map<string, string>, s: string, v: string)
    ensures Below(dir, data)[dir + s := v] == Below(dir, data[s := v])
  {
    hide Below;
    var put, full := Below(dir, data)[dir + s := v], Below(dir, data[s := v]);
    BelowAt(dir, data[s := v], s);
    forall key | key in put
      ensures key in full && full[key] == put[key]
    {
      if key != dir + s {
        var s' := BelowKey(dir, data, key);
        BelowAt(dir, data, s');
        BelowAt(dir, data[s := v], s');
      }
    }
    forall key | key in full
      ensures key in put
    {
      var s' := BelowKey(dir, data[s := v], key);
      BelowAt(dir, data, s');
    }
  }

  // ---------- service kinds ----------

  function MetricsKind(name: string): string { name + ":" + "metrics" }
  function QueriesKind(name: string): string { name + ":" + "queries" }

  /** The kinds that can be monitored: "linux:metrics", "mysql:metrics", "mysql:queries", ... */
  const SvcTypes: seq<string> := [
    MetricsKind("linux"), MetricsKind("mysql"), QueriesKind("mysql"), MetricsKind("mongodb"),
    QueriesKind("mongodb"), MetricsKind("proxysql"), MetricsKind("postgresql")]

  /** The two parts of a kind. */
  function NameOf(kind: string): string { UpTo(kind, ':') }
  function RoleOf(kind: string): string { After(kind, ':') }

  predicate IsQueries(kind: string) { RoleOf(kind) == "queries" }

  predicate Plain(part: string) {
    ':' !in part && '-' !in part && '/' !in part
  }

  predicate PlainKind(kind: string) {
    kind == NameOf(kind) + ":" + RoleOf(kind) && Plain(NameOf(kind)) && Plain(RoleOf(kind))
  }

  lemma PlainParts(name: string, role: string)
    requires Plain(name) && Plain(role)
    ensures var kind := name + ":" + role; NameOf(kind) == name && RoleOf(kind) == role && PlainKind(kind)
  {
    CutAt(name, ':', role);
  }

  /** The exporters and query sources that exist. */
  predicate KnownName(name: string) {
    name == "linux" || name == "mysql" || name == "mongodb" || name == "proxysql" || name == "postgresql"
  }

  lemma KnownMetrics(name: string)
    requires KnownName(name)
    ensures var kind := MetricsKind(name);
      NameOf(kind) == name && RoleOf(kind) == "metrics" && PlainKind(kind) && !IsQueries(kind)
  {
    assert Plain(name);
    PlainParts(name, "metrics");
    assert "metrics"[0] != "queries"[0];
  }

  lemma KnownQueries(name: string)
    requires KnownName(name)
    ensures var kind := QueriesKind(name);
      NameOf(kind) == name && RoleOf(kind) == "queries" && PlainKind(kind) && IsQueries(kind)
  {
    assert Plain(name);
    PlainParts(name, "queries");
  }

  /** A known kind is a known name with one of the two roles; only two names have queries. */
  lemma KnownKinds(kind: string)
    requires kind in SvcTypes
    ensures PlainKind(kind) && KnownName(NameOf(kind))
    ensures kind == if IsQueries(kind) then QueriesKind(NameOf(kind)) else MetricsKind(NameOf(kind))
    ensures IsQueries(kind) ==> NameOf(kind) == "mysql" || NameOf(kind) == "mongodb"
  {
    var name :| KnownName(name) &&
      (kind == MetricsKind(name) || (kind == QueriesKind(name) && (name == "mysql" || name == "mongodb")));
    KnownMetrics(name);
    KnownQueries(name);
  }

  /** The type name Query Analytics uses for a queries kind. */
  function Subsystem(kind: string): string {
    if NameOf(kind) == "mongodb" then "mongo" else NameOf(kind)
  }

  /** The queries kind behind a QAN type name. */
  function KindOfSubsystem(subsystem: string): string {
    QueriesKind(if subsystem == "mongo" then "mongodb" else subsystem)
  }

  lemma SubsystemInverse(kind: string)
    requires kind in SvcTypes && IsQueries(kind)
    ensures KindOfSubsystem(Subsystem(kind)) == kind
    ensures Subsystem(kind) == "mysql" || Subsystem(kind) == "mongo"
  {
    KnownKinds(kind);
  }

  // ---------- derived names ----------

  function AliasTag(alias: string): string { "alias_" + alias }
  predicate IsAliasTag(tag: string) { "alias_" <= tag }

  /** The alias a tag carries: tag[6:]. */
  function AliasOf(tag: string): string
    requires IsAliasTag(tag)
  {
    tag[6..]
  }

  lemma AliasTagInverse(alias: string)
    ensures IsAliasTag(AliasTag(alias)) && AliasOf(AliasTag(alias)) == alias
  {
  }

  lemma TagOfAlias(tag: string)
    requires IsAliasTag(tag)
    ensures AliasTag(AliasOf(tag)) == tag
  {
  }

  function ServiceID(kind: string, port: int): string { kind + "-" + Itoa(port) }

  /** The local service that belongs to a catalog service. */
  function UnitName(kind: string, port: int): string {
    "pmm-" + ReplaceFirst(kind, ":", "-") + "-" + Itoa(port)
  }

  function UnitOfService(svc: Service): string { UnitName(svc.kind, svc.port) }

  /** The local services that the catalog calls for. */
  function Wanted(services: map<string, Service>): set<string> {
    set id | id in services :: UnitOfService(services[id])
  }

  /** The directory that holds everything stored for a service. */
  function Dir(client: string, id: string): string { client + "/" + id + "/" }

  /** The key lies below the prefix of one of these services. */
  predicate InSomeDir(client: string, key: string, ids: set<string>) {
    exists id :: id in ids && Dir(client, id) <= key
  }

  lemma UnitNameOfParts(name: string, role: string, port: int)
    requires ':' !in name
    ensures UnitName(name + ":" + role, port) == "pmm-" + (name + "-" + (role + "-" + Itoa(port)))
  {
    ReplaceFirstAt(name, role, ':', "-");
    Regroup("pmm-", name, role, Itoa(port));
  }

  lemma Regroup(pre: string, name: string, role: string, num: string)
    ensures pre + (name + "-" + role) + "-" + num == pre + (name + "-" + (role + "-" + num))
  {
  }

  /** A service ID determines the kind and the port. */
  lemma ServiceIDInjective(k1: string, p1: int, k2: string, p2: int)
    requires PlainKind(k1) && PlainKind(k2)
    requires ServiceID(k1, p1) == ServiceID(k2, p2)
    ensures k1 == k2 && p1 == p2
  {
    KindHasNoDash(k1);
    KindHasNoDash(k2);
    assert ServiceID(k1, p1) == k1 + ['-'] + Itoa(p1);
    assert ServiceID(k2, p2) == k2 + ['-'] + Itoa(p2);
    SplitUnique(k1, Itoa(p1), k2, Itoa(p2), '-');
    ItoaInjective(p1, p2);
  }

  lemma KindHasNoDash(kind: string)
    requires PlainKind(kind)
    ensures '-' !in kind && '/' !in kind
  {
  }

  /** So does a local service name, within the known kinds. */
  lemma UnitNameInjective(k1: string, p1: int, k2: string, p2: int)
    requires PlainKind(k1) && PlainKind(k2)
    requires UnitName(k1, p1) == UnitName(k2, p2)
    ensures k1 == k2 && p1 == p2
  {
    UnitNameOfParts(NameOf(k1), RoleOf(k1), p1);
    UnitNameOfParts(NameOf(k2), RoleOf(k2), p2);
    PartsInjective("pmm-", NameOf(k1), RoleOf(k1), Itoa(p1), NameOf(k2), RoleOf(k2), Itoa(p2));
    ItoaInjective(p1, p2);
  }

  lemma PartsInjective(pre: string, n1: string, r1: string, d1: string, n2: string, r2: string, d2: string)
    requires '-' !in n1 && '-' !in r1 && '-' !in n2 && '-' !in r2
    requires pre + (n1 + "-" + (r1 + "-" + d1)) == pre + (n2 + "-" + (r2 + "-" + d2))
    ensures n1 == n2 && r1 == r2 && d1 == d2
  {
    var t1, t2 := n1 + "-" + (r1 + "-" + d1), n2 + "-" + (r2 + "-" + d2);
    assert t1 == (pre + t1)[|pre|..] && t2 == (pre + t2)[|pre|..];
    SplitUnique(n1, r1 + "-" + d1, n2, r2 + "-" + d2, '-');
    SplitUnique(r1, d1, r2, d2, '-');
  }

  lemma ServiceIDHasNoSlash(kind: string, port: int)
    requires PlainKind(kind)
    ensures '/' !in ServiceID(kind, port)
  {
    KindHasNoDash(kind);
    ItoaHasNoSlash(port);
  }

  lemma DirIsBelow(client: string, id: string, key: string)
    requires Dir(client, id) <= key
    ensures client + "/" <= key
  {
    assert Dir(client, id) == client + "/" + (id + "/");
  }

  /** A directory contains only keys below itself: nothing of another service. */
  lemma DirsDisjoint(client: string, id1: string, id2: string, rest: string)
    requires '/' !in client && '/' !in id1 && '/' !in id2
    requires Dir(client, id1) <= Dir(client, id2) + rest
    ensures id1 == id2
  {
    assert Dir(client, id1) == client + ['/'] + (id1 + "/");
    assert Dir(client, id2) + rest == client + ['/'] + (id2 + "/" + rest);
    SplitPrefix(client, id1 + "/", client, id2 + "/" + rest, '/');
    assert id1 + "/" == id1 + ['/'] + [];
    assert id2 + "/" + rest == id2 + ['/'] + rest;
    SplitPrefix(id1, [], id2, rest, '/');
  }

  /** The same one level down: nothing of another alias. */
  lemma AliasDirsDisjoint(dir: string, a1: string, a2: string, rest: string)
    requires '/' !in a1 && '/' !in a2
    requires dir + a1 + "/" <= dir + (a2 + "/" + rest)
    ensures a1 == a2
  {
    var whole := dir + (a2 + "/" + rest);
    assert (dir + a1 + "/")[|dir|..] == a1 + ['/'] + [];
    assert whole[|dir|..] == a2 + ['/'] + rest;
    SplitPrefix(a1, [], a2, rest, '/');
  }
}
