/**
 * What is under monitoring, independently of how it is stored: a map from (kind, alias) to what was
 * registered for it. `Represents` says when the four stores hold exactly such a registry.
 */
module Registry {
  import opened Stores
  import Sanitize

  datatype Key = Key(kind: string, alias: string)

  /** An exporter has a port and a system service of its own; query sources of one kind share both. */
  datatype Entry =
    | Exporter(port: int, extra: seq<string>, data: map<string, string>)
    | Source(dsn: string, uuid: string)

  type Registry = map<Key, Entry>

  function PortOf(e: Entry): int { if e.Exporter? then e.port else 0 }
  function IdOf(k: Key, e: Entry): string { ServiceID(k.kind, PortOf(e)) }
  function UnitOf(k: Key, e: Entry): string { UnitName(k.kind, PortOf(e)) }

  function DsnSub(alias: string): string { alias + "/" + "dsn" }
  function UuidSub(alias: string, name: string): string { alias + "/" + ("qan_" + name + "_uuid") }

  /** The entries that a command's kind and name mean: an empty name stands for any. */
  predicate NamedBy(k: Key, kind: string, name: string) {
    k.kind == kind && (name == "" || k.alias == name)
  }

  ghost predicate HasNamed(reg: Registry, kind: string, name: string) {
    exists k :: k in reg && NamedBy(k, kind, name)
  }

  /** The data stored below the service's directory on behalf of an entry. */
  function DataOf(k: Key, e: Entry): map<string, string> {
    match e
    case Exporter(_, _, data) => data
    case Source(dsn, uuid) => map[DsnSub(k.alias) := dsn, UuidSub(k.alias, NameOf(k.kind)) := uuid]
  }

  function DataKey(client: string, k: Key, e: Entry, sub: string): string {
    Dir(client, IdOf(k, e)) + sub
  }

  // ---------- the representation ----------

  predicate ValidEntry(k: Key, e: Entry) {
    && k.kind in SvcTypes && PlainKind(k.kind)
    && k.alias != "" && '/' !in k.alias
    && (e.Source? <==> IsQueries(k.kind))
    && (e.Exporter? ==> e.port > 0 && forall t | t in e.extra :: !IsAliasTag(t))
  }

  /** No two exporters share a port. */
  ghost predicate DistinctPorts(reg: Registry) {
    forall k, k' | k in reg && k' in reg && k != k' && reg[k].Exporter? && reg[k'].Exporter? ::
      reg[k].port != reg[k'].port
  }

  ghost predicate ValidRegistry(reg: Registry) {
    DistinctPorts(reg) && forall k | k in reg :: ValidEntry(k, reg[k])
  }

  /** The service carries the entry. */
  predicate Carries(svc: Service, k: Key, e: Entry) {
    && svc.kind == k.kind
    && svc.port == PortOf(e)
    && (if e.Exporter? then svc.tags == [AliasTag(k.alias)] + e.extra else AliasTag(k.alias) in svc.tags)
  }

  /** An alias tag of the service stands for an entry of the registry that lives at this ID. */
  predicate Accounted(reg: Registry, id: string, svc: Service, tag: string)
    requires IsAliasTag(tag)
  {
    var k := Key(svc.kind, AliasOf(tag));
    k in reg && IdOf(k, reg[k]) == id
  }

  /** No alias is tagged twice. */
  ghost predicate DistinctAliases(tags: seq<string>) {
    forall i, j | 0 <= i < j < |tags| && IsAliasTag(tags[i]) :: tags[i] != tags[j]
  }

  ghost predicate HasAliases(svc: Service) {
    (exists t :: t in svc.tags && IsAliasTag(t)) && DistinctAliases(svc.tags)
  }

  /** Some service carries the entry, under the entry's ID. */
  predicate Served(services: map<string, Service>, k: Key, e: Entry) {
    IdOf(k, e) in services && Carries(services[IdOf(k, e)], k, e)
  }

  /** Whatever the service says it monitors is in the registry. */
  ghost predicate Backed(reg: Registry, id: string, svc: Service) {
    && HasAliases(svc)
    && forall t | t in svc.tags && IsAliasTag(t) :: Accounted(reg, id, svc, t)
  }

  ghost predicate CatalogAgrees(services: map<string, Service>, reg: Registry) {
    && (forall k | k in reg :: Served(services, k, reg[k]))
    && (forall id | id in services :: Backed(reg, id, services[id]))
  }

  predicate IsUnitOf(unit: string, k: Key, reg: Registry) {
    k in reg && UnitOf(k, reg[k]) == unit
  }

  ghost predicate UnitsAgree(units: map<string, bool>, reg: Registry) {
    && (forall k | k in reg :: UnitOf(k, reg[k]) in units)
    && (forall u | u in units :: exists k :: IsUnitOf(u, k, reg))
  }

  predicate IsKeyOf(client: string, key: string, k: Key, reg: Registry) {
    && k in reg
    && Dir(client, IdOf(k, reg[k])) <= key
    && key[|Dir(client, IdOf(k, reg[k]))|..] in DataOf(k, reg[k])
  }

  /** The value the registry dictates for one of its keys. */
  function ValueAt(client: string, key: string, k: Key, reg: Registry): string
    requires IsKeyOf(client, key, k, reg)
  {
    DataOf(k, reg[k])[key[|Dir(client, IdOf(k, reg[k]))|..]]
  }

  ghost predicate KeysAgree(kv: map<string, string>, client: string, reg: Registry) {
    && (forall key, k | IsKeyOf(client, key, k, reg) :: key in kv && kv[key] == ValueAt(client, key, k, reg))
    && (forall key | key in kv && client + "/" <= key :: exists k :: IsKeyOf(client, key, k, reg))
  }

  /** The QAN types of query sources; the agent itself is an instance of another type. */
  predicate IsSourceType(subsystem: string) { subsystem == "mysql" || subsystem == "mongo" }

  predicate Live(instances: map<string, Instance>, uuid: string, parent: string) {
    && uuid in instances && !instances[uuid].deleted && instances[uuid].parent == parent
    && IsSourceType(instances[uuid].subsystem)
  }

  /** The registry key an instance is created for. */
  function KeyOfInstance(i: Instance): Key { Key(KindOfSubsystem(i.subsystem), i.name) }

  /** The entry's instance is live and was created for this very key. */
  predicate Analysed(instances: map<string, Instance>, parent: string, k: Key, e: Entry) {
    e.Source? ==> Live(instances, e.uuid, parent) && KeyOfInstance(instances[e.uuid]) == k
  }

  /** The registry knows the instance under its own type and name. */
  predicate Expected(reg: Registry, uuid: string, i: Instance) {
    var k := KeyOfInstance(i);
    k in reg && reg[k].Source? && reg[k].uuid == uuid
  }

  /** The live instances of the agent are exactly the query sources. */
  ghost predicate InstancesAgree(instances: map<string, Instance>, parent: string, reg: Registry) {
    && (forall k | k in reg :: Analysed(instances, parent, k, reg[k]))
    && (forall u | Live(instances, u, parent) :: Expected(reg, u, instances[u]))
  }

  /** The agent's file has the server's record, but with the data source whose sanitised form is stored. */
  predicate HasFile(w: World, e: Entry)
    requires e.Source?
  {
    && e.uuid in w.instances && e.uuid in w.files
    && w.files[e.uuid] == w.instances[e.uuid].(dsn := w.files[e.uuid].dsn)
    && Sanitize.SanitizeDSN(w.files[e.uuid].dsn) == e.dsn
  }

  /** Every query source has its file. */
  ghost predicate FilesAgree(w: World, reg: Registry) {
    forall k | k in reg && reg[k].Source? :: HasFile(w, reg[k])
  }

  ghost predicate Represents(w: World, client: string, parent: string, reg: Registry) {
    && '/' !in client
    && ValidRegistry(reg)
    && CatalogAgrees(w.Services(client), reg)
    && UnitsAgree(w.units, reg)
    && KeysAgree(w.kv, client, reg)
    && InstancesAgree(w.instances, parent, reg)
  }

  // ---------- facts about what is represented ----------

  /** Two entries at one service ID: the same exporter, or query sources of the same kind. */
  lemma SameId(reg: Registry, k: Key, k': Key)
    requires ValidRegistry(reg) && k in reg && k' in reg
    requires IdOf(k, reg[k]) == IdOf(k', reg[k'])
    ensures k.kind == k'.kind && PortOf(reg[k]) == PortOf(reg[k'])
    ensures reg[k].Exporter? ==> k == k'
  {
    ServiceIDInjective(k.kind, PortOf(reg[k]), k'.kind, PortOf(reg[k']));
  }

  lemma SameUnit(reg: Registry, k: Key, k': Key)
    requires ValidRegistry(reg) && k in reg && k' in reg
    requires UnitOf(k, reg[k]) == UnitOf(k', reg[k'])
    ensures k.kind == k'.kind && PortOf(reg[k]) == PortOf(reg[k'])
    ensures reg[k].Exporter? ==> k == k'
  {
    UnitNameInjective(k.kind, PortOf(reg[k]), k'.kind, PortOf(reg[k']));
  }

  /** A key lies in the directory of the service that owns it, and in no other. */
  lemma KeyInOneDir(client: string, id: string, key: string, k: Key, reg: Registry)
    requires '/' !in client && '/' !in id && ValidRegistry(reg)
    requires IsKeyOf(client, key, k, reg) && Dir(client, id) <= key
    ensures IdOf(k, reg[k]) == id
  {
    ServiceIDHasNoSlash(k.kind, PortOf(reg[k]));
    var dir := Dir(client, IdOf(k, reg[k]));
    assert key == dir + key[|dir|..];
    DirsDisjoint(client, id, IdOf(k, reg[k]), key[|dir|..]);
  }

  /** A query source's keys lie below its own alias, and below no other alias of the service. */
  lemma SubBelowAlias(k: Key, e: Entry, alias: string, dir: string, sub: string)
    requires e.Source? && sub in DataOf(k, e) && '/' !in k.alias && '/' !in alias
    ensures dir + alias + "/" <= dir + sub <==> alias == k.alias
  {
    var tail := if sub == DsnSub(k.alias) then "dsn" else "qan_" + NameOf(k.kind) + "_uuid";
    assert sub == k.alias + "/" + tail;
    if dir + alias + "/" <= dir + sub {
      AliasDirsDisjoint(dir, alias, k.alias, tail);
    }
    assert dir + sub == (dir + k.alias + "/") + tail;
  }
}
