/** The table of what is under monitoring, as pmm-admin list computes it from the stores. */
module ListView {
  import opened Strings
  import opened Stores
  import opened Monitor
  import opened Services

  /** ServiceStatus without its options; sources share a port, so theirs is not shown. */
  datatype Row = Row(kind: string, name: string, port: string, running: bool, dsn: string)

  // ---------- what the loops compute ----------

  /** The data source stored below a prefix, or a dash. */
  function DsnBelow(kv: map<string, string>, prefix: string): string {
    if prefix + "dsn" in kv then kv[prefix + "dsn"] else "-"
  }

  /** The last alias among the tags, or a dash. */
  function LastAlias(tags: seq<string>): string {
    if tags == [] then "-"
    else if IsAliasTag(tags[|tags| - 1]) then AliasOf(tags[|tags| - 1])
    else LastAlias(tags[..|tags| - 1])
  }

  /** All aliases among the tags, in order. */
  function Aliases(tags: seq<string>): seq<string> {
    if tags == [] then []
    else
      var last := tags[|tags| - 1];
      Aliases(tags[..|tags| - 1]) + if IsAliasTag(last) then [AliasOf(last)] else []
  }

  function ExporterRow(w: World, client: string, id: string): Row
    requires id in w.Services(client)
  {
    var svc := w.Services(client)[id];
    Row(svc.kind, LastAlias(svc.tags), Itoa(svc.port), Running(w.units, UnitOfService(svc)),
        DsnBelow(w.kv, Dir(client, id)))
  }

  function SourceRow(w: World, client: string, id: string, alias: string): Row
    requires id in w.Services(client)
  {
    var svc := w.Services(client)[id];
    Row(svc.kind, alias, "-", Running(w.units, UnitOfService(svc)), DsnBelow(w.kv, Dir(client, id) + alias + "/"))
  }

  predicate IsExporter(svc: Service) {
    svc.kind != "consul" && !HasSuffix(svc.kind, ":queries")
  }

  predicate IsSource(svc: Service) {
    svc.kind != "consul" && HasSuffix(svc.kind, ":queries")
  }

  function ExporterRows(w: World, client: string, ids: seq<string>): seq<Row>
    requires forall id | id in ids :: id in w.Services(client)
  {
    if ids == [] then []
    else
      var n := |ids| - 1;
      assert forall id | id in ids[..n] :: id in ids;
      ExporterRows(w, client, ids[..n]) +
      if IsExporter(w.Services(client)[ids[n]]) then [ExporterRow(w, client, ids[n])] else []
  }

  function AliasRows(w: World, client: string, id: string, names: seq<string>): seq<Row>
    requires id in w.Services(client)
  {
    if names == [] then []
    else AliasRows(w, client, id, names[..|names| - 1]) + [SourceRow(w, client, id, names[|names| - 1])]
  }

  function SourceRows(w: World, client: string, ids: seq<string>): seq<Row>
    requires forall id | id in ids :: id in w.Services(client)
  {
    if ids == [] then []
    else
      var n := |ids| - 1;
      assert forall id | id in ids[..n] :: id in ids;
      SourceRows(w, client, ids[..n]) +
      if IsSource(w.Services(client)[ids[n]])
      then AliasRows(w, client, ids[n], Aliases(w.Services(client)[ids[n]].tags)) else []
  }

  /** Exporters first, then the sources. */
  function Table(w: World, client: string, ids: seq<string>): seq<Row>
    requires forall id | id in ids :: id in w.Services(client)
  {
    ExporterRows(w, client, ids) + SourceRows(w, client, ids)
  }

  // ---------- the loops ----------

  /** The loop over the pairs of one directory. */
  method ReadDsn(a: Admin, prefix: string) returns (dsn: string)
    modifies a`faults
    ensures a.faults >= old(a.faults)
    ensures a.faults == old(a.faults) ==> dsn == DsnBelow(a.kv, prefix)
  {
    dsn := "-";
    var failed, pairs := a.List(prefix);
    if !failed {
      for i := 0 to |pairs|
        invariant dsn == "-" || (prefix + "dsn" in a.kv && dsn == a.kv[prefix + "dsn"])
        invariant forall j | 0 <= j < i && pairs[j].0 == prefix + "dsn" ::
          prefix + "dsn" in a.kv && dsn == a.kv[prefix + "dsn"]
      {
        assert pairs[i] in pairs;
        var key := pairs[i].0[|prefix|..];
        assert pairs[i].0 == prefix + key;
        if key == "dsn" {
          dsn := pairs[i].1;
        }
      }
      if prefix + "dsn" in a.kv {
        assert (prefix + "dsn", a.kv[prefix + "dsn"]) in pairs;
      }
    }
  }

  method NameOfTags(tags: seq<string>) returns (name: string)
    ensures name == LastAlias(tags)
  {
    name := "-";
    for i := 0 to |tags|
      invariant name == LastAlias(tags[..i])
    {
      assert tags[..i + 1][..i] == tags[..i];
      if IsAliasTag(tags[i]) {
        name := AliasOf(tags[i]);
      }
    }
    assert tags[..|tags|] == tags;
  }

  method NamesOfTags(tags: seq<string>) returns (names: seq<string>)
    ensures names == Aliases(tags)
  {
    names := [];
    for i := 0 to |tags|
      invariant names == Aliases(tags[..i])
    {
      assert tags[..i + 1][..i] == tags[..i];
      if IsAliasTag(tags[i]) {
        names := names + [AliasOf(tags[i])];
      }
    }
    assert tags[..|tags|] == tags;
  }

  method ExporterLoop(a: Admin, services: map<string, Service>, ids: seq<string>) returns (rows: seq<Row>)
    requires services == a.Services() && forall id | id in ids :: id in services
    modifies a`faults
    ensures a.faults >= old(a.faults)
    ensures a.faults == old(a.faults) ==> rows == ExporterRows(a.State(), a.config.clientName, ids)
  {
    hide UnitName, Dir, LastAlias, DsnBelow;
    ghost var w, client := a.State(), a.config.clientName;
    rows := [];
    for i := 0 to |ids|
      invariant a.faults >= old(a.faults)
      invariant a.faults == old(a.faults) ==> rows == ExporterRows(w, client, ids[..i])
    {
      assert ids[i] in ids && ids[..i + 1][..i] == ids[..i];
      var svc := services[ids[i]];
      if svc.kind == "consul" || HasSuffix(svc.kind, ":queries") { continue; }
      var status := GetServiceStatus(a, UnitOfService(svc));
      var dsn := ReadDsn(a, Dir(a.config.clientName, ids[i]));
      var name := NameOfTags(svc.tags);
      rows := rows + [Row(svc.kind, name, Itoa(svc.port), status, dsn)];
    }
    assert ids[..|ids|] == ids;
  }

  method AliasLoop(a: Admin, id: string, svc: Service, status: bool) returns (rows: seq<Row>)
    requires id in a.Services() && a.Services()[id] == svc
    modifies a`faults
    ensures a.faults >= old(a.faults)
    ensures a.faults == old(a.faults) && status == Running(a.units, UnitOfService(svc)) ==>
      rows == AliasRows(a.State(), a.config.clientName, id, Aliases(svc.tags))
  {
    hide UnitName, Dir, Aliases, DsnBelow;
    ghost var w, client := a.State(), a.config.clientName;
    var names := NamesOfTags(svc.tags);
    rows := [];
    for i := 0 to |names|
      invariant a.faults >= old(a.faults)
      invariant a.faults == old(a.faults) && status == Running(a.units, UnitOfService(svc)) ==>
        rows == AliasRows(w, client, id, names[..i])
    {
      assert names[..i + 1][..i] == names[..i];
      var dsn := ReadDsn(a, Dir(a.config.clientName, id) + names[i] + "/");
      rows := rows + [Row(svc.kind, names[i], "-", status, dsn)];
    }
    assert names[..|names|] == names;
  }

  method SourceLoop(a: Admin, services: map<string, Service>, ids: seq<string>) returns (rows: seq<Row>)
    requires services == a.Services() && forall id | id in ids :: id in services
    modifies a`faults
    ensures a.faults >= old(a.faults)
    ensures a.faults == old(a.faults) ==> rows == SourceRows(a.State(), a.config.clientName, ids)
  {
    hide UnitName, Dir, Aliases, DsnBelow, AliasRows;
    ghost var w, client := a.State(), a.config.clientName;
    rows := [];
    for i := 0 to |ids|
      invariant a.faults >= old(a.faults)
      invariant a.faults == old(a.faults) ==> rows == SourceRows(w, client, ids[..i])
    {
      assert ids[i] in ids && ids[..i + 1][..i] == ids[..i];
      var svc := services[ids[i]];
      if svc.kind == "consul" || !HasSuffix(svc.kind, ":queries") { continue; }
      var status := GetServiceStatus(a, UnitOfService(svc));
      var more := AliasLoop(a, ids[i], svc, status);
      rows := rows + more;
    }
    assert ids[..|ids|] == ids;
  }

  /** Without failures the rows are those of the table, in some order of the services. */
  method GetSVCTable(a: Admin) returns (rows: seq<Row>, ghost ids: seq<string>)
    modifies a`faults
    ensures a.faults >= old(a.faults)
    ensures forall id :: id in ids <==> id in a.Services()
    ensures forall i, j | 0 <= i < j < |ids| :: ids[i] != ids[j]
    ensures a.faults == old(a.faults) ==> rows == Table(a.State(), a.config.clientName, ids)
  {
    hide ExporterRows, SourceRows;
    var services := a.Services();
    var order := Listing(services.Keys);
    ids := order;
    var exporters := ExporterLoop(a, services, order);
    var sources := SourceLoop(a, services, order);
    rows := exporters + sources;
  }
}
