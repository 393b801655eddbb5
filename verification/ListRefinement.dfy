/** The list shows exactly the registry; a successful command changes exactly one of its rows. */
module ListRefinement {
  import opened Strings
  import opened Stores
  import opened Registry
  import opened Transitions
  import opened QueryTransitions
  import opened Monitor
  import opened Services
  import opened Refinement
  import opened Runs
  import opened ListView

  /** The data source an entry is listed with. */
  function DsnOf(e: Entry): string {
    match e
    case Exporter(_, _, data) => if "dsn" in data then data["dsn"] else "-"
    case Source(dsn, _) => dsn
  }

  function RowOf(k: Key, e: Entry, units: map<string, bool>): Row {
    Row(k.kind, k.alias, if e.Exporter? then Itoa(e.port) else "-", Running(units, UnitOf(k, e)), DsnOf(e))
  }

  function KeyOfRow(r: Row): Key { Key(r.kind, r.name) }

  /** The row shows an entry of the registry that lives at this ID. */
  predicate Shows(r: Row, reg: Registry, units: map<string, bool>, id: string) {
    var k := KeyOfRow(r);
    k in reg && r == RowOf(k, reg[k], units) && IdOf(k, reg[k]) == id
  }

  predicate OnePerKey(rows: seq<Row>) {
    forall i, j | 0 <= i < j < |rows| :: KeyOfRow(rows[i]) != KeyOfRow(rows[j])
  }

  /** The rows show exactly the entries of the registry, each once. */
  ghost predicate IsView(rows: seq<Row>, reg: Registry, units: map<string, bool>) {
    && OnePerKey(rows)
    && (forall r | r in rows :: KeyOfRow(r) in reg && r == RowOf(KeyOfRow(r), reg[KeyOfRow(r)], units))
    && (forall k | k in reg :: RowOf(k, reg[k], units) in rows)
  }

  // ---------- one service ----------

  lemma SuffixOf(name: string, role: string)
    requires |role| == 7
    ensures HasSuffix(name + ":" + role, ":queries") <==> role == "queries"
    ensures name + ":" + role != "consul"
  {
    var kind, suffix := name + ":" + role, ":" + "queries";
    assert |kind| == |name| + 8 && |suffix| == 8;
    assert kind[|name|..] == ":" + role;
    assert (":" + role)[1..] == role && suffix[1..] == "queries";
  }

  /** The two loops sort the services as the registry does. */
  lemma KindIsSorted(svc: Service)
    requires svc.kind in SvcTypes
    ensures IsSource(svc) <==> IsQueries(svc.kind)
    ensures IsExporter(svc) <==> !IsQueries(svc.kind)
  {
    hide SvcTypes, HasSuffix, NameOf, IsQueries, PlainKind, KnownName;
    KnownKinds(svc.kind);
    SuffixOf(NameOf(svc.kind), "queries");
    SuffixOf(NameOf(svc.kind), "metrics");
    assert "queries"[0] != "metrics"[0];
  }

  lemma {:induction false} LastAliasOfFirst(alias: string, extra: seq<string>)
    requires forall t | t in extra :: !IsAliasTag(t)
    ensures LastAlias([AliasTag(alias)] + extra) == alias
  {
    var tags := [AliasTag(alias)] + extra;
    if extra == [] {
      AliasTagInverse(alias);
    } else {
      assert tags[..|tags| - 1] == [AliasTag(alias)] + extra[..|extra| - 1];
      assert tags[|tags| - 1] == extra[|extra| - 1];
      assert forall t | t in extra[..|extra| - 1] :: t in extra;
      LastAliasOfFirst(alias, extra[..|extra| - 1]);
    }
  }

  lemma {:induction false} AliasesOfTags(tags: seq<string>, alias: string)
    ensures alias in Aliases(tags) <==> AliasTag(alias) in tags
  {
    if tags != [] {
      var n := |tags| - 1;
      AliasesOfTags(tags[..n], alias);
      assert tags == tags[..n] + [tags[n]];
      if IsAliasTag(tags[n]) {
        assert tags[n] == AliasTag(AliasOf(tags[n]));
        AliasTagInverse(alias);
      }
    }
  }

  lemma {:induction false} AliasesDistinct(tags: seq<string>)
    requires DistinctAliases(tags)
    ensures forall i, j | 0 <= i < j < |Aliases(tags)| :: Aliases(tags)[i] != Aliases(tags)[j]
  {
    if tags != [] {
      var n := |tags| - 1;
      AliasesDistinct(tags[..n]);
      if IsAliasTag(tags[n]) {
        AliasesOfTags(tags[..n], AliasOf(tags[n]));
        assert tags[n] == AliasTag(AliasOf(tags[n]));
        assert forall i | 0 <= i < n :: tags[i] != tags[n];
      }
    }
  }

  /** What is stored for an exporter is read back. */
  lemma ExporterDsn(w: World, client: string, reg: Registry, k: Key)
    requires '/' !in client && ValidRegistry(reg) && KeysAgree(w.kv, client, reg) && k in reg && reg[k].Exporter?
    ensures DsnBelow(w.kv, Dir(client, IdOf(k, reg[k]))) == DsnOf(reg[k])
  {
    var id := IdOf(k, reg[k]);
    var key := Dir(client, id) + "dsn";
    assert key[|Dir(client, id)|..] == "dsn";
    ServiceIDHasNoSlash(k.kind, reg[k].port);
    hide Dir, ServiceID;
    if "dsn" in reg[k].data {
      KeyIsThere(w.kv, client, reg, key, k);
    } else if key in w.kv {
      BelowClient(client, id, "dsn");
      var k' :| IsKeyOf(client, key, k', reg);
      KeyInOneDir(client, id, key, k', reg);
      SameId(reg, k, k');
    }
  }

  lemma BelowClient(client: string, id: string, sub: string)
    ensures client + "/" <= Dir(client, id) + sub
  {
    assert Dir(client, id) + sub == (client + "/") + (id + "/" + sub);
  }

  lemma SourceDsn(w: World, client: string, reg: Registry, k: Key)
    requires KeysAgree(w.kv, client, reg) && k in reg && reg[k].Source?
    ensures DsnBelow(w.kv, Dir(client, IdOf(k, reg[k])) + k.alias + "/") == DsnOf(reg[k])
  {
    var dir, sub := Dir(client, IdOf(k, reg[k])), DsnSub(k.alias);
    assert dir + k.alias + "/" + "dsn" == dir + sub;
    assert (dir + sub)[|dir|..] == sub;
    SubsDiffer(k.alias, NameOf(k.kind));
    hide Dir, ServiceID, DsnSub, UuidSub, NameOf;
    KeyIsThere(w.kv, client, reg, dir + sub, k);
  }

  /** The entry behind a service that the first loop lists. */
  lemma ExporterBehind(services: map<string, Service>, reg: Registry, id: string) returns (k: Key)
    requires CatalogAgrees(services, reg) && ValidRegistry(reg) && id in services && IsExporter(services[id])
    ensures k in reg && IdOf(k, reg[k]) == id && services[id].kind == k.kind && !IsQueries(k.kind)
    ensures reg[k].Exporter? && services[id].port == reg[k].port
    ensures LastAlias(services[id].tags) == k.alias
  {
    hide ServiceID, NameOf, RoleOf, AliasTag, IsExporter, IsSource, IsQueries, DistinctPorts, SvcTypes, PlainKind,
      HasAliases;
    k := IdHasEntry(services, reg, id);
    assert Served(services, k, reg[k]);
    assert ValidEntry(k, reg[k]);
    KindIsSorted(services[id]);
    LastAliasOfFirst(k.alias, reg[k].extra);
  }

  lemma ExporterRowShows(w: World, client: string, parent: string, reg: Registry, id: string)
    requires Represents(w, client, parent, reg) && id in w.Services(client) && IsExporter(w.Services(client)[id])
    ensures Shows(ExporterRow(w, client, id), reg, w.units, id)
    ensures !IsQueries(w.Services(client)[id].kind)
  {
    hide Represents, CatalogAgrees, ValidRegistry, ServiceID, UnitName, KeysAgree, UnitsAgree, InstancesAgree, Dir,
      DsnBelow,
      IsExporter, IsQueries, LastAlias, DsnOf, Running, Itoa;
    Parts(w, client, parent, reg);
    var k := ExporterBehind(w.Services(client), reg, id);
    ExporterDsn(w, client, reg, k);
  }

  /** The entry behind an alias that the second loop lists. */
  lemma SourceBehind(services: map<string, Service>, reg: Registry, id: string, alias: string)
    requires CatalogAgrees(services, reg) && ValidRegistry(reg) && id in services && IsSource(services[id])
    requires AliasTag(alias) in services[id].tags
    ensures
      var k := Key(services[id].kind, alias);
      k in reg && IdOf(k, reg[k]) == id && IsQueries(k.kind) && reg[k].Source? && services[id].port == 0
  {
    hide ServiceID, NameOf, RoleOf, AliasTag, AliasOf, IsAliasTag, IsExporter, IsSource, IsQueries, DistinctPorts,
      SvcTypes, PlainKind, HasAliases;
    AliasTagInverse(alias);
    var k := Key(services[id].kind, alias);
    assert Backed(reg, id, services[id]);
    assert Accounted(reg, id, services[id], AliasTag(alias));
    assert Served(services, k, reg[k]);
    assert ValidEntry(k, reg[k]);
    KindIsSorted(services[id]);
  }

  lemma SourceRowShows(w: World, client: string, parent: string, reg: Registry, id: string, alias: string)
    requires Represents(w, client, parent, reg) && id in w.Services(client) && IsSource(w.Services(client)[id])
    requires AliasTag(alias) in w.Services(client)[id].tags
    ensures Shows(SourceRow(w, client, id, alias), reg, w.units, id)
    ensures IsQueries(w.Services(client)[id].kind)
  {
    hide Represents, CatalogAgrees, ValidRegistry, ServiceID, UnitName, KeysAgree, UnitsAgree, InstancesAgree, Dir,
      DsnBelow,
      IsSource, IsQueries, DsnOf, Running, AliasTag;
    Parts(w, client, parent, reg);
    SourceBehind(w.Services(client), reg, id, alias);
    SourceDsn(w, client, reg, Key(w.Services(client)[id].kind, alias));
  }

  // ---------- both loops ----------

  /** The rows show exactly the entries of one role that live at the given IDs. */
  ghost predicate Covers(rows: seq<Row>, reg: Registry, units: map<string, bool>, ids: seq<string>, queries: bool) {
    && OnePerKey(rows)
    && (forall r | r in rows :: ShownAt(r, reg, units, ids, queries))
    && (forall k | k in reg && IdOf(k, reg[k]) in ids && IsQueries(k.kind) == queries ::
          RowOf(k, reg[k], units) in rows)
  }

  predicate ShownAt(r: Row, reg: Registry, units: map<string, bool>, ids: seq<string>, queries: bool) {
    var k := KeyOfRow(r);
    k in reg && Shows(r, reg, units, IdOf(k, reg[k])) && IdOf(k, reg[k]) in ids && IsQueries(k.kind) == queries
  }

  /** One more service contributes its entries. */
  lemma CoversAppend(rows: seq<Row>, more: seq<Row>, reg: Registry, units: map<string, bool>, ids: seq<string>,
                     id: string, queries: bool)
    requires id !in ids
    requires Covers(rows, reg, units, ids, queries) && Covers(more, reg, units, [id], queries)
    ensures Covers(rows + more, reg, units, ids + [id], queries)
  {
    hide IsQueries, RowOf, IdOf;
    assert forall r | r in rows + more :: r in rows || r in more;
    forall i, j | 0 <= i < j < |rows + more|
      ensures KeyOfRow((rows + more)[i]) != KeyOfRow((rows + more)[j])
    {
      if i < |rows| <= j {
        assert ShownAt(rows[i], reg, units, ids, queries);
        assert ShownAt(more[j - |rows|], reg, units, [id], queries);
      }
    }
  }

  lemma NothingAt(w: World, client: string, parent: string, reg: Registry, id: string, queries: bool)
    requires Represents(w, client, parent, reg) && id in w.Services(client)
    requires if queries then !IsSource(w.Services(client)[id]) else !IsExporter(w.Services(client)[id])
    ensures Covers([], reg, w.units, [id], queries)
  {
    hide Represents, ServiceID, IsQueries, IsSource, IsExporter, RowOf, SvcTypes, ValidEntry;
    forall k | k in reg && IdOf(k, reg[k]) == id
      ensures IsQueries(k.kind) != queries
    {
      ServiceOfEntry(w, client, parent, reg, k);
      ValidOf(w, client, parent, reg, k);
      EntryRole(k, reg[k]);
      KindIsSorted(w.Services(client)[id]);
    }
  }

  lemma ExporterAt(w: World, client: string, parent: string, reg: Registry, id: string)
    requires Represents(w, client, parent, reg) && id in w.Services(client) && IsExporter(w.Services(client)[id])
    ensures Covers([ExporterRow(w, client, id)], reg, w.units, [id], false)
  {
    hide Represents, CatalogAgrees, UnitsAgree, KeysAgree, InstancesAgree, ServiceID, IsQueries, IsExporter, RowOf,
      ValidRegistry, ValidEntry;
    Parts(w, client, parent, reg);
    ExporterRowShows(w, client, parent, reg, id);
    var k := KeyOfRow(ExporterRow(w, client, id));
    forall k' | k' in reg && IdOf(k', reg[k']) == id
      ensures k' == k
    {
      ValidOf(w, client, parent, reg, k);
      EntryRole(k, reg[k]);
      SameId(reg, k, k');
    }
  }

  lemma {:induction false} AliasRowsAre(w: World, client: string, id: string, names: seq<string>)
    requires id in w.Services(client)
    ensures |AliasRows(w, client, id, names)| == |names|
    ensures forall i | 0 <= i < |names| :: AliasRows(w, client, id, names)[i] == SourceRow(w, client, id, names[i])
  {
    hide SourceRow;
    if names != [] {
      AliasRowsAre(w, client, id, names[..|names| - 1]);
    }
  }

  lemma SourcesAt(w: World, client: string, parent: string, reg: Registry, id: string)
    requires Represents(w, client, parent, reg) && id in w.Services(client) && IsSource(w.Services(client)[id])
    ensures Covers(AliasRows(w, client, id, Aliases(w.Services(client)[id].tags)), reg, w.units, [id], true)
  {
    hide Represents, CatalogAgrees, ServiceID, IsQueries, IsSource, RowOf, AliasTag, Aliases, AliasRows, Shows, IdOf;
    var svc := w.Services(client)[id];
    var names := Aliases(svc.tags);
    var rows := AliasRows(w, client, id, names);
    AliasRowsAre(w, client, id, names);
    TagsAreDistinct(w, client, parent, reg, id);
    AliasesDistinct(svc.tags);
    forall i | 0 <= i < |rows|
      ensures rows[i].kind == svc.kind && rows[i].name == names[i] && ShownAt(rows[i], reg, w.units, [id], true)
    {
      AliasesOfTags(svc.tags, names[i]);
      SourceRowShows(w, client, parent, reg, id, names[i]);
      ShownAtId(rows[i], reg, w.units, id, true);
    }
    forall k | k in reg && IdOf(k, reg[k]) == id
      ensures RowOf(k, reg[k], w.units) in rows
    {
      TaggedAt(w, client, parent, reg, k);
      AliasesOfTags(svc.tags, k.alias);
      SourceRowShows(w, client, parent, reg, id, k.alias);
      var i :| 0 <= i < |names| && names[i] == k.alias;
      assert rows[i] == SourceRow(w, client, id, k.alias);
      ShownAtId(rows[i], reg, w.units, id, true);
    }
  }

  lemma ShownAtId(r: Row, reg: Registry, units: map<string, bool>, id: string, queries: bool)
    requires Shows(r, reg, units, id) && IsQueries(r.kind) == queries
    ensures ShownAt(r, reg, units, [id], queries) && r == RowOf(KeyOfRow(r), reg[KeyOfRow(r)], units)
  {
    hide RowOf, IdOf, IsQueries;
  }

  lemma TagsAreDistinct(w: World, client: string, parent: string, reg: Registry, id: string)
    requires Represents(w, client, parent, reg) && id in w.Services(client)
    ensures DistinctAliases(w.Services(client)[id].tags)
  {
    hide UnitsAgree, KeysAgree, InstancesAgree, ValidRegistry, Accounted;
    assert Backed(reg, id, w.Services(client)[id]);
  }

  lemma TaggedAt(w: World, client: string, parent: string, reg: Registry, k: Key)
    requires Represents(w, client, parent, reg) && k in reg
    ensures IdOf(k, reg[k]) in w.Services(client)
    ensures
      var svc := w.Services(client)[IdOf(k, reg[k])];
      svc.kind == k.kind && AliasTag(k.alias) in svc.tags
  {
    hide UnitsAgree, KeysAgree, InstancesAgree, ValidRegistry, Accounted, ServiceID, AliasTag;
    assert Served(w.Services(client), k, reg[k]);
    CarriesTag(w.Services(client)[IdOf(k, reg[k])], k, reg[k]);
  }

  lemma {:induction false} ExporterRowsCover(w: World, client: string, parent: string, reg: Registry, ids: seq<string>)
    requires Represents(w, client, parent, reg) && forall id | id in ids :: id in w.Services(client)
    requires forall i, j | 0 <= i < j < |ids| :: ids[i] != ids[j]
    ensures Covers(ExporterRows(w, client, ids), reg, w.units, ids, false)
  {
    hide Represents, Covers, IsExporter, ExporterRow;
    if ids == [] {
      CoversNone(reg, w.units, false);
    } else {
      var n := |ids| - 1;
      assert forall id | id in ids[..n] :: id in ids;
      assert ids == ids[..n] + [ids[n]];
      ExporterRowsCover(w, client, parent, reg, ids[..n]);
      var more := [];
      if IsExporter(w.Services(client)[ids[n]]) {
        ExporterAt(w, client, parent, reg, ids[n]);
        more := [ExporterRow(w, client, ids[n])];
      } else {
        NothingAt(w, client, parent, reg, ids[n], false);
      }
      CoversAppend(ExporterRows(w, client, ids[..n]), more, reg, w.units, ids[..n], ids[n], false);
    }
  }

  lemma {:induction false} SourceRowsCover(w: World, client: string, parent: string, reg: Registry, ids: seq<string>)
    requires Represents(w, client, parent, reg) && forall id | id in ids :: id in w.Services(client)
    requires forall i, j | 0 <= i < j < |ids| :: ids[i] != ids[j]
    ensures Covers(SourceRows(w, client, ids), reg, w.units, ids, true)
  {
    hide Represents, Covers, IsSource, AliasRows, Aliases;
    if ids == [] {
      CoversNone(reg, w.units, true);
    } else {
      var n := |ids| - 1;
      assert forall id | id in ids[..n] :: id in ids;
      assert ids == ids[..n] + [ids[n]];
      SourceRowsCover(w, client, parent, reg, ids[..n]);
      var more := [];
      if IsSource(w.Services(client)[ids[n]]) {
        SourcesAt(w, client, parent, reg, ids[n]);
        more := AliasRows(w, client, ids[n], Aliases(w.Services(client)[ids[n]].tags));
      } else {
        NothingAt(w, client, parent, reg, ids[n], true);
      }
      CoversAppend(SourceRows(w, client, ids[..n]), more, reg, w.units, ids[..n], ids[n], true);
    }
  }

  lemma CoversNone(reg: Registry, units: map<string, bool>, queries: bool)
    ensures Covers([], reg, units, [], queries)
  {
  }

  // ---------- the theorems ----------

  /** In a represented state the table is the registry, whatever the order of the services. */
  lemma TableIsView(w: World, client: string, parent: string, reg: Registry, ids: seq<string>)
    requires Represents(w, client, parent, reg) && forall id :: id in ids <==> id in w.Services(client)
    requires forall i, j | 0 <= i < j < |ids| :: ids[i] != ids[j]
    ensures IsView(Table(w, client, ids), reg, w.units)
  {
    hide Represents, ExporterRows, SourceRows, IsQueries, RowOf, ServiceID;
    ExporterRowsCover(w, client, parent, reg, ids);
    SourceRowsCover(w, client, parent, reg, ids);
    var first, second := ExporterRows(w, client, ids), SourceRows(w, client, ids);
    assert forall r | r in first + second :: r in first || r in second;
    forall i, j | 0 <= i < j < |first + second|
      ensures KeyOfRow((first + second)[i]) != KeyOfRow((first + second)[j])
    {
      if i < |first| <= j {
        assert ShownAt(first[i], reg, w.units, ids, false);
        assert ShownAt(second[j - |first|], reg, w.units, ids, true);
      }
    }
    forall k | k in reg
      ensures RowOf(k, reg[k], w.units) in first + second
    {
      ServiceOfEntry(w, client, parent, reg, k);
    }
  }

  /** The columns that identify what is monitored. */
  datatype Line = Line(kind: string, name: string, dsn: string)

  function LineOf(r: Row): Line { Line(r.kind, r.name, r.dsn) }

  function Lines(rows: seq<Row>): set<Line> { set r | r in rows :: LineOf(r) }

  function EntryLine(k: Key, e: Entry): Line { Line(k.kind, k.alias, DsnOf(e)) }

  function RegistryLines(reg: Registry): set<Line> { set k | k in reg :: EntryLine(k, reg[k]) }

  lemma LinesOfView(rows: seq<Row>, reg: Registry, units: map<string, bool>)
    requires IsView(rows, reg, units)
    ensures Lines(rows) == RegistryLines(reg)
  {
    hide Running;
    forall k | k in reg
      ensures EntryLine(k, reg[k]) in Lines(rows)
    {
      assert RowOf(k, reg[k], units) in rows;
      assert EntryLine(k, reg[k]) == LineOf(RowOf(k, reg[k], units));
    }
  }

  /** A line the command is about: a new source is shown with its sanitised DSN, an exporter with what it stores. */
  predicate Describes(line: Line, c: Command) {
    && c.Concerns(Key(line.kind, line.name))
    && (c.AddSource? ==> c.q.init.Some? && line.dsn == Sanitize.SanitizeDSN(c.q.init.value.dsn))
    && (c.AddExporter? ==> line.dsn == if "dsn" in c.m.data then c.m.data["dsn"] else "-")
  }

  /** A successful add introduces exactly its own line, a successful remove deletes exactly it. */
  lemma CommandChangesOneLine(c: Command, was: World, now: World, config: Config, parent: string, reg: Registry,
                              wasIds: seq<string>, nowIds: seq<string>)
    requires Represents(was, config.clientName, parent, reg)
    requires c.Valid() && c.Performs(was, now, config, parent)
    requires forall id :: id in wasIds <==> id in was.Services(config.clientName)
    requires forall i, j | 0 <= i < j < |wasIds| :: wasIds[i] != wasIds[j]
    requires forall id :: id in nowIds <==> id in now.Services(config.clientName)
    requires forall i, j | 0 <= i < j < |nowIds| :: nowIds[i] != nowIds[j]
    ensures
      var before, after := Lines(Table(was, config.clientName, wasIds)), Lines(Table(now, config.clientName, nowIds));
      exists line: Line :: Describes(line, c) &&
        if c.Adds()
        then line !in before && after == before + {line}
        else line in before && after == before - {line}
  {
    hide *;
    var reg' := StepRefines(c, was, now, config, parent, reg);
    TableIsView(was, config.clientName, parent, reg, wasIds);
    TableIsView(now, config.clientName, parent, reg', nowIds);
    LinesOfView(Table(was, config.clientName, wasIds), reg, was.units);
    LinesOfView(Table(now, config.clientName, nowIds), reg', now.units);
    EffectOnLines(c, reg, reg');
  }

  lemma LinesInserted(reg: Registry, k: Key, e: Entry)
    requires k !in reg
    ensures EntryLine(k, e) !in RegistryLines(reg)
    ensures RegistryLines(reg[k := e]) == RegistryLines(reg) + {EntryLine(k, e)}
  {
    hide DsnOf;
    var full := reg[k := e];
    forall line | line in RegistryLines(reg)
      ensures line != EntryLine(k, e) && line in RegistryLines(full)
    {
      var k' :| k' in reg && line == EntryLine(k', reg[k']);
      assert full[k'] == reg[k'];
    }
    assert full[k] == e;
    assert forall line | line in RegistryLines(full) :: line in RegistryLines(reg) || line == EntryLine(k, e);
  }

  lemma DsnOfTarget(c: Command, reg: Registry, reg': Registry)
    requires c.Effect(reg, reg') && c.Adds()
    ensures c.Target() in reg' && Describes(EntryLine(c.Target(), reg'[c.Target()]), c)
  {
    hide Command.Target, Sanitize.SanitizeDSN;
  }

  lemma EffectOnLines(c: Command, reg: Registry, reg': Registry)
    requires c.Effect(reg, reg')
    ensures
      var before, after := RegistryLines(reg), RegistryLines(reg');
      exists line: Line :: Describes(line, c) &&
        if c.Adds()
        then line !in before && after == before + {line}
        else line in before && after == before - {line}
  {
    hide Command.Target, Sanitize.SanitizeDSN, DsnOf;
    if c.Adds() {
      var k := c.Target();
      LinesInserted(reg, k, reg'[k]);
      assert Describes(EntryLine(k, reg'[k]), c) by {
        DsnOfTarget(c, reg, reg');
      }
    } else {
      var k :| k in reg && c.Concerns(k) && reg' == reg - {k};
      LinesInserted(reg', k, reg[k]);
      assert reg == reg'[k := reg[k]];
      assert Describes(EntryLine(k, reg[k]), c);
    }
  }
}
