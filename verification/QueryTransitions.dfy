/** Query sources: adding and removing one of the aliases that share a single service. */
module QueryTransitions {
  import opened Stores
  import opened Registry
  import opened Transitions

  // ---------- tags ----------

  lemma {:induction false} OtherAliasesMembers(tags: seq<string>, alias: string, t: string)
    ensures t in OtherAliases(tags, alias) <==> t in tags && IsAliasTag(t) && t != AliasTag(alias)
  {
    hide IsAliasTag, AliasTag;
    if tags != [] {
      var n := |tags| - 1;
      OtherAliasesMembers(tags[..n], alias, t);
      assert tags == tags[..n] + [tags[n]];
    }
  }

  lemma {:induction false} OtherAliasesDistinct(tags: seq<string>, alias: string)
    requires DistinctAliases(tags)
    ensures DistinctAliases(OtherAliases(tags, alias))
  {
    hide IsAliasTag, AliasTag;
    if tags != [] {
      var n := |tags| - 1;
      var rest := OtherAliases(tags[..n], alias);
      OtherAliasesDistinct(tags[..n], alias);
      forall i | 0 <= i < |rest|
        ensures rest[i] in tags[..n] && IsAliasTag(rest[i])
      {
        OtherAliasesMembers(tags[..n], alias, rest[i]);
      }
    }
  }

  // ---------- the shared service ----------

  /** Every service ID in the catalog is some entry's. */
  lemma IdHasEntry(services: map<string, Service>, reg: Registry, id: string) returns (k: Key)
    requires CatalogAgrees(services, reg) && id in services
    ensures k in reg && IdOf(k, reg[k]) == id && k.kind == services[id].kind && IsAliasTag(AliasTag(k.alias))
    ensures AliasTag(k.alias) in services[id].tags
  {
    assert Backed(reg, id, services[id]);
    var t :| t in services[id].tags && IsAliasTag(t);
    assert Accounted(reg, id, services[id], t);
    k := Key(services[id].kind, AliasOf(t));
    assert AliasTag(k.alias) == t;
  }

  /** All entries at a query source's ID are query sources of its kind. */
  lemma SourcesShare(reg: Registry, k: Key, e: Entry)
    requires ValidRegistry(reg) && ValidEntry(k, e) && e.Source?
    ensures forall k' | k' in reg && IdOf(k', reg[k']) == IdOf(k, e) :: reg[k'].Source? && k'.kind == k.kind
    ensures forall k' | k' in reg && UnitOf(k', reg[k']) == UnitOf(k, e) :: IdOf(k', reg[k']) == IdOf(k, e)
  {
    hide DistinctPorts;
    forall k' | k' in reg && IdOf(k', reg[k']) == IdOf(k, e)
      ensures reg[k'].Source? && k'.kind == k.kind
    {
      ServiceIDInjective(k.kind, PortOf(e), k'.kind, PortOf(reg[k']));
    }
    forall k' | k' in reg && UnitOf(k', reg[k']) == UnitOf(k, e)
      ensures IdOf(k', reg[k']) == IdOf(k, e)
    {
      UnitNameInjective(k.kind, PortOf(e), k'.kind, PortOf(reg[k']));
    }
  }

  /** The service with one more alias. */
  function SourceService(k: Key, tags: seq<string>): Service {
    Service(k.kind, TagsWith(tags, k.alias), 0)
  }

  /** The tags a queries service starts from: those it has, or none if it does not exist. */
  predicate TagsOf(services: map<string, Service>, id: string, tags: seq<string>) {
    if id in services then tags == services[id].tags else tags == []
  }

  lemma AliasIsNew(services: map<string, Service>, reg: Registry, k: Key, e: Entry, tags: seq<string>)
    requires CatalogAgrees(services, reg) && ValidRegistry(reg) && k !in reg && e.Source? && ValidEntry(k, e)
    requires TagsOf(services, IdOf(k, e), tags)
    ensures AliasTag(k.alias) !in tags && DistinctAliases(tags)
    ensures forall t | t in tags && IsAliasTag(t) :: Accounted(reg, IdOf(k, e), SourceService(k, tags), t)
  {
    var id := IdOf(k, e);
    if id in services {
      var k1 := IdHasEntry(services, reg, id);
      SourcesShare(reg, k, e);
      hide ServiceID, ValidRegistry, ValidEntry;
      assert Backed(reg, id, services[id]);
      AliasTagInverse(k.alias);
      forall t | t in tags && IsAliasTag(t)
        ensures Accounted(reg, id, SourceService(k, tags), t) && AliasOf(t) != k.alias
      {
        assert Accounted(reg, id, services[id], t);
      }
    }
  }

  lemma TagsWithFacts(tags: seq<string>, alias: string)
    requires AliasTag(alias) !in tags && DistinctAliases(tags)
    ensures AliasTag(alias) in TagsWith(tags, alias) && DistinctAliases(TagsWith(tags, alias))
    ensures forall t | t in TagsWith(tags, alias) :: t in tags || t == AliasTag(alias)
    ensures forall t | t in tags :: t in TagsWith(tags, alias)
    ensures IsAliasTag(AliasTag(alias)) && AliasOf(AliasTag(alias)) == alias
  {
    AliasTagInverse(alias);
    hide IsAliasTag, AliasTag;
    var all := TagsWith(tags, alias);
    assert all[|tags|] == AliasTag(alias);
    forall t | t in tags
      ensures t in all
    {
      var i :| 0 <= i < |tags| && tags[i] == t;
      assert all[i] == t;
    }
  }

  lemma CatalogAddSource(services: map<string, Service>, reg: Registry, k: Key, e: Entry, tags: seq<string>)
    requires CatalogAgrees(services, reg) && ValidRegistry(reg) && k !in reg && e.Source? && ValidEntry(k, e)
    requires TagsOf(services, IdOf(k, e), tags)
    ensures CatalogAgrees(services[IdOf(k, e) := SourceService(k, tags)], reg[k := e])
  {
    AliasIsNew(services, reg, k, e, tags);
    TagsWithFacts(tags, k.alias);
    SourcesShare(reg, k, e);
    hide ServiceID, AliasTag, IsAliasTag, AliasOf, ValidRegistry, ValidEntry, DistinctAliases, Accounted, TagsWith;
    forall k' | k' in reg && IdOf(k', reg[k']) == IdOf(k, e)
      ensures Carries(SourceService(k, tags), k', reg[k'])
    {
      assert Served(services, k', reg[k']);
    }
    CatalogPut(services, reg, IdOf(k, e), SourceService(k, tags), k, e);
  }

  lemma CatalogRemoveSource(services: map<string, Service>, reg: Registry, k: Key)
    requires CatalogAgrees(services, reg) && ValidRegistry(reg) && k in reg && reg[k].Source?
    requires OtherAliases(services[IdOf(k, reg[k])].tags, k.alias) != []
    ensures var id := IdOf(k, reg[k]);
      CatalogAgrees(services[id := services[id].(tags := OtherAliases(services[id].tags, k.alias))], reg - {k})
  {
    var id := IdOf(k, reg[k]);
    assert Backed(reg, id, services[id]);
    SourcesShare(reg, k, reg[k]);
    hide ServiceID, ValidRegistry, CatalogAgrees;
    WithoutAlias(services[id], k);
    hide Without, OtherAliases;
    CatalogShrink(services, reg, k, services[id].(tags := OtherAliases(services[id].tags, k.alias)));
  }

  lemma WithoutAlias(was: Service, k: Key)
    requires HasAliases(was) && OtherAliases(was.tags, k.alias) != []
    ensures Without(was.(tags := OtherAliases(was.tags, k.alias)), was, k)
  {
    var tags := OtherAliases(was.tags, k.alias);
    OtherAliasesDistinct(was.tags, k.alias);
    assert tags[0] in tags;
    forall t
      ensures t in tags <==> t in was.tags && IsAliasTag(t) && t != AliasTag(k.alias)
      ensures IsAliasTag(t) ==> (t == AliasTag(k.alias) <==> AliasOf(t) == k.alias)
    {
      OtherAliasesMembers(was.tags, k.alias, t);
    }
    hide AliasTag, IsAliasTag, AliasOf, DistinctAliases, OtherAliases;
  }

  // ---------- keys ----------

  /** The keys of two aliases of one service never meet. */
  lemma SourceKeysApart(client: string, reg: Registry, k: Key, e: Entry)
    requires '/' !in client && ValidRegistry(reg) && ValidEntry(k, e) && e.Source?
    ensures forall key, k' | IsKeyOf(client, key, k', reg) ::
      Dir(client, IdOf(k, e)) + k.alias + "/" <= key <==> k'.kind == k.kind && k'.alias == k.alias
  {
    var dir := Dir(client, IdOf(k, e));
    ServiceIDHasNoSlash(k.kind, PortOf(e));
    SourcesShare(reg, k, e);
    forall key, k' | IsKeyOf(client, key, k', reg)
      ensures dir + k.alias + "/" <= key <==> k'.kind == k.kind && k'.alias == k.alias
    {
      SourceKeyApart(client, reg, k, e, key, k');
    }
  }

  lemma SourceKeyApart(client: string, reg: Registry, k: Key, e: Entry, key: string, k': Key)
    requires '/' !in client && ValidRegistry(reg) && ValidEntry(k, e) && e.Source?
    requires IsKeyOf(client, key, k', reg)
    requires '/' !in IdOf(k, e)
    requires forall k' | k' in reg && IdOf(k', reg[k']) == IdOf(k, e) :: reg[k'].Source? && k'.kind == k.kind
    ensures Dir(client, IdOf(k, e)) + k.alias + "/" <= key <==> k'.kind == k.kind && k'.alias == k.alias
  {
    hide DistinctPorts, ServiceID, PlainKind, SvcTypes;
    var dir := Dir(client, IdOf(k, e));
    assert ValidEntry(k', reg[k']);
    if dir + k.alias + "/" <= key {
      assert dir <= key by { PrefixOfPrefix(dir, k.alias + "/", key); }
      KeyInOneDir(client, IdOf(k, e), key, k', reg);
    } else if k'.kind == k.kind {
      assert reg[k'].Source? && IdOf(k', reg[k']) == IdOf(k, e);
    }
    if k'.kind == k.kind && IdOf(k', reg[k']) == IdOf(k, e) {
      var sub := key[|dir|..];
      assert key == dir + sub;
      SubBelowAlias(k', reg[k'], k.alias, dir, sub);
    }
  }

  lemma PrefixOfPrefix(a: string, b: string, s: string)
    requires a + b <= s
    ensures a <= s
  {
  }

  /** The two keys stored for a query source. */
  function WithSource(kv: map<string, string>, dir: string, k: Key, dsn: string, uuid: string): map<string, string> {
    kv[dir + DsnSub(k.alias) := dsn][dir + UuidSub(k.alias, NameOf(k.kind)) := uuid]
  }

  lemma WithSourceIsBelow(kv: map<string, string>, dir: string, k: Key, dsn: string, uuid: string)
    ensures WithSource(kv, dir, k, dsn, uuid) == kv + Below(dir, DataOf(k, Source(dsn, uuid)))
  {
    SubsDiffer(k.alias, NameOf(k.kind));
    hide DsnSub, UuidSub, NameOf;
    TwoPuts(kv, dir, DsnSub(k.alias), dsn, UuidSub(k.alias, NameOf(k.kind)), uuid);
  }

  lemma TwoPuts(kv: map<string, string>, dir: string, d: string, dsn: string, u: string, uuid: string)
    requires d != u
    ensures kv[dir + d := dsn][dir + u := uuid] == kv + Below(dir, map[d := dsn, u := uuid])
  {
    var data := map[d := dsn, u := uuid];
    var below := Below(dir, data);
    assert (dir + d)[|dir|..] == d && (dir + u)[|dir|..] == u;
    BelowFacts(dir, data, dir + d);
    BelowFacts(dir, data, dir + u);
    forall key | key in below
      ensures key == dir + d || key == dir + u
    {
      BelowFacts(dir, data, key);
      assert key == dir + key[|dir|..];
    }
    hide Below;
  }

  lemma SubsDiffer(alias: string, name: string)
    ensures DsnSub(alias) != UuidSub(alias, name)
  {
    assert DsnSub(alias)[|alias| + 1] == 'd';
    assert UuidSub(alias, name)[|alias| + 1] == 'q';
  }

  lemma BelowIsUnderAlias(dir: string, k: Key, e: Entry, key: string)
    requires e.Source? && '/' !in k.alias && key in Below(dir, DataOf(k, e))
    ensures dir + k.alias + "/" <= key
  {
    hide DataOf;
    BelowFacts(dir, DataOf(k, e), key);
    SubBelowAlias(k, e, k.alias, dir, key[|dir|..]);
    assert key == dir + key[|dir|..];
  }

  lemma KeysAddSource(kv: map<string, string>, client: string, reg: Registry, k: Key, e: Entry)
    requires '/' !in client && ValidRegistry(reg) && KeysAgree(kv, client, reg) && k !in reg
    requires e.Source? && ValidEntry(k, e)
    ensures KeysAgree(WithSource(kv, Dir(client, IdOf(k, e)), k, e.dsn, e.uuid), client, reg[k := e])
  {
    var dir := Dir(client, IdOf(k, e));
    WithSourceIsBelow(kv, dir, k, e.dsn, e.uuid);
    SourceKeysApart(client, reg, k, e);
    hide ServiceID, IsKeyOf, ValidRegistry, KeysAgree, WithSource, Dir, DataOf, Below;
    forall key, k' | IsKeyOf(client, key, k', reg)
      ensures key !in Below(dir, DataOf(k, e))
    {
      if key in Below(dir, DataOf(k, e)) {
        BelowIsUnderAlias(dir, k, e, key);
      }
    }
    KeysPut(kv, client, reg, k, e);
  }

  lemma KeysDropSource(kv: map<string, string>, client: string, reg: Registry, k: Key)
    requires '/' !in client && ValidRegistry(reg) && KeysAgree(kv, client, reg) && k in reg && reg[k].Source?
    ensures KeysAgree(DeleteTree(kv, Dir(client, IdOf(k, reg[k])) + k.alias + "/"), client, reg - {k})
  {
    SourceKeysApart(client, reg, k, reg[k]);
    hide KeysAgree, IsKeyOf, ServiceID, Dir, ValidRegistry;
    KeysDrop(kv, client, reg, k, Dir(client, IdOf(k, reg[k])) + k.alias + "/");
  }

  // ---------- adding and removing a query source ----------

  lemma SourceNames(k: Key, e: Entry)
    requires e.Source?
    ensures UnitOf(k, e) == UnitName(k.kind, 0) && IdOf(k, e) == ServiceID(k.kind, 0)
  {
    hide UnitName, ServiceID;
  }

  lemma AddedQueriesStores(w: World, client: string, address: string, k: Key, tags: seq<string>,
                           dsn: string, uuid: string, instances: map<string, Instance>)
    ensures var now := AddedQueries(w, client, address, k, 0, tags, dsn, uuid, instances);
      && now.Services(client) == w.Services(client)[ServiceID(k.kind, 0) := SourceService(k, tags)]
      && now.kv == WithSource(w.kv, Dir(client, ServiceID(k.kind, 0)), k, dsn, uuid)
      && now.units == w.units[UnitName(k.kind, 0) := true]
      && now.instances == instances && now.files == w.files
  {
    hide ServiceID, UnitName, Dir, TagsWith, DsnSub, UuidSub;
  }

  /** Adding a query source, the first of its kind or one more, is one insertion. */
  lemma AddQueriesInserts(w: World, client: string, address: string, parent: string, reg: Registry, k: Key,
                          dsn: string, uuid: string, tags: seq<string>, instances: map<string, Instance>)
    requires Represents(w, client, parent, reg) && k !in reg
    requires ValidEntry(k, Source(dsn, uuid))
    requires TagsOf(w.Services(client), ServiceID(k.kind, 0), tags)
    requires Acquired(w.instances, instances, uuid, Subsystem(k.kind), k.alias, parent)
    ensures Represents(AddedQueries(w, client, address, k, 0, tags, dsn, uuid, instances), client, parent,
                       reg[k := Source(dsn, uuid)])
  {
    hide *;
    var e := Source(dsn, uuid);
    Parts(w, client, parent, reg);
    SourceNames(k, e);
    ValidPut(w.Services(client), reg, k, e);
    CatalogAddSource(w.Services(client), reg, k, e, tags);
    UnitsPut(w.units, reg, k, e, true);
    KeysAddSource(w.kv, client, reg, k, e);
    InstancesPut(w.instances, instances, parent, reg, k, e);
    AddedQueriesStores(w, client, address, k, tags, dsn, uuid, instances);
    Whole(AddedQueries(w, client, address, k, 0, tags, dsn, uuid, instances), client, parent, reg[k := e]);
  }

  lemma RemovedQueriesStores(w: World, client: string, address: string, id: string, svc: Service, alias: string,
                             uuid: string)
    ensures var now := RemovedQueries(w, client, address, id, svc, alias, uuid);
      var tags := OtherAliases(svc.tags, alias);
      && now.Services(client) ==
           (if tags == [] then w.Services(client) - {id} else w.Services(client)[id := svc.(tags := tags)])
      && now.kv == DeleteTree(w.kv, Dir(client, id) + alias + "/")
      && now.units == (if tags == [] then w.units - {UnitName(svc.kind, svc.port)}
                       else w.units[UnitName(svc.kind, svc.port) := true])
      && now.instances == MarkedDeleted(w.instances, uuid) && now.files == w.files
  {
    hide Dir, UnitName, OtherAliases, DeleteTree, MarkedDeleted;
  }

  /** With no other alias on the service, no other entry uses its ID or its local service. */
  lemma NoOtherAlias(services: map<string, Service>, reg: Registry, k: Key)
    requires CatalogAgrees(services, reg) && ValidRegistry(reg) && k in reg && reg[k].Source?
    requires OtherAliases(services[IdOf(k, reg[k])].tags, k.alias) == []
    ensures forall k' | k' in reg && k' != k ::
      IdOf(k', reg[k']) != IdOf(k, reg[k]) && UnitOf(k', reg[k']) != UnitOf(k, reg[k])
  {
    var id := IdOf(k, reg[k]);
    SourcesShare(reg, k, reg[k]);
    forall k' | k' in reg && k' != k
      ensures IdOf(k', reg[k']) != id
    {
      hide ServiceID, UnitName, ValidRegistry;
      assert Served(services, k', reg[k']);
      if IdOf(k', reg[k']) == id {
        OtherAliasesMembers(services[id].tags, k.alias, AliasTag(k'.alias));
        AliasTagInverse(k'.alias);
        AliasTagInverse(k.alias);
      }
    }
  }

  lemma AnotherAlias(services: map<string, Service>, reg: Registry, k: Key) returns (k2: Key)
    requires CatalogAgrees(services, reg) && ValidRegistry(reg) && k in reg && reg[k].Source?
    requires OtherAliases(services[IdOf(k, reg[k])].tags, k.alias) != []
    ensures k2 in reg && k2 != k && UnitOf(k2, reg[k2]) == UnitOf(k, reg[k])
  {
    var id := IdOf(k, reg[k]);
    var other := OtherAliases(services[id].tags, k.alias);
    var t := other[0];
    OtherAliasesMembers(services[id].tags, k.alias, t);
    assert Backed(reg, id, services[id]) && Served(services, k, reg[k]);
    assert Accounted(reg, id, services[id], t);
    k2 := Key(services[id].kind, AliasOf(t));
    assert AliasTag(k2.alias) == t;
    SourcesShare(reg, k, reg[k]);
  }

  lemma UnitsRemoveSource(w: World, client: string, reg: Registry, k: Key, svc: Service)
    requires CatalogAgrees(w.Services(client), reg) && ValidRegistry(reg) && UnitsAgree(w.units, reg)
    requires k in reg && reg[k].Source?
    requires svc == w.Services(client)[IdOf(k, reg[k])]
    ensures svc.kind == k.kind && svc.port == 0
    ensures var unit := UnitName(k.kind, 0);
      UnitsAgree(if OtherAliases(svc.tags, k.alias) == [] then w.units - {unit} else w.units[unit := true], reg - {k})
  {
    assert Served(w.Services(client), k, reg[k]);
    SourceNames(k, reg[k]);
    if OtherAliases(svc.tags, k.alias) == [] {
      NoOtherAlias(w.Services(client), reg, k);
      hide *;
      UnitsDrop(w.units, reg, k);
    } else {
      var k2 := AnotherAlias(w.Services(client), reg, k);
      hide *;
      UnitsShared(w.units, reg, k, k2, true);
    }
  }

  lemma CatalogRemoveAlias(services: map<string, Service>, reg: Registry, k: Key)
    requires CatalogAgrees(services, reg) && ValidRegistry(reg) && k in reg && reg[k].Source?
    ensures var id := IdOf(k, reg[k]);
      id in services &&
      var tags := OtherAliases(services[id].tags, k.alias);
      CatalogAgrees(if tags == [] then services - {id} else services[id := services[id].(tags := tags)], reg - {k})
  {
    assert Served(services, k, reg[k]);
    if OtherAliases(services[IdOf(k, reg[k])].tags, k.alias) == [] {
      NoOtherAlias(services, reg, k);
      hide *;
      CatalogDrop(services, reg, k);
    } else {
      hide *;
      CatalogRemoveSource(services, reg, k);
    }
  }

  /** Removing a query source, the last of its kind or not, is one deletion. */
  lemma RemoveQueriesDeletes(w: World, client: string, address: string, parent: string, reg: Registry, k: Key,
                             svc: Service)
    requires Represents(w, client, parent, reg) && k in reg && reg[k].Source?
    requires IdOf(k, reg[k]) in w.Services(client) && svc == w.Services(client)[IdOf(k, reg[k])]
    ensures Represents(RemovedQueries(w, client, address, IdOf(k, reg[k]), svc, k.alias, reg[k].uuid), client, parent,
                       reg - {k})
  {
    hide *;
    var id := IdOf(k, reg[k]);
    Parts(w, client, parent, reg);
    ValidDrop(reg, k);
    CatalogRemoveAlias(w.Services(client), reg, k);
    UnitsRemoveSource(w, client, reg, k, svc);
    KeysDropSource(w.kv, client, reg, k);
    InstancesDrop(w.instances, parent, reg, k);
    RemovedQueriesStores(w, client, address, id, svc, k.alias, reg[k].uuid);
    Whole(RemovedQueries(w, client, address, id, svc, k.alias, reg[k].uuid), client, parent, reg - {k});
  }
}
