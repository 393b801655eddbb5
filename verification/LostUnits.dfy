/**
 * Local services that are lost, by whatever means, and the repair that gives up what they served: exactly the
 * entries of the registry that had them.
 */
module LostUnits {
  import opened Stores
  import opened Registry
  import opened Transitions
  import opened Queries
  import opened Refinement
  import opened Runs
  import opened Repair
  import opened Failures
  import opened Recovery
  import opened GatedRuns
  import opened StoredUuids
  import Stuck

  /** Some local services are gone; nothing else has changed. */
  predicate UnitsLost(was: World, mid: World) {
    mid == was.(units := mid.units) && mid.units.Keys <= was.units.Keys
  }

  /** The entries whose local service is there. */
  function Surviving(reg: Registry, units: map<string, bool>): Registry {
    map k | k in reg && UnitOf(k, reg[k]) in units :: reg[k]
  }

  /** An exporter that is lost stores, where repair looks for UUIDs, that of a query source which is not lost. */
  ghost predicate Confusing(client: string, reg: Registry, units: map<string, bool>) {
    exists k, u :: k in Surviving(reg, units) && IsUuidOf(reg[k], u) && StoredByLost(client, reg, units, u)
  }

  predicate IsUuidOf(e: Entry, u: string) { e.Source? && e.uuid == u }

  ghost predicate StoredByLost(client: string, reg: Registry, units: map<string, bool>, u: string) {
    exists k, sub ::
      k in reg && k !in Surviving(reg, units) && reg[k].Exporter? && StoresUuid(client, k, reg[k], sub, u)
  }

  predicate StoresUuid(client: string, k: Key, e: Entry, sub: string, u: string) {
    sub in DataOf(k, e) && IsUuidKey(DataKey(client, k, e, sub)) && DataOf(k, e)[sub] == u
  }

  // ---------- catalog, local services, keys ----------

  lemma ServicesSurvive(was: World, mid: World, now: World, client: string, reg: Registry)
    requires CatalogAgrees(was.Services(client), reg) && UnitsLost(was, mid)
    requires now.Services(client) == Matched(mid, client)
    ensures CatalogAgrees(now.Services(client), Surviving(reg, mid.units))
  {
    hide CatalogAgrees, ServiceID, UnitName;
    var services := was.Services(client);
    CatalogRestrict(services, now.Services(client), reg);
    forall k | k in reg
      ensures IdOf(k, reg[k]) in now.Services(client) <==> UnitOf(k, reg[k]) in mid.units
    {
      ServiceAt(services, reg, k);
    }
    assert Serviced(reg, now.Services(client)) == Surviving(reg, mid.units);
  }

  lemma UnitsSurvive(was: World, mid: World, now: World, client: string, reg: Registry)
    requires CatalogAgrees(was.Services(client), reg) && UnitsAgree(was.units, reg) && UnitsLost(was, mid)
    requires now.units == WantedUnits(mid, client)
    ensures UnitsAgree(now.units, Surviving(reg, mid.units))
  {
    hide CatalogAgrees, ServiceID, UnitName;
    var services, kept := was.Services(client), Surviving(reg, mid.units);
    forall k | k in kept
      ensures UnitOf(k, kept[k]) in now.units
    {
      ServiceAt(services, reg, k);
      assert UnitOf(k, reg[k]) in Wanted(services);
    }
    forall u | u in now.units
      ensures exists k :: IsUnitOf(u, k, kept)
    {
      assert u in was.units;
      var k :| IsUnitOf(u, k, reg);
      assert IsUnitOf(u, k, kept);
    }
  }

  lemma ValidSurvives(reg: Registry, units: map<string, bool>)
    requires ValidRegistry(reg)
    ensures ValidRegistry(Surviving(reg, units))
  {
    hide ValidEntry, UnitOf;
  }

  /** An entry without its local service is one whose catalog service is missing it. */
  lemma LostIsMissing(was: World, mid: World, client: string, reg: Registry, k: Key)
    requires CatalogAgrees(was.Services(client), reg) && UnitsLost(was, mid) && k in reg
    ensures IdOf(k, reg[k]) in mid.Services(client)
    ensures IsMissing(mid, client, IdOf(k, reg[k])) <==> k !in Surviving(reg, mid.units)
  {
    hide CatalogAgrees, ServiceID, UnitName;
    ServiceAt(was.Services(client), reg, k);
  }

  /** A key lies below a missing service exactly if its entry is lost. */
  lemma KeyOfLost(was: World, mid: World, client: string, reg: Registry, key: string, k: Key)
    requires '/' !in client && ValidRegistry(reg) && CatalogAgrees(was.Services(client), reg) && UnitsLost(was, mid)
    requires IsKeyOf(client, key, k, reg)
    ensures UnderMissing(mid, client, key) <==> k !in Surviving(reg, mid.units)
  {
    hide CatalogAgrees, ServiceID, UnitName, Dir, DataOf, ValidRegistry, IsMissing, Surviving;
    LostIsMissing(was, mid, client, reg, k);
    assert Dir(client, IdOf(k, reg[k])) <= key;
    AgreedIsWellNamed(mid.Services(client), reg);
    if UnderMissing(mid, client, key) {
      var id :| id in mid.Services(client) && IsMissing(mid, client, id) && Dir(client, id) <= key;
      Stuck.NameAt(mid.Services(client), id);
      ServiceIDHasNoSlash(mid.Services(client)[id].kind, mid.Services(client)[id].port);
      KeyInOneDir(client, id, key, k, reg);
    }
  }

  lemma KeysSurvive(was: World, mid: World, now: World, client: string, reg: Registry)
    requires '/' !in client && ValidRegistry(reg) && CatalogAgrees(was.Services(client), reg) && UnitsLost(was, mid)
    requires KeysAgree(was.kv, client, reg) && KeysKept(mid, now, client)
    requires forall key | key in mid.kv :: key in now.kv <==> !UnderMissing(mid, client, key)
    ensures KeysAgree(now.kv, client, Surviving(reg, mid.units))
  {
    hide CatalogAgrees, ServiceID, UnitName, ValidRegistry, UnderMissing, DataOf, Dir;
    var kept := Surviving(reg, mid.units);
    forall key, k | IsKeyOf(client, key, k, kept)
      ensures key in now.kv && now.kv[key] == ValueAt(client, key, k, kept)
    {
      assert IsKeyOf(client, key, k, reg);
      KeyOfLost(was, mid, client, reg, key, k);
    }
    forall key | key in now.kv && client + "/" <= key
      ensures exists k :: IsKeyOf(client, key, k, kept)
    {
      assert key in was.kv;
      var k :| IsKeyOf(client, key, k, reg);
      KeyOfLost(was, mid, client, reg, key, k);
      assert IsKeyOf(client, key, k, kept);
    }
  }

  // ---------- instances ----------

  lemma UuidKeyOfSource(client: string, k: Key, e: Entry)
    requires ValidEntry(k, e) && e.Source?
    ensures IsUuidKey(UuidKey(client, IdOf(k, e), k.alias, NameOf(k.kind)))
    ensures UuidKey(client, IdOf(k, e), k.alias,
                    NameOf(k.kind)) == DataKey(client, k, e, UuidSub(k.alias, NameOf(k.kind)))
  {
    hide ServiceID, Dir, IsUuidKey, NameOf, PlainKind, IsQueries, SvcTypes;
    KnownKinds(k.kind);
    UuidKeyIsSought(client, IdOf(k, e), k.alias, k.kind);
  }

  /** The UUID of a lost source is found. */
  lemma LostSourceIsFound(was: World, mid: World, client: string, parent: string, reg: Registry, k: Key)
    requires Represents(was, client, parent, reg) && UnitsLost(was, mid)
    requires k in reg && k !in Surviving(reg, mid.units) && reg[k].Source?
    ensures UuidUnderMissing(mid, client, reg[k].uuid)
  {
    hide Represents, CatalogAgrees, KeysAgree, ServiceID, UnitName, Dir, IsUuidKey, NameOf, ValidEntry, Surviving,
      IsMissing;
    Parts(was, client, parent, reg);
    ValidOf(was, client, parent, reg, k);
    LostIsMissing(was, mid, client, reg, k);
    UuidIsStored(was.kv, client, reg, k);
    UuidKeyOfSource(client, k, reg[k]);
    var key := UuidKey(client, IdOf(k, reg[k]), k.alias, NameOf(k.kind));
    assert Dir(client, IdOf(k, reg[k])) <= key;
    assert UnderMissing(mid, client, key);
  }

  /** A UUID that is found is that of a lost source, or something that a lost exporter stores. */
  lemma FoundIsStored(was: World, mid: World, client: string, parent: string, reg: Registry, u: string)
    requires Represents(was, client, parent, reg) && UnitsLost(was, mid) && UuidUnderMissing(mid, client, u)
    ensures StoredByLost(client, reg, mid.units, u) ||
      exists k :: k in reg && k !in Surviving(reg, mid.units) && IsUuidOf(reg[k], u)
  {
    hide Represents, CatalogAgrees, ServiceID, UnitName, Dir, IsUuidKey, NameOf, ValidRegistry, Surviving, UnderMissing,
      StoresUuid, IsUuidOf, DataOf, ValueAt;
    Parts(was, client, parent, reg);
    var key :| key in mid.kv && UnderMissing(mid, client, key) && IsUuidKey(key) && mid.kv[key] == u;
    BelowClient(mid, client, key);
    var k :| IsKeyOf(client, key, k, reg);
    KeyOfLost(was, mid, client, reg, key, k);
    KeyIsThere(was.kv, client, reg, key, k);
    var sub := KeyTells(client, reg, key, k, u);
  }

  /** What a key that repair looks at stores on behalf of an entry. */
  lemma KeyTells(client: string, reg: Registry, key: string, k: Key, u: string) returns (sub: string)
    requires IsKeyOf(client, key, k, reg) && IsUuidKey(key) && ValueAt(client, key, k, reg) == u
    ensures if reg[k].Exporter? then StoresUuid(client, k, reg[k], sub, u) else IsUuidOf(reg[k], u)
  {
    hide ServiceID, Dir, IsUuidKey, NameOf;
    var dir := Dir(client, IdOf(k, reg[k]));
    sub := key[|dir|..];
    assert key == dir + sub == DataKey(client, k, reg[k], sub);
    if reg[k].Source? && sub == DsnSub(k.alias) {
      assert key == (dir + k.alias + "/") + "dsn";
      Stuck.DsnIsNoUuid(dir + k.alias + "/");
    }
  }

  lemma BelowClient(w: World, client: string, key: string)
    requires UnderMissing(w, client, key)
    ensures client + "/" <= key
  {
    hide IsMissing, Dir;
    var id :| id in w.Services(client) && IsMissing(w, client, id) && Dir(client, id) <= key;
    DirIsBelow(client, id, key);
  }

  /** What a lost exporter stores is found. */
  lemma StoredIsFound(was: World, mid: World, client: string, parent: string, reg: Registry, u: string)
    requires Represents(was, client, parent, reg) && UnitsLost(was, mid) && StoredByLost(client, reg, mid.units, u)
    ensures UuidUnderMissing(mid, client, u)
  {
    hide Represents, CatalogAgrees, ServiceID, UnitName, Dir, IsUuidKey, ValidRegistry, Surviving, UnderMissing, DataOf;
    Parts(was, client, parent, reg);
    var k, sub :|
      k in reg && k !in Surviving(reg, mid.units) && reg[k].Exporter? && StoresUuid(client, k, reg[k], sub, u);
    var dir, key := Dir(client, IdOf(k, reg[k])), DataKey(client, k, reg[k], sub);
    assert key[|dir|..] == sub;
    assert IsKeyOf(client, key, k, reg);
    KeyIsThere(was.kv, client, reg, key, k);
    KeyOfLost(was, mid, client, reg, key, k);
  }

  /** The instance of a surviving source is left alone, unless a lost exporter stores its UUID. */
  lemma SurvivorIsFound(was: World, mid: World, client: string, parent: string, reg: Registry, k: Key)
    requires Represents(was, client, parent, reg) && UnitsLost(was, mid)
    requires k in Surviving(reg, mid.units) && reg[k].Source?
    ensures UuidUnderMissing(mid, client, reg[k].uuid) <==> StoredByLost(client, reg, mid.units, reg[k].uuid)
  {
    hide Represents, UuidUnderMissing, StoredByLost, UnitOf, ValidRegistry;
    if StoredByLost(client, reg, mid.units, reg[k].uuid) {
      StoredIsFound(was, mid, client, parent, reg, reg[k].uuid);
    }
    if UuidUnderMissing(mid, client, reg[k].uuid) {
      FoundIsStored(was, mid, client, parent, reg, reg[k].uuid);
      if k' :| k' in reg && k' !in Surviving(reg, mid.units) && IsUuidOf(reg[k'], reg[k].uuid) {
        UuidsAreDistinct(was, client, parent, reg);
      }
    }
  }

  lemma InstancesSurvive(was: World, mid: World, now: World, client: string, parent: string, reg: Registry)
    requires Represents(was, client, parent, reg) && UnitsLost(was, mid) && FullyRepaired(mid, now, client)
    requires !Confusing(client, reg, mid.units)
    ensures InstancesAgree(now.instances, parent, Surviving(reg, mid.units))
    ensures forall k | k in Surviving(reg, mid.units) && reg[k].Source? ::
      reg[k].uuid in was.instances && reg[k].uuid in now.instances &&
      now.instances[reg[k].uuid] == was.instances[reg[k].uuid]
  {
    hide Represents, UuidUnderMissing, StoredByLost, UnitOf, ValidRegistry, Repaired, UnderMissing, CatalogAgrees,
      KeysAgree, KeyOfInstance, IsSourceType;
    var kept := Surviving(reg, mid.units);
    assert now.instances.Keys == was.instances.Keys by { RepairKeepsInstances(mid, now, client); }
    forall k | k in kept
      ensures Analysed(now.instances, parent, k, kept[k])
      ensures reg[k].Source? ==>
        reg[k].uuid in was.instances && now.instances[reg[k].uuid] == was.instances[reg[k].uuid]
    {
      if reg[k].Source? {
        EntryIsLive(was, client, parent, reg, k);
        SurvivorIsFound(was, mid, client, parent, reg, k);
        assert IsUuidOf(reg[k], reg[k].uuid);
      }
    }
    forall u | Live(now.instances, u, parent)
      ensures Expected(kept, u, now.instances[u])
    {
      assert !UuidUnderMissing(mid, client, u) && now.instances[u] == was.instances[u];
      var k := KeyOfInstance(was.instances[u]);
      LiveHasEntry(was, client, parent, reg, u, k);
      if k !in kept {
        LostSourceIsFound(was, mid, client, parent, reg, k);
      }
    }
  }

  lemma RepairKeepsInstances(mid: World, now: World, client: string)
    requires Repaired(mid, now, client)
    ensures now.instances.Keys == mid.instances.Keys && now.files == mid.files
  {
    hide Matched, WantedUnits, KeysKept, UuidUnderMissing, SameOrDeleted;
  }

  /** Otherwise the instance of a source that survives is deleted with what is lost. */
  lemma ConfusedIsDeleted(was: World, mid: World, now: World, client: string, parent: string, reg: Registry)
    requires Represents(was, client, parent, reg) && UnitsLost(was, mid) && FullyRepaired(mid, now, client)
    requires Confusing(client, reg, mid.units)
    ensures !InstancesAgree(now.instances, parent, Surviving(reg, mid.units))
  {
    hide Represents, UuidUnderMissing, StoredByLost, UnitOf, ValidRegistry, Repaired, UnderMissing, KeyOfInstance,
      IsSourceType;
    var kept := Surviving(reg, mid.units);
    var k, u :| k in kept && IsUuidOf(reg[k], u) && StoredByLost(client, reg, mid.units, u);
    EntryIsLive(was, client, parent, reg, k);
    SurvivorIsFound(was, mid, client, parent, reg, k);
    RepairKeepsInstances(mid, now, client);
    assert now.instances[u].deleted;
    assert !Analysed(now.instances, parent, k, kept[k]);
  }

  // ---------- the whole ----------

  /**
   * From any represented state, whichever local services are lost, a repair without failures leads to stores whose
   * catalog, local services and keys represent exactly the entries that still have their local service. So do the
   * instances, exactly if no lost exporter stores the UUID of a surviving source where repair looks for UUIDs.
   */
  lemma RepairAfterLoss(was: World, mid: World, now: World, client: string, parent: string, reg: Registry)
    requires Represents(was, client, parent, reg) && UnitsLost(was, mid) && FullyRepaired(mid, now, client)
    ensures
      var kept := Surviving(reg, mid.units);
      && ValidRegistry(kept) && CatalogAgrees(now.Services(client), kept) && UnitsAgree(now.units, kept)
      && KeysAgree(now.kv, client, kept)
      && (Represents(now, client, parent, kept) <==> !Confusing(client, reg, mid.units))
      && (FilesAgree(was, reg) && !Confusing(client, reg, mid.units) ==> FilesAgree(now, kept))
  {
    hide Represents, CatalogAgrees, UnitsAgree, KeysAgree, InstancesAgree, ValidRegistry, Confusing, UnitsLost,
      FullyRepaired, Surviving, FilesAgree;
    Parts(was, client, parent, reg);
    RepairParts(mid, now, client);
    var kept := Surviving(reg, mid.units);
    ServicesSurvive(was, mid, now, client, reg);
    UnitsSurvive(was, mid, now, client, reg);
    ValidSurvives(reg, mid.units);
    KeysSurviveLoss(was, mid, now, client, reg);
    if Confusing(client, reg, mid.units) {
      ConfusedIsDeleted(was, mid, now, client, parent, reg);
      if Represents(now, client, parent, kept) {
        Parts(now, client, parent, kept);
      }
    } else {
      InstancesSurvive(was, mid, now, client, parent, reg);
      Whole(now, client, parent, kept);
      if FilesAgree(was, reg) {
        FilesSurvive(was, mid, now, client, reg);
      }
    }
  }

  lemma RepairParts(mid: World, now: World, client: string)
    requires FullyRepaired(mid, now, client)
    ensures now.Services(client) == Matched(mid, client) && now.units == WantedUnits(mid, client)
    ensures now.files == mid.files
  {
    hide Matched, WantedUnits, KeysKept, InstancesKept, UuidUnderMissing, UnderMissing;
  }

  lemma KeysSurviveLoss(was: World, mid: World, now: World, client: string, reg: Registry)
    requires '/' !in client && ValidRegistry(reg) && CatalogAgrees(was.Services(client), reg) && UnitsLost(was, mid)
    requires KeysAgree(was.kv, client, reg) && FullyRepaired(mid, now, client)
    ensures KeysAgree(now.kv, client, Surviving(reg, mid.units))
  {
    hide CatalogAgrees, ValidRegistry, UnderMissing, KeysAgree, Matched, WantedUnits, KeysKept, InstancesKept,
      UuidUnderMissing, Surviving, UnitsLost;
    KeysSurvive(was, mid, now, client, reg);
  }

  lemma FilesSurvive(was: World, mid: World, now: World, client: string, reg: Registry)
    requires UnitsLost(was, mid) && now.files == mid.files && FilesAgree(was, reg)
    requires forall k | k in Surviving(reg, mid.units) && reg[k].Source? ::
      reg[k].uuid in was.instances && reg[k].uuid in now.instances &&
      now.instances[reg[k].uuid] == was.instances[reg[k].uuid]
    ensures FilesAgree(now, Surviving(reg, mid.units))
  {
    hide UnitOf;
    forall k | k in Surviving(reg, mid.units) && reg[k].Source?
      ensures HasFile(now, reg[k])
    {
      assert HasFile(was, reg[k]);
    }
  }

  /** If no exporter's data looks like a UUID, a repair after a loss always leads to a registry again. */
  lemma NoConfusion(client: string, reg: Registry, units: map<string, bool>)
    requires forall k | k in reg && reg[k].Exporter? :: NoLookalikes(reg[k].data)
    ensures !Confusing(client, reg, units)
  {
    hide UnitOf, IsUuidKey, ServiceID, NoLookalikes, IsUuidOf, Dir;
    forall u
      ensures !StoredByLost(client, reg, units, u)
    {
      if StoredByLost(client, reg, units, u) {
        var k, sub :|
          k in reg && k !in Surviving(reg, units) && reg[k].Exporter? && StoresUuid(client, k, reg[k], sub, u);
        NoUuidsInDir(client, IdOf(k, reg[k]), reg[k].data);
      }
    }
  }
}
