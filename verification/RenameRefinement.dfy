/** What a renaming that meets no error does to the registry, and exactly when it does it. */
module RenameRefinement {
  import opened Strings
  import opened Stores
  import opened Registry
  import opened Transitions
  import opened QueryTransitions
  import opened Refinement
  import opened Rename
  import Sanitize

  // ---------- one key ----------

  function NewAlias(alias: string, oldName: string, newName: string): string {
    if alias == oldName then newName else alias
  }

  lemma {:induction false} ReplaceAllHasNot(s: string, from: string, to: string, c: char)
    requires |from| > 0 && c !in s && c !in to
    ensures c !in ReplaceAll(s, from, to)
  {
    if |s| < |from| {
    } else if from <= s {
      ReplaceAllHasNot(s[|from|..], from, to, c);
    } else {
      ReplaceAllHasNot(s[1..], from, to, c);
    }
  }

  /** Renaming works on the segments of a key one by one. */
  lemma RenamedSegments(id: string, rest: string, oldName: string, newName: string)
    requires oldName != "" && '/' !in oldName
    ensures RenamedKey(Dir(oldName, id) + rest, oldName, newName) ==
      Dir(newName, ReplaceAll(id, oldName, newName)) + ReplaceAll(rest, oldName, newName)
  {
    assert Dir(oldName, id) + rest == oldName + ['/'] + (id + ['/'] + rest);
    ReplaceAllSplit(oldName, id + ['/'] + rest, '/', oldName, newName);
    ReplaceAllSplit(id, rest, '/', oldName, newName);
    ReplaceAllSelf(oldName, newName);
  }

  lemma SameDirs(client: string, id1: string, id2: string, rest1: string, rest2: string)
    requires '/' !in id1 && '/' !in id2
    requires Dir(client, id1) + rest1 == Dir(client, id2) + rest2
    ensures id1 == id2 && rest1 == rest2
  {
    var s1, s2 := Dir(client, id1) + rest1, Dir(client, id2) + rest2;
    assert s1[|client| + 1..] == id1 + ['/'] + rest1;
    assert s2[|client| + 1..] == id2 + ['/'] + rest2;
    SplitUnique(id1, rest1, id2, rest2, '/');
  }

  /** An exporter's key becomes its counterpart exactly if the old name occurs in no other part of it. */
  lemma ExporterKeyRenamed(id: string, sub: string, oldName: string, newName: string)
    requires oldName != "" && '/' !in oldName && '/' !in newName && '/' !in id && oldName != newName
    ensures RenamedKey(Dir(oldName, id) + sub, oldName, newName) == Dir(newName, id) + sub <==>
      !Contains(id, oldName) && !Contains(sub, oldName)
  {
    RenamedSegments(id, sub, oldName, newName);
    ReplaceAllChanges(id, oldName, newName);
    ReplaceAllChanges(sub, oldName, newName);
    ReplaceAllHasNot(id, oldName, newName, '/');
    if RenamedKey(Dir(oldName, id) + sub, oldName, newName) == Dir(newName, id) + sub {
      SameDirs(newName, ReplaceAll(id, oldName, newName), id, ReplaceAll(sub, oldName, newName), sub);
    }
  }

  /** A source's key, where the old name may also be the alias, but then only all of it. */
  lemma SourceKeyRenamed(id: string, alias: string, tail: string, oldName: string, newName: string)
    requires oldName != "" && '/' !in oldName && '/' !in newName && '/' !in id && '/' !in alias && oldName != newName
    ensures
      var renamed := RenamedKey(Dir(oldName, id) + (alias + "/" + tail), oldName, newName);
      renamed == Dir(newName, id) + (NewAlias(alias, oldName, newName) + "/" + tail) <==>
      !Contains(id, oldName) && (alias == oldName || !Contains(alias, oldName)) && !Contains(tail, oldName)
  {
    var sub, sub' := alias + "/" + tail, NewAlias(alias, oldName, newName) + "/" + tail;
    RenamedSegments(id, sub, oldName, newName);
    assert sub == alias + ['/'] + tail;
    assert sub' == NewAlias(alias, oldName, newName) + ['/'] + tail;
    ReplaceAllSplit(alias, tail, '/', oldName, newName);
    ReplaceAllSelf(oldName, newName);
    ReplaceAllChanges(id, oldName, newName);
    ReplaceAllChanges(alias, oldName, newName);
    ReplaceAllChanges(tail, oldName, newName);
    ReplaceAllHasNot(id, oldName, newName, '/');
    ReplaceAllHasNot(alias, oldName, newName, '/');
    if RenamedKey(Dir(oldName, id) + sub, oldName, newName) == Dir(newName, id) + sub' {
      SameDirs(newName, ReplaceAll(id, oldName, newName), id, ReplaceAll(sub, oldName, newName), sub');
      SplitUnique(ReplaceAll(alias, oldName, newName), ReplaceAll(tail, oldName, newName),
                  NewAlias(alias, oldName, newName), tail, '/');
    }
  }

  /** A client named "mysql" loses track of its MySQL exporter: the name is also part of the service ID. */
  lemma ClientNamedAfterExporter(port: int, sub: string, newName: string)
    requires '/' !in newName && newName != "mysql"
    ensures
      var id := ServiceID(MetricsKind("mysql"), port);
      RenamedKey(Dir("mysql", id) + sub, "mysql", newName) != Dir(newName, id) + sub
  {
    hide Contains, RenamedKey, Dir, PlainKind;
    var id := ServiceID(MetricsKind("mysql"), port);
    KnownMetrics("mysql");
    ServiceIDHasNoSlash(MetricsKind("mysql"), port);
    assert id == "mysql" + (":" + "metrics" + "-" + Itoa(port));
    ContainsItsStart("mysql", ":" + "metrics" + "-" + Itoa(port));
    ExporterKeyRenamed(id, sub, "mysql", newName);
  }

  lemma ContainsItsStart(s: string, rest: string)
    ensures Contains(s + rest, s)
  {
  }

  // ---------- the registry under its new name ----------

  function NewKey(k: Key, oldName: string, newName: string): Key {
    Key(k.kind, NewAlias(k.alias, oldName, newName))
  }

  /** No kind uses both names as aliases. */
  ghost predicate NoClash(reg: Registry, oldName: string, newName: string) {
    forall k | k in reg && k.alias == oldName :: Key(k.kind, newName) !in reg
  }

  lemma NewKeyInjective(reg: Registry, oldName: string, newName: string, k1: Key, k2: Key)
    requires NoClash(reg, oldName, newName) && k1 in reg && k2 in reg
    requires NewKey(k1, oldName, newName) == NewKey(k2, oldName, newName)
    ensures k1 == k2
  {
    assert k1 == Key(k1.kind, k1.alias) && k2 == Key(k2.kind, k2.alias);
  }

  /** The same entries, with the client's name replaced where it serves as an alias. */
  function RenamedRegistry(reg: Registry, oldName: string, newName: string): Registry
    requires NoClash(reg, oldName, newName)
  {
    assert forall k1, k2 | k1 in reg && k2 in reg && NewKey(k1, oldName, newName) == NewKey(k2, oldName, newName) ::
      reg[k1] == reg[k2] by {
      forall k1, k2 | k1 in reg && k2 in reg && NewKey(k1, oldName, newName) == NewKey(k2, oldName, newName)
        ensures reg[k1] == reg[k2]
      {
        NewKeyInjective(reg, oldName, newName, k1, k2);
      }
    }
    map k | k in reg :: NewKey(k, oldName, newName) := reg[k]
  }

  lemma RenamedEntry(reg: Registry, oldName: string, newName: string, k: Key)
    requires NoClash(reg, oldName, newName) && k in reg
    ensures
      var k' := NewKey(k, oldName, newName);
      k' in RenamedRegistry(reg, oldName, newName) && RenamedRegistry(reg, oldName, newName)[k'] == reg[k]
  {
  }

  lemma EntryBefore(reg: Registry, oldName: string, newName: string, k': Key) returns (k: Key)
    requires NoClash(reg, oldName, newName) && k' in RenamedRegistry(reg, oldName, newName)
    ensures k in reg && k' == NewKey(k, oldName, newName) && RenamedRegistry(reg, oldName, newName)[k'] == reg[k]
  {
    k :| k in reg && k' == NewKey(k, oldName, newName);
  }

  /** Where the old name may occur: as the client and as a whole alias, nowhere else. */
  predicate CleanEntry(k: Key, e: Entry, oldName: string) {
    && !Contains(IdOf(k, e), oldName)
    && (k.alias == oldName || !Contains(k.alias, oldName))
    && (e.Exporter? ==> forall sub | sub in e.data :: !Contains(sub, oldName) && !HoldsMySQLUuid("/" + sub))
    && (e.Source? ==> !Contains("dsn", oldName) && !Contains("qan_" + NameOf(k.kind) + "_uuid", oldName))
  }

  ghost predicate Clean(reg: Registry, oldName: string) {
    forall k | k in reg :: CleanEntry(k, reg[k], oldName)
  }

  /** Names that a renaming may be between. */
  ghost predicate Names(w: World, reg: Registry, oldName: string, newName: string) {
    && ServiceName(oldName) && ServiceName(newName) && oldName != newName
    && w.Services(newName) == map[]
    && (forall key | key in w.kv :: !(newName + "/" <= key))
    && NoClash(reg, oldName, newName) && Clean(reg, oldName)
  }

  // ---------- the catalog ----------

  lemma RenamedTagsMembers(svc: Service, oldName: string, newName: string, alias: string)
    requires AliasTag(alias) in svc.tags
    ensures AliasTag(NewAlias(alias, oldName, newName)) in RenamedService(svc, oldName, newName).tags
  {
    var i :| 0 <= i < |svc.tags| && svc.tags[i] == AliasTag(alias);
    AliasTagInverse(alias);
    AliasTagInverse(oldName);
    assert RenamedService(svc, oldName, newName).tags[i] == AliasTag(NewAlias(alias, oldName, newName));
  }

  lemma CarriesRenamed(svc: Service, k: Key, e: Entry, oldName: string, newName: string)
    requires Carries(svc, k, e) && ValidEntry(k, e)
    ensures Carries(RenamedService(svc, oldName, newName), NewKey(k, oldName, newName), e)
  {
    hide SvcTypes, PlainKind, IsQueries;
    if e.Exporter? {
      AliasTagInverse(k.alias);
      AliasTagInverse(oldName);
      var tags := RenamedService(svc, oldName, newName).tags;
      assert forall t | t in e.extra :: t != AliasTag(oldName);
      assert tags == [AliasTag(NewAlias(k.alias, oldName, newName))] + e.extra;
    } else {
      RenamedTagsMembers(svc, oldName, newName, k.alias);
    }
  }

  lemma ServedRenamed(services: map<string, Service>, services': map<string, Service>, reg: Registry,
                      oldName: string, newName: string, k: Key)
    requires services' == Arrived(map[], services, oldName, newName, services.Keys)
    requires CatalogAgrees(services, reg) && ValidRegistry(reg) && k in reg
    ensures Served(services', NewKey(k, oldName, newName), reg[k])
  {
    hide ServiceID, RenamedService, Carries, AliasTag;
    assert Served(services, k, reg[k]);
    CarriesRenamed(services[IdOf(k, reg[k])], k, reg[k], oldName, newName);
  }

  /** Every alias tag of a renamed service stands for a renamed alias. */
  lemma TagBefore(svc: Service, oldName: string, newName: string, i: nat) returns (alias: string)
    requires i < |svc.tags| && IsAliasTag(RenamedService(svc, oldName, newName).tags[i])
    ensures svc.tags[i] == AliasTag(alias)
    ensures RenamedService(svc, oldName, newName).tags[i] == AliasTag(NewAlias(alias, oldName, newName))
  {
    AliasTagInverse(oldName);
    AliasTagInverse(newName);
    assert IsAliasTag(svc.tags[i]);
    alias := AliasOf(svc.tags[i]);
    assert svc.tags[i] == AliasTag(alias);
  }

  lemma DistinctRenamed(svc: Service, reg: Registry, oldName: string, newName: string, id: string)
    requires NoClash(reg, oldName, newName) && Backed(reg, id, svc)
    ensures DistinctAliases(RenamedService(svc, oldName, newName).tags)
  {
    hide RenamedService, AliasTag, AliasOf, IsAliasTag, ServiceID, NoClash, Accounted;
    var tags := RenamedService(svc, oldName, newName).tags;
    RenamedTagsLength(svc, oldName, newName);
    forall i, j | 0 <= i < j < |tags| && IsAliasTag(tags[i])
      ensures tags[i] != tags[j]
    {
      if tags[i] == tags[j] {
        var a1 := TagBefore(svc, oldName, newName, i);
        var a2 := TagBefore(svc, oldName, newName, j);
        KeyOfTag(svc, reg, id, a1, i);
        KeyOfTag(svc, reg, id, a2, j);
        AliasTagInverse(NewAlias(a1, oldName, newName));
        AliasTagInverse(NewAlias(a2, oldName, newName));
        NewKeyInjective(reg, oldName, newName, Key(svc.kind, a1), Key(svc.kind, a2));
      }
    }
  }

  lemma BackedRenamed(svc: Service, reg: Registry, oldName: string, newName: string, id: string)
    requires NoClash(reg, oldName, newName) && Backed(reg, id, svc)
    ensures Backed(RenamedRegistry(reg, oldName, newName), id, RenamedService(svc, oldName, newName))
  {
    hide RenamedService, RenamedRegistry, AliasTag, AliasOf, IsAliasTag, ServiceID, NoClash, DistinctAliases;
    var svc', reg' := RenamedService(svc, oldName, newName), RenamedRegistry(reg, oldName, newName);
    var t :| t in svc.tags && IsAliasTag(t);
    TagOfAlias(t);
    RenamedTagsMembers(svc, oldName, newName, AliasOf(t));
    AliasTagInverse(NewAlias(AliasOf(t), oldName, newName));
    RenamedTagsLength(svc, oldName, newName);
    DistinctRenamed(svc, reg, oldName, newName, id);
    forall t' | t' in svc'.tags && IsAliasTag(t')
      ensures Accounted(reg', id, svc', t')
    {
      var i :| 0 <= i < |svc'.tags| && svc'.tags[i] == t';
      var alias := TagBefore(svc, oldName, newName, i);
      KeyOfTag(svc, reg, id, alias, i);
      AliasTagInverse(NewAlias(alias, oldName, newName));
      RenamedEntry(reg, oldName, newName, Key(svc.kind, alias));
    }
  }

  lemma RenamedTagsLength(svc: Service, oldName: string, newName: string)
    ensures |RenamedService(svc, oldName, newName).tags| == |svc.tags|
    ensures RenamedService(svc, oldName, newName).kind == svc.kind
  {
  }

  lemma KeyOfTag(svc: Service, reg: Registry, id: string, alias: string, i: nat)
    requires Backed(reg, id, svc) && i < |svc.tags| && svc.tags[i] == AliasTag(alias)
    ensures IsAliasTag(svc.tags[i]) && Key(svc.kind, alias) in reg
    ensures IdOf(Key(svc.kind, alias), reg[Key(svc.kind, alias)]) == id
  {
    hide AliasTag, AliasOf, IsAliasTag, ServiceID, HasAliases;
    AliasTagInverse(alias);
    assert svc.tags[i] in svc.tags;
    assert Accounted(reg, id, svc, svc.tags[i]);
  }

  lemma CatalogRenamed(services: map<string, Service>, services': map<string, Service>, reg: Registry,
                       oldName: string, newName: string)
    requires services' == Arrived(map[], services, oldName, newName, services.Keys)
    requires NoClash(reg, oldName, newName) && CatalogAgrees(services, reg) && ValidRegistry(reg)
    ensures CatalogAgrees(services', RenamedRegistry(reg, oldName, newName))
  {
    hide RenamedRegistry, RenamedService, Carries, Backed, NoClash, ValidRegistry, ServiceID, IdOf;
    var reg' := RenamedRegistry(reg, oldName, newName);
    forall k' | k' in reg'
      ensures Served(services', k', reg'[k'])
    {
      EntryServed(services, services', reg, oldName, newName, k');
    }
    forall id | id in services'
      ensures Backed(reg', id, services'[id])
    {
      assert services'[id] == RenamedService(services[id], oldName, newName);
      BackedRenamed(services[id], reg, oldName, newName, id);
    }
  }

  lemma EntryServed(services: map<string, Service>, services': map<string, Service>, reg: Registry,
                    oldName: string, newName: string, k': Key)
    requires services' == Arrived(map[], services, oldName, newName, services.Keys)
    requires NoClash(reg, oldName, newName) && CatalogAgrees(services, reg) && ValidRegistry(reg)
    requires k' in RenamedRegistry(reg, oldName, newName)
    ensures Served(services', k', RenamedRegistry(reg, oldName, newName)[k'])
  {
    hide RenamedRegistry, RenamedService, Served, Arrived, NoClash, ValidRegistry, CatalogAgrees;
    var k := EntryBefore(reg, oldName, newName, k');
    ServedRenamed(services, services', reg, oldName, newName, k);
  }

  lemma ValidRenamed(reg: Registry, oldName: string, newName: string)
    requires NoClash(reg, oldName, newName) && ValidRegistry(reg) && ServiceName(newName)
    ensures ValidRegistry(RenamedRegistry(reg, oldName, newName))
  {
    hide RenamedRegistry, SvcTypes, PlainKind, IsQueries, IsAliasTag, NoClash;
    var reg' := RenamedRegistry(reg, oldName, newName);
    forall k' | k' in reg'
      ensures ValidEntry(k', reg'[k'])
    {
      var k := EntryBefore(reg, oldName, newName, k');
      assert ValidEntry(k, reg[k]);
    }
    forall k1', k2' | k1' in reg' && k2' in reg' && k1' != k2' && reg'[k1'].Exporter? && reg'[k2'].Exporter?
      ensures reg'[k1'].port != reg'[k2'].port
    {
      var k1 := EntryBefore(reg, oldName, newName, k1');
      var k2 := EntryBefore(reg, oldName, newName, k2');
    }
  }

  lemma UnitsRenamed(units: map<string, bool>, reg: Registry, oldName: string, newName: string)
    requires NoClash(reg, oldName, newName) && UnitsAgree(units, reg)
    ensures UnitsAgree(units, RenamedRegistry(reg, oldName, newName))
  {
    hide RenamedRegistry, NoClash, UnitName;
    var reg' := RenamedRegistry(reg, oldName, newName);
    forall k' | k' in reg'
      ensures UnitOf(k', reg'[k']) in units
    {
      var k := EntryBefore(reg, oldName, newName, k');
    }
    forall u | u in units
      ensures exists k' :: IsUnitOf(u, k', reg')
    {
      var k :| IsUnitOf(u, k, reg);
      RenamedEntry(reg, oldName, newName, k);
      assert IsUnitOf(u, NewKey(k, oldName, newName), reg');
    }
  }

  // ---------- the keys ----------

  /** The last segment of a source's key. */
  function TailOf(k: Key, sub: string): string {
    if sub == DsnSub(k.alias) then "dsn" else "qan_" + NameOf(k.kind) + "_uuid"
  }

  function NewSub(k: Key, e: Entry, sub: string, oldName: string, newName: string): string {
    if e.Exporter? then sub else NewAlias(k.alias, oldName, newName) + "/" + TailOf(k, sub)
  }

  lemma SubShape(k: Key, e: Entry, sub: string)
    requires e.Source? && sub in DataOf(k, e)
    ensures sub == k.alias + "/" + TailOf(k, sub)
  {
    assert sub == DsnSub(k.alias) || sub == UuidSub(k.alias, NameOf(k.kind));
  }

  lemma NewSubHasValue(k: Key, e: Entry, sub: string, oldName: string, newName: string)
    requires sub in DataOf(k, e)
    ensures
      var data, sub' := DataOf(NewKey(k, oldName, newName), e), NewSub(k, e, sub, oldName, newName);
      sub' in data && data[sub'] == DataOf(k, e)[sub]
  {
    hide NameOf;
    if e.Source? {
      var alias := NewAlias(k.alias, oldName, newName);
      SubsDiffer(k.alias, NameOf(k.kind));
      SubsDiffer(alias, NameOf(k.kind));
      assert alias + "/" + "dsn" == DsnSub(alias);
      assert alias + "/" + ("qan_" + NameOf(k.kind) + "_uuid") == UuidSub(alias, NameOf(k.kind));
    }
  }

  lemma SubBefore(k: Key, e: Entry, sub': string, oldName: string, newName: string) returns (sub: string)
    requires sub' in DataOf(NewKey(k, oldName, newName), e)
    ensures sub in DataOf(k, e) && sub' == NewSub(k, e, sub, oldName, newName)
  {
    hide NameOf;
    if e.Exporter? {
      sub := sub';
    } else {
      var alias := NewAlias(k.alias, oldName, newName);
      SubsDiffer(k.alias, NameOf(k.kind));
      assert alias + "/" + "dsn" == DsnSub(alias);
      assert alias + "/" + ("qan_" + NameOf(k.kind) + "_uuid") == UuidSub(alias, NameOf(k.kind));
      sub := if sub' == DsnSub(alias) then DsnSub(k.alias) else UuidSub(k.alias, NameOf(k.kind));
    }
  }

  /** Every key of a clean entry becomes the key of the renamed entry. */
  lemma KeyRenamed(k: Key, e: Entry, sub: string, oldName: string, newName: string)
    requires ServiceName(oldName) && ServiceName(newName) && oldName != newName
    requires ValidEntry(k, e) && CleanEntry(k, e, oldName) && sub in DataOf(k, e)
    ensures RenamedKey(DataKey(oldName, k, e, sub), oldName, newName) ==
      DataKey(newName, NewKey(k, oldName, newName), e, NewSub(k, e, sub, oldName, newName))
  {
    hide SvcTypes, PlainKind, IsQueries, Dir, ServiceID, RenamedKey, Contains, NameOf, RoleOf, DataOf, HasSuffix;
    ServiceIDHasNoSlash(k.kind, PortOf(e));
    if e.Exporter? {
      assert sub in e.data by { ExporterData(k, e); }
      ExporterKeyRenamed(IdOf(k, e), sub, oldName, newName);
    } else {
      SubShape(k, e, sub);
      SourceKeyRenamed(IdOf(k, e), k.alias, TailOf(k, sub), oldName, newName);
    }
  }

  /** The stored key of the entry becomes the one the renamed entry has. */
  predicate Follows(k: Key, e: Entry, sub: string, oldName: string, newName: string)
    requires oldName != ""
  {
    RenamedKey(DataKey(oldName, k, e, sub), oldName, newName) ==
      DataKey(newName, NewKey(k, oldName, newName), e, NewSub(k, e, sub, oldName, newName))
  }

  /** The old name occurs nowhere in the key but as the client and, for a source, as the whole alias. */
  predicate CleanKey(k: Key, e: Entry, sub: string, oldName: string) {
    && !Contains(IdOf(k, e), oldName)
    && if e.Exporter? then !Contains(sub, oldName)
       else (k.alias == oldName || !Contains(k.alias, oldName)) && !Contains(TailOf(k, sub), oldName)
  }

  lemma FollowsExactly(k: Key, e: Entry, sub: string, oldName: string, newName: string)
    requires ServiceName(oldName) && ServiceName(newName) && oldName != newName && ValidEntry(k, e)
    requires sub in DataOf(k, e)
    ensures Follows(k, e, sub, oldName, newName) <==> CleanKey(k, e, sub, oldName)
  {
    hide SvcTypes, PlainKind, IsQueries, Dir, ServiceID, RenamedKey, Contains, NameOf, RoleOf, DataOf, HasSuffix;
    ServiceIDHasNoSlash(k.kind, PortOf(e));
    if e.Exporter? {
      ExporterKeyRenamed(IdOf(k, e), sub, oldName, newName);
    } else {
      SubShape(k, e, sub);
      SourceKeyRenamed(IdOf(k, e), k.alias, TailOf(k, sub), oldName, newName);
    }
  }

  /** All stored keys of a registry follow a rename exactly if all are clean. */
  lemma KeysFollowExactly(reg: Registry, oldName: string, newName: string)
    requires ServiceName(oldName) && ServiceName(newName) && oldName != newName && ValidRegistry(reg)
    ensures
      (forall k, sub | k in reg && sub in DataOf(k, reg[k]) :: Follows(k, reg[k], sub, oldName, newName)) <==>
      (forall k, sub | k in reg && sub in DataOf(k, reg[k]) :: CleanKey(k, reg[k], sub, oldName))
  {
    hide Follows, CleanKey, DataOf, ValidEntry, DistinctPorts;
    forall k, sub | k in reg && sub in DataOf(k, reg[k])
      ensures Follows(k, reg[k], sub, oldName, newName) <==> CleanKey(k, reg[k], sub, oldName)
    {
      FollowsExactly(k, reg[k], sub, oldName, newName);
    }
  }

  lemma ExporterData(k: Key, e: Entry)
    requires e.Exporter?
    ensures DataOf(k, e) == e.data
  {
  }

  /** The entry and the part of its data that a stored key belongs to. */
  lemma OwnerOf(kv: map<string, string>, client: string, reg: Registry, key: string) returns (k: Key, sub: string)
    requires KeysAgree(kv, client, reg) && key in kv && client + "/" <= key
    ensures k in reg && sub in DataOf(k, reg[k]) && key == DataKey(client, k, reg[k], sub)
    ensures kv[key] == DataOf(k, reg[k])[sub]
  {
    hide Dir, DataOf, ServiceID;
    k :| IsKeyOf(client, key, k, reg);
    sub := key[|Dir(client, IdOf(k, reg[k]))|..];
    assert kv[key] == ValueAt(client, key, k, reg);
  }

  lemma StoredFully(kv: map<string, string>, client: string, reg: Registry, k: Key, sub: string)
    requires KeysAgree(kv, client, reg) && k in reg && sub in DataOf(k, reg[k])
    ensures
      var key := DataKey(client, k, reg[k], sub);
      key in kv && kv[key] == DataOf(k, reg[k])[sub] && IsKeyOf(client, key, k, reg)
  {
    hide Dir, DataOf, ServiceID, KeysAgree;
    var key := DataKey(client, k, reg[k], sub);
    assert key[|Dir(client, IdOf(k, reg[k]))|..] == sub;
    assert IsKeyOf(client, key, k, reg);
    KeyIsThere(kv, client, reg, key, k);
  }

  lemma OfClean(reg: Registry, oldName: string, k: Key)
    requires Clean(reg, oldName) && ValidRegistry(reg) && k in reg
    ensures CleanEntry(k, reg[k], oldName) && ValidEntry(k, reg[k])
  {
    hide CleanEntry, ValidEntry;
  }

  /** Different keys of a clean client stay different. */
  lemma RenamedApart(w: World, reg: Registry, oldName: string, newName: string, key1: string, key2: string)
    requires ServiceName(oldName) && ServiceName(newName) && oldName != newName
    requires NoClash(reg, oldName, newName) && Clean(reg, oldName)
    requires ValidRegistry(reg) && KeysAgree(w.kv, oldName, reg)
    requires key1 in w.kv && key2 in w.kv && oldName + "/" <= key1 && oldName + "/" <= key2
    requires RenamedKey(key1, oldName, newName) == RenamedKey(key2, oldName, newName)
    ensures key1 == key2
  {
    hide ValidRegistry, KeysAgree, Clean, NoClash, Dir, ServiceID, RenamedKey, DataOf, NewSub, SvcTypes, PlainKind,
      CleanEntry, NameOf, RoleOf, IsQueries;
    var k1, sub1 := OwnerOf(w.kv, oldName, reg, key1);
    var k2, sub2 := OwnerOf(w.kv, oldName, reg, key2);
    OfClean(reg, oldName, k1);
    OfClean(reg, oldName, k2);
    KeyRenamed(k1, reg[k1], sub1, oldName, newName);
    KeyRenamed(k2, reg[k2], sub2, oldName, newName);
    ServiceIDHasNoSlash(k1.kind, PortOf(reg[k1]));
    ServiceIDHasNoSlash(k2.kind, PortOf(reg[k2]));
    SameDirs(newName, IdOf(k1, reg[k1]), IdOf(k2, reg[k2]), NewSub(k1, reg[k1], sub1, oldName, newName),
             NewSub(k2, reg[k2], sub2, oldName, newName));
    SameId(reg, k1, k2);
    if reg[k1].Source? {
      NewSubsApart(reg, k1, k2, sub1, sub2, oldName, newName);
    } else {
      NewSubOfExporter(k1, reg[k1], sub1, sub2, oldName, newName);
    }
  }

  lemma NewSubOfExporter(k: Key, e: Entry, sub1: string, sub2: string, oldName: string, newName: string)
    requires e.Exporter? && NewSub(k, e, sub1, oldName, newName) == NewSub(k, e, sub2, oldName, newName)
    ensures sub1 == sub2
  {
  }

  lemma NewSubsApart(reg: Registry, k1: Key, k2: Key, sub1: string, sub2: string, oldName: string, newName: string)
    requires NoClash(reg, oldName, newName) && k1 in reg && k2 in reg && k1.kind == k2.kind
    requires reg[k1].Source? && reg[k2].Source? && sub1 in DataOf(k1, reg[k1]) && sub2 in DataOf(k2, reg[k2])
    requires '/' !in k1.alias && '/' !in k2.alias && '/' !in newName
    requires NewSub(k1, reg[k1], sub1, oldName, newName) == NewSub(k2, reg[k2], sub2, oldName, newName)
    ensures k1 == k2 && sub1 == sub2
  {
    hide DataOf, NoClash, TailOf;
    var a1, a2 := NewAlias(k1.alias, oldName, newName), NewAlias(k2.alias, oldName, newName);
    assert a1 + ['/'] + TailOf(k1, sub1) == a2 + ['/'] + TailOf(k2, sub2);
    SplitUnique(a1, TailOf(k1, sub1), a2, TailOf(k2, sub2), '/');
    NewKeyInjective(reg, oldName, newName, k1, k2);
    SubShape(k1, reg[k1], sub1);
    SubShape(k2, reg[k2], sub2);
  }

  /** Under these names the renaming loop may be trusted with the keys. */
  lemma KeysAreRenamable(w: World, parent: string, reg: Registry, oldName: string, newName: string)
    requires Represents(w, oldName, parent, reg) && Names(w, reg, oldName, newName)
    ensures Renamable(w.kv, oldName, newName)
  {
    hide ValidRegistry, KeysAgree, CatalogAgrees, UnitsAgree, InstancesAgree, Clean, NoClash, RenamedKey;
    forall k1, k2 | k1 in w.kv && k2 in w.kv && oldName + "/" <= k1 && oldName + "/" <= k2 &&
      RenamedKey(k1, oldName, newName) == RenamedKey(k2, oldName, newName)
      ensures k1 == k2
    {
      RenamedApart(w, reg, oldName, newName, k1, k2);
    }
  }

  lemma IdIsServed(w: World, client: string, parent: string, reg: Registry, k: Key, sub: string)
    requires Represents(w, client, parent, reg) && k in reg && sub in DataOf(k, reg[k])
    ensures DataKey(client, k, reg[k], sub) in StoredFor(w.kv, client, w.Services(client).Keys)
  {
    hide Represents, DataOf, ServiceID, Dir, KeysAgree, ValidRegistry, CatalogAgrees, UnitsAgree, InstancesAgree;
    Parts(w, client, parent, reg);
    ServiceOfEntry(w, client, parent, reg, k);
    StoredFully(w.kv, client, reg, k, sub);
    assert IdOf(k,
                reg[k]) in w.Services(client).Keys && Dir(client, IdOf(k, reg[k])) <= DataKey(client, k, reg[k], sub);
  }

  lemma CopyIsThere(was: map<string, string>, now: map<string, string>, oldName: string, newName: string,
                    moved: set<string>, key: string)
    requires oldName != "" && UnderWay(was, now, oldName, newName, moved, moved) && key in moved
    ensures key in was && RenamedKey(key, oldName, newName) in now && now[RenamedKey(key, oldName, newName)] == was[key]
  {
    hide Renamable, RenamedKey;
    assert CopyIn(was, now, key, oldName, newName);
  }

  lemma CopyOfWhat(was: map<string, string>, now: map<string, string>, oldName: string, newName: string,
                   moved: set<string>, copy: string) returns (key: string)
    requires oldName != "" && UnderWay(was, now, oldName, newName, moved, moved)
    requires copy in now && newName + "/" <= copy
    ensures key in was && oldName + "/" <= key && copy == RenamedKey(key, oldName, newName)
  {
    hide RenamedKey;
    assert copy !in was;
    key :| IsCopyOf(copy, key, moved, oldName, newName);
  }

  lemma KeysRenamed(w: World, kv': map<string, string>, parent: string, reg: Registry, oldName: string, newName: string)
    requires Represents(w, oldName, parent, reg) && Names(w, reg, oldName, newName)
    requires
      var moved := StoredFor(w.kv, oldName, w.Services(oldName).Keys);
      UnderWay(w.kv, kv', oldName, newName, moved, moved)
    ensures KeysAgree(kv', newName, RenamedRegistry(reg, oldName, newName))
  {
    hide Represents, ValidRegistry, CatalogAgrees, UnitsAgree, InstancesAgree, KeysAgree, Clean, NoClash, RenamedKey,
      UnderWay,
      StoredFor, RenamedRegistry, DataOf, Dir, ServiceID, NewSub;
    var reg' := RenamedRegistry(reg, oldName, newName);
    forall key', k' | IsKeyOf(newName, key', k', reg')
      ensures key' in kv' && kv'[key'] == ValueAt(newName, key', k', reg')
    {
      EntryHasItsKeys(w, kv', parent, reg, oldName, newName, key', k');
    }
    forall key' | key' in kv' && newName + "/" <= key'
      ensures exists k' :: IsKeyOf(newName, key', k', reg')
    {
      var k' := KeyHasItsEntry(w, kv', parent, reg, oldName, newName, key');
    }
    KeysAgreeFrom(kv', newName, reg');
  }

  lemma KeysAgreeFrom(kv: map<string, string>, client: string, reg: Registry)
    requires forall key, k | IsKeyOf(client, key, k, reg) :: key in kv && kv[key] == ValueAt(client, key, k, reg)
    requires forall key | key in kv && client + "/" <= key :: exists k :: IsKeyOf(client, key, k, reg)
    ensures KeysAgree(kv, client, reg)
  {
    hide IsKeyOf, ValueAt;
  }

  lemma EntryHasItsKeys(w: World, kv': map<string, string>, parent: string, reg: Registry, oldName: string,
                        newName: string,
                        key': string, k': Key)
    requires Represents(w, oldName, parent, reg) && Names(w, reg, oldName, newName)
    requires
      var moved := StoredFor(w.kv, oldName, w.Services(oldName).Keys);
      UnderWay(w.kv, kv', oldName, newName, moved, moved)
    requires IsKeyOf(newName, key', k', RenamedRegistry(reg, oldName, newName))
    ensures key' in kv' && kv'[key'] == ValueAt(newName, key', k', RenamedRegistry(reg, oldName, newName))
  {
    hide Represents, ValidRegistry, CatalogAgrees, UnitsAgree, InstancesAgree, KeysAgree, Clean, NoClash, RenamedKey,
      UnderWay,
      StoredFor, RenamedRegistry, DataOf, Dir, ServiceID, NewSub, ValidEntry, CleanEntry;
    Parts(w, oldName, parent, reg);
    var k := EntryBefore(reg, oldName, newName, k');
    var e := reg[k];
    var sub' := key'[|Dir(newName, IdOf(k, e))|..];
    assert key' == DataKey(newName, k', e, sub');
    var sub := SubBefore(k, e, sub', oldName, newName);
    OfClean(reg, oldName, k);
    KeyRenamed(k, e, sub, oldName, newName);
    NewSubHasValue(k, e, sub, oldName, newName);
    IdIsServed(w, oldName, parent, reg, k, sub);
    StoredFully(w.kv, oldName, reg, k, sub);
    CopyIsThere(w.kv, kv', oldName, newName, StoredFor(w.kv, oldName, w.Services(oldName).Keys),
                DataKey(oldName, k, e, sub));
  }

  lemma KeyHasItsEntry(w: World, kv': map<string, string>, parent: string, reg: Registry, oldName: string,
                       newName: string,
                       key': string) returns (k': Key)
    requires Represents(w, oldName, parent, reg) && Names(w, reg, oldName, newName)
    requires
      var moved := StoredFor(w.kv, oldName, w.Services(oldName).Keys);
      UnderWay(w.kv, kv', oldName, newName, moved, moved)
    requires key' in kv' && newName + "/" <= key'
    ensures IsKeyOf(newName, key', k', RenamedRegistry(reg, oldName, newName))
  {
    hide Represents, ValidRegistry, CatalogAgrees, UnitsAgree, InstancesAgree, KeysAgree, Clean, NoClash, RenamedKey,
      UnderWay,
      StoredFor, RenamedRegistry, DataOf, Dir, ServiceID, NewSub, ValidEntry, CleanEntry;
    Parts(w, oldName, parent, reg);
    var key := CopyOfWhat(w.kv, kv', oldName, newName, StoredFor(w.kv, oldName, w.Services(oldName).Keys), key');
    var k, sub := OwnerOf(w.kv, oldName, reg, key);
    OfClean(reg, oldName, k);
    KeyRenamed(k, reg[k], sub, oldName, newName);
    NewSubHasValue(k, reg[k], sub, oldName, newName);
    RenamedEntry(reg, oldName, newName, k);
    k' := NewKey(k, oldName, newName);
    var sub' := NewSub(k, reg[k], sub, oldName, newName);
    assert key' == Dir(newName, IdOf(k', reg[k])) + sub';
    assert key'[|Dir(newName, IdOf(k', reg[k]))|..] == sub';
  }

  // ---------- the instances ----------

  /** Whether a key refers to a MySQL instance is decided by what follows its last separator. */
  lemma SuffixAfterSlash(a: string, b: string)
    ensures HoldsMySQLUuid(a + "/" + b) ==> HoldsMySQLUuid("/" + b)
    ensures b == "qan_mysql_uuid" ==> HoldsMySQLUuid(a + "/" + b)
  {
    hide HasSuffix;
    SuffixAfter(a, b, "qan_mysql_uuid");
    assert "/qan_mysql_uuid" == "/" + "qan_mysql_uuid";
  }

  lemma OtherTails()
    ensures !HoldsMySQLUuid("/" + "dsn") && !HoldsMySQLUuid("/" + ("qan_" + "mongodb" + "_uuid"))
  {
    var s := "/" + ("qan_" + "mongodb" + "_uuid");
    assert |s| == 17 && s[2] == 'a';
    assert s[2..][0] == 'a';
  }

  lemma TailHoldsUuid(k: Key, sub: string)
    requires NameOf(k.kind) == "mysql" || NameOf(k.kind) == "mongodb"
    requires HoldsMySQLUuid("/" + TailOf(k, sub))
    ensures NameOf(k.kind) == "mysql" && sub != DsnSub(k.alias)
  {
    hide HasSuffix;
    OtherTails();
  }

  lemma SourceName(k: Key, e: Entry)
    requires ValidEntry(k, e) && e.Source?
    ensures NameOf(k.kind) == "mysql" || NameOf(k.kind) == "mongodb"
    ensures k.kind == QueriesKind(NameOf(k.kind))
  {
    KnownKinds(k.kind);
  }

  lemma NoExporterUuid(client: string, k: Key, e: Entry, sub: string)
    requires e.Exporter? && sub in DataOf(k, e) && CleanEntry(k, e, client)
    ensures !HoldsMySQLUuid(DataKey(client, k, e, sub))
  {
    hide HasSuffix, ServiceID;
    var dir := client + "/" + IdOf(k, e);
    assert DataKey(client, k, e, sub) == dir + "/" + sub;
    SuffixAfterSlash(dir, sub);
  }

  /** A key that refers to a MySQL instance belongs to a MySQL source. */
  lemma UuidKeyOwner(kv: map<string, string>, client: string, reg: Registry, key: string) returns (k: Key)
    requires ValidRegistry(reg) && KeysAgree(kv, client, reg) && Clean(reg, client)
    requires key in kv && client + "/" <= key && HoldsMySQLUuid(key)
    ensures k in reg && reg[k].Source? && NameOf(k.kind) == "mysql"
    ensures kv[key] == reg[k].uuid && key == DataKey(client, k, reg[k], UuidSub(k.alias, "mysql"))
  {
    hide ValidRegistry, KeysAgree, Clean, ServiceID, HasSuffix, NameOf, SvcTypes, PlainKind, IsQueries, Contains,
      TailOf;
    var sub;
    k, sub := OwnerOf(kv, client, reg, key);
    OfClean(reg, client, k);
    var id := IdOf(k, reg[k]);
    if reg[k].Exporter? {
      NoExporterUuid(client, k, reg[k], sub);
    } else {
      SourceName(k, reg[k]);
      SubShape(k, reg[k], sub);
      assert key == (client + "/" + id + "/" + k.alias) + "/" + TailOf(k, sub);
      SuffixAfterSlash(client + "/" + id + "/" + k.alias, TailOf(k, sub));
      TailHoldsUuid(k, sub);
      UuidData(k, reg[k], sub);
    }
  }

  lemma UuidData(k: Key, e: Entry, sub: string)
    requires e.Source? && sub in DataOf(k, e) && sub != DsnSub(k.alias)
    ensures sub == UuidSub(k.alias, NameOf(k.kind)) && DataOf(k, e)[sub] == e.uuid
  {
  }

  lemma UuidKeysAreDistinct(w: World, parent: string, reg: Registry, oldName: string)
    requires Represents(w, oldName, parent, reg) && Clean(reg, oldName)
    ensures DistinctUuids(w.kv, oldName)
  {
    hide Represents, ValidRegistry, CatalogAgrees, UnitsAgree, KeysAgree, Clean, ServiceID, Dir, HoldsMySQLUuid,
      UuidSub;
    Parts(w, oldName, parent, reg);
    forall key1, key2, u | RefersToMySQL(w.kv, oldName, key1, u) && RefersToMySQL(w.kv, oldName, key2, u)
      ensures key1 == key2
    {
      var k1 := UuidKeyOwner(w.kv, oldName, reg, key1);
      var k2 := UuidKeyOwner(w.kv, oldName, reg, key2);
      assert Analysed(w.instances, parent, k1, reg[k1]) && Analysed(w.instances, parent, k2, reg[k2]);
    }
  }

  /** Under these names the loops meet everything they rely on. */
  lemma RenamingIsSound(w: World, parent: string, reg: Registry, oldName: string, newName: string)
    requires Represents(w, oldName, parent, reg) && FilesAgree(w, reg) && Names(w, reg, oldName, newName)
    ensures Renamable(w.kv, oldName, newName) && DistinctUuids(w.kv, oldName)
    ensures KnownInstances(w.kv, oldName, w.instances, w.files)
    ensures forall id | id in w.Services(oldName) :: '/' !in id
  {
    hide Represents, ValidRegistry, CatalogAgrees, UnitsAgree, KeysAgree, Clean, NoClash, ServiceID, Dir,
      HoldsMySQLUuid, UuidSub, Renamable,
      DistinctUuids;
    Parts(w, oldName, parent, reg);
    KeysAreRenamable(w, parent, reg, oldName, newName);
    UuidKeysAreDistinct(w, parent, reg, oldName);
    forall key, u | RefersToMySQL(w.kv, oldName, key, u)
      ensures u in w.instances && u in w.files
    {
      var k := UuidKeyOwner(w.kv, oldName, reg, key);
      assert HasFile(w, reg[k]);
    }
    forall id | id in w.Services(oldName)
      ensures '/' !in id
    {
      var k := IdHasEntry(w.Services(oldName), reg, id);
      ValidOf(w, oldName, parent, reg, k);
      ServiceIDHasNoSlash(k.kind, PortOf(reg[k]));
    }
  }

  /** What is renamed are instances of sources. */
  lemma RenamedIsSource(w: World, parent: string, reg: Registry, oldName: string, u: string) returns (k: Key)
    requires Represents(w, oldName, parent, reg) && Clean(reg, oldName)
    requires u in UuidsAt(w.kv, StoredFor(w.kv, oldName, w.Services(oldName).Keys))
    ensures k in reg && reg[k].Source? && reg[k].uuid == u && NameOf(k.kind) == "mysql"
  {
    hide Represents, ValidRegistry, CatalogAgrees, UnitsAgree, KeysAgree, Clean, ServiceID, Dir, HoldsMySQLUuid, NameOf;
    Parts(w, oldName, parent, reg);
    var moved := StoredFor(w.kv, oldName, w.Services(oldName).Keys);
    var key :| key in moved && key in w.kv && HoldsMySQLUuid(key) && w.kv[key] == u;
    BelowSomeDir(w.kv, oldName, w.Services(oldName).Keys, key);
    k := UuidKeyOwner(w.kv, oldName, reg, key);
  }

  /** The instances that are renamed are exactly those of the MySQL sources. */
  lemma RenamedUuids(w: World, parent: string, reg: Registry, oldName: string, k: Key)
    requires Represents(w, oldName, parent, reg) && Clean(reg, oldName) && k in reg && reg[k].Source?
    ensures
      var moved := StoredFor(w.kv, oldName, w.Services(oldName).Keys);
      reg[k].uuid in UuidsAt(w.kv, moved) <==> NameOf(k.kind) == "mysql"
  {
    hide Represents, ValidRegistry, CatalogAgrees, UnitsAgree, KeysAgree, Clean, ServiceID, Dir, HoldsMySQLUuid,
      DataOf, NameOf, KindOfSubsystem;
    Parts(w, oldName, parent, reg);
    var u := reg[k].uuid;
    var moved := StoredFor(w.kv, oldName, w.Services(oldName).Keys);
    assert Analysed(w.instances, parent, k, reg[k]);
    if u in UuidsAt(w.kv, moved) {
      var k' := RenamedIsSource(w, parent, reg, oldName, u);
      assert Analysed(w.instances, parent, k', reg[k']);
    }
    if NameOf(k.kind) == "mysql" {
      var sub := UuidSub(k.alias, "mysql");
      UuidIsData(k, reg[k]);
      IdIsServed(w, oldName, parent, reg, k, sub);
      StoredFully(w.kv, oldName, reg, k, sub);
      UuidKeyHolds(oldName, k, reg[k]);
    }
  }

  lemma BelowSomeDir(kv: map<string, string>, client: string, ids: set<string>, key: string)
    requires key in StoredFor(kv, client, ids)
    ensures client + "/" <= key
  {
    var id :| id in ids && Dir(client, id) <= key;
    DirIsBelow(client, id, key);
  }

  lemma UuidIsData(k: Key, e: Entry)
    requires e.Source? && NameOf(k.kind) == "mysql"
    ensures UuidSub(k.alias, "mysql") in DataOf(k, e) && DataOf(k, e)[UuidSub(k.alias, "mysql")] == e.uuid
  {
  }

  lemma UuidKeyHolds(client: string, k: Key, e: Entry)
    ensures HoldsMySQLUuid(DataKey(client, k, e, UuidSub(k.alias, "mysql")))
  {
    hide HasSuffix, ServiceID;
    var dir := client + "/" + IdOf(k, e) + "/" + k.alias;
    assert DataKey(client, k, e, UuidSub(k.alias, "mysql")) == dir + "/" + "qan_mysql_uuid";
    SuffixAfterSlash(dir, "qan_mysql_uuid");
  }

  lemma {:induction false} ReplaceFirstAbsent(s: string, from: string, to: string)
    requires !Contains(s, from)
    ensures ReplaceFirst(s, from, to) == s
  {
    if s != [] && |from| <= |s| {
      ReplaceFirstAbsent(s[1..], from, to);
    } else if s != [] {
      TooShort(s, from, to);
    }
  }

  lemma {:induction false} TooShort(s: string, from: string, to: string)
    requires |s| < |from|
    ensures ReplaceFirst(s, from, to) == s
  {
    if s != [] {
      TooShort(s[1..], from, to);
    }
  }

  lemma RenamedName(k: Key, e: Entry, oldName: string, newName: string)
    requires CleanEntry(k, e, oldName)
    ensures ReplaceFirst(k.alias, oldName, newName) == NewAlias(k.alias, oldName, newName)
  {
    if k.alias == oldName {
      assert oldName[|oldName|..] == [];
    } else {
      ReplaceFirstAbsent(k.alias, oldName, newName);
    }
  }

  /** Files that agree with the server's records make renaming a change of name, and perhaps of data source. */
  lemma RecordRenamed(w: World, reg: Registry, uuids: set<string>, oldName: string, newName: string, k: Key)
    requires FilesAgree(w, reg) && k in reg && reg[k].Source?
    ensures
      var u := reg[k].uuid;
      var now := RenamedInstances(w.instances, w.files, uuids, oldName, newName);
      && u in w.instances && u in w.files && u in now
      && now[u].(dsn := w.instances[u].dsn) ==
           (if u in uuids then RenamedInstance(w.instances[u], oldName, newName) else w.instances[u])
  {
    hide ReplaceFirst;
    assert HasFile(w, reg[k]);
  }

  /** The instance of a source is renamed with its alias if it is a MySQL source, and never otherwise. */
  lemma InstanceRenamed(w: World, parent: string, reg: Registry, oldName: string, newName: string, k: Key)
    requires Represents(w, oldName, parent,
                        reg) && FilesAgree(w, reg) && Clean(reg, oldName) && k in reg && reg[k].Source?
    ensures
      var u := reg[k].uuid;
      var now := RenamedInstances(w.instances, w.files,
                                  UuidsAt(w.kv, StoredFor(w.kv, oldName, w.Services(oldName).Keys)), oldName, newName);
      && Live(w.instances, u, parent) && Live(now, u, parent)
      && KeyOfInstance(w.instances[u]) == k
      && KeyOfInstance(now[u]) == if NameOf(k.kind) == "mysql" then NewKey(k, oldName, newName) else k
  {
    hide Represents, ValidRegistry, CatalogAgrees, UnitsAgree, KeysAgree, Clean, ServiceID, NameOf, KindOfSubsystem,
      UuidsAt, StoredFor,
      ReplaceFirst, NewAlias, FilesAgree, RenamedInstances;
    Parts(w, oldName, parent, reg);
    assert Analysed(w.instances, parent, k, reg[k]);
    RenamedUuids(w, parent, reg, oldName, k);
    RecordRenamed(w, reg, UuidsAt(w.kv, StoredFor(w.kv, oldName, w.Services(oldName).Keys)), oldName, newName, k);
    OfClean(reg, oldName, k);
    RenamedName(k, reg[k], oldName, newName);
  }

  /** Sources of MongoDB under the client's own name are the ones whose instances are left behind. */
  lemma InstancesRenamed(w: World, parent: string, reg: Registry, oldName: string, newName: string)
    requires Represents(w, oldName, parent, reg) && FilesAgree(w, reg) && Names(w, reg, oldName, newName)
    ensures
      var now := RenamedInstances(w.instances, w.files,
                                  UuidsAt(w.kv, StoredFor(w.kv, oldName, w.Services(oldName).Keys)), oldName, newName);
      InstancesAgree(now, parent, RenamedRegistry(reg, oldName, newName)) <==>
        Key(QueriesKind("mongodb"), oldName) !in reg
  {
    var uuids := UuidsAt(w.kv, StoredFor(w.kv, oldName, w.Services(oldName).Keys));
    hide Represents, ValidRegistry, CatalogAgrees, UnitsAgree, KeysAgree, Clean, NoClash, ServiceID, NameOf,
      KindOfSubsystem, UuidsAt, StoredFor,
      RenamedRegistry, RenamedInstance, KeyOfInstance, IsSourceType;
    var now, reg' := RenamedInstances(w.instances, w.files, uuids, oldName, newName), RenamedRegistry(reg, oldName,
                                                                                                      newName);
    Parts(w, oldName, parent, reg);
    if Key(QueriesKind("mongodb"), oldName) !in reg {
      forall k' | k' in reg'
        ensures Analysed(now, parent, k', reg'[k'])
      {
        var k := EntryBefore(reg, oldName, newName, k');
        if reg[k].Source? {
          InstanceRenamed(w, parent, reg, oldName, newName, k);
          OtherKind(w, parent, reg, oldName, newName, k);
        }
      }
      forall u | Live(now, u, parent)
        ensures Expected(reg', u, now[u])
      {
        SameLife(w, reg, parent, oldName, newName, u);
        assert Expected(reg, u, w.instances[u]);
        var k := KeyOfInstance(w.instances[u]);
        InstanceRenamed(w, parent, reg, oldName, newName, k);
        OtherKind(w, parent, reg, oldName, newName, k);
        RenamedEntry(reg, oldName, newName, k);
      }
    } else {
      MongoIsLeftBehind(w, parent, reg, oldName, newName);
    }
  }

  lemma SameLife(w: World, reg: Registry, parent: string, oldName: string, newName: string, u: string)
    requires Represents(w, oldName, parent, reg) && FilesAgree(w, reg) && Clean(reg, oldName)
    ensures
      var now := RenamedInstances(w.instances, w.files,
                                  UuidsAt(w.kv, StoredFor(w.kv, oldName, w.Services(oldName).Keys)), oldName, newName);
      Live(now, u, parent) <==> Live(w.instances, u, parent)
  {
    hide Represents, Clean, UuidsAt, StoredFor, NameOf, ReplaceFirst, FilesAgree, IsSourceType;
    var uuids := UuidsAt(w.kv, StoredFor(w.kv, oldName, w.Services(oldName).Keys));
    if u in uuids {
      var k := RenamedIsSource(w, parent, reg, oldName, u);
      RecordRenamed(w, reg, uuids, oldName, newName, k);
    }
  }

  lemma OtherKind(w: World, parent: string, reg: Registry, oldName: string, newName: string, k: Key)
    requires Represents(w, oldName, parent, reg) && k in reg && reg[k].Source?
    requires Key(QueriesKind("mongodb"), oldName) !in reg
    ensures NameOf(k.kind) != "mysql" ==> NewKey(k, oldName, newName) == k
  {
    hide Represents, NameOf, ServiceID;
    ValidOf(w, oldName, parent, reg, k);
    SourceName(k, reg[k]);
    assert k == Key(k.kind, k.alias);
  }

  lemma MongoIsLeftBehind(w: World, parent: string, reg: Registry, oldName: string, newName: string)
    requires Represents(w, oldName, parent, reg) && FilesAgree(w, reg) && Names(w, reg, oldName, newName)
    requires Key(QueriesKind("mongodb"), oldName) in reg
    ensures
      var now := RenamedInstances(w.instances, w.files,
                                  UuidsAt(w.kv, StoredFor(w.kv, oldName, w.Services(oldName).Keys)), oldName, newName);
      !InstancesAgree(now, parent, RenamedRegistry(reg, oldName, newName))
  {
    var k := Key(QueriesKind("mongodb"), oldName);
    hide Represents, Clean, NoClash, UuidsAt, StoredFor, RenamedRegistry, RenamedInstances, KeyOfInstance, Live,
      ValidEntry;
    var reg' := RenamedRegistry(reg, oldName, newName);
    ValidOf(w, oldName, parent, reg, k);
    KnownQueries("mongodb");
    EntryRole(k, reg[k]);
    InstanceRenamed(w, parent, reg, oldName, newName, k);
    RenamedEntry(reg, oldName, newName, k);
    var now := RenamedInstances(w.instances, w.files,
                                UuidsAt(w.kv, StoredFor(w.kv, oldName, w.Services(oldName).Keys)), oldName, newName);
    var k' := NewKey(k, oldName, newName);
    assert !Analysed(now, parent, k', reg'[k']);
  }

  /** File and record of a source stay alike. */
  lemma FilesRenamed(w: World, now: World, reg: Registry, uuids: set<string>, oldName: string, newName: string)
    requires FilesAgree(w, reg) && NoClash(reg, oldName, newName)
    requires RecordsRenamed(w.instances, w.files, now.instances, now.files, uuids, oldName, newName)
    ensures FilesAgree(now, RenamedRegistry(reg, oldName, newName))
  {
    hide ReplaceFirst, RenamedRegistry, NoClash, Sanitize.SanitizeDSN;
    var reg' := RenamedRegistry(reg, oldName, newName);
    forall k' | k' in reg' && reg'[k'].Source?
      ensures HasFile(now, reg'[k'])
    {
      var k := EntryBefore(reg, oldName, newName, k');
      assert HasFile(w, reg[k]);
    }
  }

  // ---------- the theorem ----------

  /** All calls have succeeded: this is what is left of the stores. */
  ghost predicate FullyRenamed(w: World, now: World, address: string, oldName: string, newName: string) {
    var ids := w.Services(oldName).Keys;
    var moved := StoredFor(w.kv, oldName, ids);
    && oldName in w.catalog
    && now.catalog == MovedCatalog(w.catalog, oldName, newName, address, ids, ids) - {oldName}
    && UnderWay(w.kv, now.kv, oldName, newName, moved, moved)
    && now.units == w.units
    && RecordsRenamed(w.instances, w.files, now.instances, now.files, UuidsAt(w.kv, moved), oldName, newName)
  }

  lemma ServicesMoved(w: World, now: World, address: string, oldName: string, newName: string)
    requires FullyRenamed(w, now, address, oldName, newName) && w.Services(newName) == map[] && oldName != newName
    requires w.Services(oldName) != map[]
    ensures
      var services := w.Services(oldName);
      now.Services(newName) == Arrived(map[], services, oldName, newName, services.Keys)
    ensures oldName !in now.catalog
  {
    hide UnderWay, RecordsRenamed, StoredFor, Arrived, UuidsAt;
    var services := w.Services(oldName);
    assert exists id :: id in services;
  }

  /**
   * A renaming that meets no error turns the registry into itself under the new name, with the stores in
   * agreement about services, local services and keys; and about instances exactly if no MongoDB source has
   * the client's name.
   */
  lemma RenameRefines(w: World, now: World, address: string, parent: string, reg: Registry, oldName: string,
                      newName: string)
    requires Represents(w, oldName, parent,
                        reg) && FilesAgree(w, reg) && Names(w, reg, oldName, newName) && reg != map[]
    requires FullyRenamed(w, now, address, oldName, newName)
    ensures
      var reg' := RenamedRegistry(reg, oldName, newName);
      && ValidRegistry(reg') && CatalogAgrees(now.Services(newName), reg') && UnitsAgree(now.units, reg')
      && KeysAgree(now.kv, newName, reg')
      && (Represents(now, newName, parent, reg') <==> Key(QueriesKind("mongodb"), oldName) !in reg)
      && FilesAgree(now, reg')
    ensures oldName !in now.catalog
  {
    var k :| k in reg;
    ServiceOfEntry(w, oldName, parent, reg, k);
    hide ValidRegistry, CatalogAgrees, UnitsAgree, KeysAgree, InstancesAgree, UnderWay, StoredFor, UuidsAt,
      RenamedRegistry, Arrived,
      RenamedInstances, RenamedFiles, MovedCatalog, NoClash, Clean, ServiceID, FilesAgree;
    ServicesMoved(w, now, address, oldName, newName);
    ValidRenamed(reg, oldName, newName);
    CatalogRenamed(w.Services(oldName), now.Services(newName), reg, oldName, newName);
    UnitsRenamed(w.units, reg, oldName, newName);
    KeysRenamed(w, now.kv, parent, reg, oldName, newName);
    InstancesRenamed(w, parent, reg, oldName, newName);
    FilesRenamed(w, now, reg, UuidsAt(w.kv, StoredFor(w.kv, oldName, w.Services(oldName).Keys)), oldName, newName);
  }

  /** Every lookup below the new name returns what its counterpart below the old name returned. */
  lemma LookupsAreConserved(w: World, now: World, address: string, parent: string, reg: Registry, oldName: string,
                            newName: string,
                            k: Key, sub: string)
    requires Represents(w, oldName, parent, reg) && Names(w, reg, oldName, newName)
    requires FullyRenamed(w, now, address, oldName, newName)
    requires k in reg && sub in DataOf(k, reg[k])
    ensures
      var before := DataKey(oldName, k, reg[k], sub);
      var after := DataKey(newName, NewKey(k, oldName, newName), reg[k], NewSub(k, reg[k], sub, oldName, newName));
      before in w.kv && after in now.kv && now.kv[after] == w.kv[before]
  {
    hide Represents, UnderWay, StoredFor, UuidsAt, Arrived, RecordsRenamed, MovedCatalog, NoClash, Clean, ServiceID,
      DataOf, NewSub, Dir,
      CatalogAgrees, UnitsAgree, KeysAgree, InstancesAgree, ValidRegistry, ValidEntry, CleanEntry;
    Parts(w, oldName, parent, reg);
    OfClean(reg, oldName, k);
    KeyRenamed(k, reg[k], sub, oldName, newName);
    IdIsServed(w, oldName, parent, reg, k, sub);
    CopyIsThere(w.kv, now.kv, oldName, newName, StoredFor(w.kv, oldName, w.Services(oldName).Keys),
                DataKey(oldName, k, reg[k], sub));
  }
}
