/**
 * Changing the client name: every service is registered again under the new name, and every key below the
 * old name is copied and deleted, one external call at a time.
 */
module Rename {
  import opened Strings
  import opened Stores
  import opened Lookup
  import opened Monitor

  // ---------- the parts that are rewritten ----------

  function RenamedTag(tag: string, oldName: string, newName: string): string {
    if tag == AliasTag(oldName) then AliasTag(newName) else tag
  }

  function RenamedService(svc: Service, oldName: string, newName: string): Service {
    svc.(tags := seq(|svc.tags|, i requires 0 <= i < |svc.tags| => RenamedTag(svc.tags[i], oldName, newName)))
  }

  function RenamedKey(key: string, oldName: string, newName: string): string
    requires oldName != ""
  {
    ReplaceAll(key, oldName, newName)
  }

  predicate HoldsMySQLUuid(key: string) { HasSuffix(key, "/qan_mysql_uuid") }

  /** The record of an instance under its new name. */
  function RenamedInstance(i: Instance, oldName: string, newName: string): Instance {
    i.(name := ReplaceFirst(i.name, oldName, newName))
  }

  predicate NameChanges(i: Instance, oldName: string, newName: string) {
    ReplaceFirst(i.name, oldName, newName) != i.name
  }

  function SetOf(s: seq<string>): set<string> { set x | x in s }

  lemma OneMoreElement(s: seq<string>, i: nat)
    requires i < |s|
    ensures SetOf(s[..i + 1]) == SetOf(s[..i]) + {s[i]}
    ensures (forall j | 0 <= j < i :: s[j] != s[i]) ==> s[i] !in SetOf(s[..i])
  {
    assert s[..i + 1] == s[..i] + [s[i]];
  }

  // ---------- how far a renaming has come ----------

  /** The services under the new name. */
  function Arrived(there: map<string, Service>, services: map<string, Service>, oldName: string, newName: string,
                   registered: set<string>): map<string, Service>
    requires registered <= services.Keys
  {
    there + map id | id in registered :: RenamedService(services[id], oldName, newName)
  }

  /** Services in `registered` exist under the new name, those in `dropped` no longer under the old one. */
  function MovedCatalog(was: map<string, Node>, oldName: string, newName: string, address: string,
                        registered: set<string>, dropped: set<string>): map<string, Node>
    requires oldName in was && registered <= was[oldName].services.Keys
  {
    var services := was[oldName].services;
    var there := if newName in was then was[newName].services else map[];
    (if registered == {} then was
     else was[newName := Node(address, Arrived(there, services, oldName, newName, registered))])
    [oldName := Node(was[oldName].address, services - dropped)]
  }

  /** Keys in `copied` exist under their new name, those in `dropped` no longer under the old one. */
  ghost predicate MovedKeys(was: map<string, string>, now: map<string, string>, oldName: string, newName: string,
                            copied: set<string>, dropped: set<string>)
    requires oldName != ""
  {
    && dropped <= copied <= was.Keys
    && (forall key | key in was && key !in dropped :: key in now && now[key] == was[key])
    && (forall key | key in copied :: CopyIn(was, now, key, oldName, newName))
    && (forall key | key in now ::
          (key in was && key !in dropped) || exists k :: IsCopyOf(key, k, copied, oldName, newName))
  }

  predicate CopyIn(was: map<string, string>, now: map<string, string>, key: string, oldName: string, newName: string)
    requires oldName != "" && key in was
  {
    var copy := RenamedKey(key, oldName, newName);
    copy in now && now[copy] == was[key]
  }

  predicate IsCopyOf(copy: string, key: string, copied: set<string>, oldName: string, newName: string)
    requires oldName != ""
  {
    key in copied && copy == RenamedKey(key, oldName, newName)
  }

  /**
   * The server after renaming some instances: where the name changes it gets the whole record of the agent's
   * file, with the data source that stands there.
   */
  function RenamedInstances(was: map<string, Instance>, files: map<string, Instance>, renamed: set<string>,
                            oldName: string, newName: string): map<string, Instance>
  {
    map u | u in was ::
      if u in renamed && u in files && NameChanges(files[u], oldName, newName)
      then RenamedInstance(files[u], oldName, newName) else was[u]
  }

  /** The agent's files after that. */
  function RenamedFiles(files: map<string, Instance>, renamed: set<string>, oldName: string, newName: string)
    : map<string, Instance>
  {
    map u | u in files :: if u in renamed then RenamedInstance(files[u], oldName, newName) else files[u]
  }

  /** Exactly these instances are renamed, on the server and in the agent's files. */
  predicate RecordsRenamed(instances: map<string, Instance>, files: map<string, Instance>,
                           nowInstances: map<string, Instance>, nowFiles: map<string, Instance>,
                           renamed: set<string>, oldName: string, newName: string)
  {
    && nowInstances == RenamedInstances(instances, files, renamed, oldName, newName)
    && nowFiles == RenamedFiles(files, renamed, oldName, newName)
  }

  /** Two names that keys can be renamed between: nothing is stored below the new one, and no two keys become one. */
  ghost predicate Renamable(kv: map<string, string>, oldName: string, newName: string) {
    && oldName != "" && '/' !in oldName && '/' !in newName && oldName != newName
    && (forall key | key in kv :: !(newName + "/" <= key))
    && (forall k1, k2 | k1 in kv && k2 in kv && oldName + "/" <= k1 && oldName + "/" <= k2 &&
          RenamedKey(k1, oldName, newName) == RenamedKey(k2, oldName, newName) :: k1 == k2)
  }

  /** A key below the old name becomes a key below the new one. */
  lemma RenamedIsBelow(key: string, oldName: string, newName: string)
    requires oldName != "" && '/' !in oldName && oldName + "/" <= key
    ensures newName + "/" <= RenamedKey(key, oldName, newName)
  {
    var rest := key[|oldName| + 1..];
    assert key == oldName + ['/'] + rest;
    ReplaceAllSplit(oldName, rest, '/', oldName, newName);
    ReplaceAllSelf(oldName, newName);
  }

  /** A renamed key is never below the old name. */
  lemma RenamedIsNotBelow(key: string, oldName: string, newName: string)
    requires oldName != "" && '/' !in oldName && '/' !in newName && oldName != newName && oldName + "/" <= key
    ensures !(oldName + "/" <= RenamedKey(key, oldName, newName))
  {
    RenamedIsBelow(key, oldName, newName);
    var copy := RenamedKey(key, oldName, newName);
    assert newName + "/" == newName + ['/'] + [];
    if oldName + "/" <= copy {
      assert copy == oldName + ['/'] + copy[|oldName| + 1..];
      SplitPrefix(newName, [], oldName, copy[|oldName| + 1..], '/');
    }
  }

  /** The copy of one more key overwrites nothing. */
  lemma OneMoreCopy(was: map<string, string>, now: map<string, string>, oldName: string, newName: string,
                    copied: set<string>, dropped: set<string>, key: string)
    requires Renamable(was, oldName, newName) && MovedKeys(was, now, oldName, newName, copied, dropped)
    requires forall k | k in copied :: oldName + "/" <= k
    requires key in was && oldName + "/" <= key
    ensures MovedKeys(was, now[RenamedKey(key, oldName, newName) := was[key]], oldName, newName, copied + {key},
                      dropped)
  {
    hide RenamedKey;
    var copy := RenamedKey(key, oldName, newName);
    var next := now[copy := was[key]];
    RenamedIsBelow(key, oldName, newName);
    assert copy !in was;
    forall k | k in copied + {key}
      ensures CopyIn(was, next, k, oldName, newName)
    {
      if k != key {
        assert CopyIn(was, now, k, oldName, newName);
      }
    }
    assert IsCopyOf(copy, key, copied + {key}, oldName, newName);
    forall x | x in next && !(x in was && x !in dropped)
      ensures exists k :: IsCopyOf(x, k, copied + {key}, oldName, newName)
    {
      if x != copy {
        var k :| IsCopyOf(x, k, copied, oldName, newName);
        assert IsCopyOf(x, k, copied + {key}, oldName, newName);
      }
    }
  }

  /** Deleting the original afterwards loses nothing. */
  lemma OneMoreDrop(was: map<string, string>, now: map<string, string>, oldName: string, newName: string,
                    copied: set<string>, dropped: set<string>, key: string)
    requires Renamable(was, oldName, newName) && MovedKeys(was, now, oldName, newName, copied, dropped)
    requires forall k | k in copied :: oldName + "/" <= k
    requires key in copied
    ensures MovedKeys(was, now - {key}, oldName, newName, copied, dropped + {key})
  {
    hide RenamedKey;
    var next := now - {key};
    forall k | k in copied
      ensures CopyIn(was, next, k, oldName, newName)
    {
      assert CopyIn(was, now, k, oldName, newName);
      RenamedIsBelow(k, oldName, newName);
    }
  }

  /** What lies below the old name at any time was there from the beginning. */
  lemma BelowOldIsOriginal(was: map<string, string>, now: map<string, string>, oldName: string, newName: string,
                           copied: set<string>, dropped: set<string>, key: string)
    requires Renamable(was, oldName, newName) && MovedKeys(was, now, oldName, newName, copied, dropped)
    requires forall k | k in copied :: oldName + "/" <= k
    requires key in now && oldName + "/" <= key
    ensures key in was && key !in dropped && now[key] == was[key]
  {
    if !(key in was && key !in dropped) {
      var k :| IsCopyOf(key, k, copied, oldName, newName);
      RenamedIsNotBelow(k, oldName, newName);
    }
  }

  // ---------- the loops ----------

  /** The loop over the tags of one service. */
  method RenameTags(svc: Service, oldName: string, newName: string) returns (renamed: Service)
    ensures renamed == RenamedService(svc, oldName, newName)
  {
    hide AliasTag;
    var tags := svc.tags;
    for k := 0 to |tags|
      invariant |tags| == |svc.tags|
      invariant forall j | 0 <= j < k :: tags[j] == RenamedTag(svc.tags[j], oldName, newName)
      invariant forall j | k <= j < |tags| :: tags[j] == svc.tags[j]
    {
      if tags[k] == AliasTag(oldName) {
        tags := tags[k := AliasTag(newName)];
      }
    }
    renamed := svc.(tags := tags);
    assert tags == RenamedService(svc, oldName, newName).tags;
  }

  /**
   * renameInstance. The record is read from the agent's file; under its new name the whole of it goes to the
   * server first and back into the file afterwards.
   */
  method RenameInstance(a: Admin, uuid: string, oldName: string, newName: string) returns (r: Outcome)
    modifies a`instances, a`files, a`faults
    ensures a.faults >= old(a.faults)
    ensures
      var instances, files := old(a.instances), old(a.files);
      r.Ok? <==>
        a.faults == old(a.faults) && uuid in files && (NameChanges(files[uuid], oldName, newName) ==> uuid in instances)
    ensures
      var instances, files := old(a.instances), old(a.files);
      || (r.Err? && a.instances == instances && a.files == files)
      || (r.Err? && a.instances == RenamedInstances(instances, files, {uuid}, oldName, newName) && a.files == files)
      || (r.Ok? && RecordsRenamed(instances, files, a.instances, a.files, {uuid}, oldName, newName))
    ensures a.instances.Keys == old(a.instances).Keys && a.files.Keys == old(a.files).Keys
  {
    hide ReplaceFirst;
    var failed := a.Call(); // read the file
    if failed || uuid !in a.files { return Err(Failed); }
    var record := a.files[uuid];
    var name := ReplaceFirst(record.name, oldName, newName);
    if name == record.name {
      assert RenamedInstance(record, oldName, newName) == record;
      assert RecordsRenamed(a.instances, a.files, a.instances, a.files, {uuid}, oldName, newName);
      return Ok;
    }
    record := record.(name := name);
    failed := a.Call(); // updateInstance
    if failed || uuid !in a.instances { return Err(Failed); }
    a.instances := a.instances[uuid := record];
    assert a.instances == RenamedInstances(old(a.instances), old(a.files), {uuid}, oldName, newName);
    failed := a.WriteInstance(uuid, record);
    if failed { return Err(Failed); }
    assert a.files == RenamedFiles(old(a.files), {uuid}, oldName, newName);
    return Ok;
  }

  /** What becomes of one key and of the instance it refers to. */
  predicate KeyMoved(was: World, now: World, key: string, oldName: string, newName: string, calm: bool, clean: bool)
    requires oldName != ""
  {
    var copy, refers := RenamedKey(key, oldName, newName), key in was.kv && HoldsMySQLUuid(key);
    && (if key !in was.kv || copy == key then now.kv == was.kv
        else
          && (|| now.kv == was.kv
              || now.kv == was.kv[copy := was.kv[key]]
              || now.kv == was.kv[copy := was.kv[key]] - {key})
          && (clean ==> now.kv == was.kv[copy := was.kv[key]] - {key}))
    && (clean ==>
          if refers
          then RecordsRenamed(was.instances, was.files, now.instances, now.files, {was.kv[key]}, oldName, newName)
          else now.instances == was.instances && now.files == was.files)
    && now.instances.Keys == was.instances.Keys && now.files.Keys == was.files.Keys
    && (calm && (refers ==> was.kv[key] in was.instances && was.kv[key] in was.files) ==> clean)
  }

  /** One key: copied before it is deleted, so that a failure leaves it in at least one place. */
  method RenameOneKey(a: Admin, oldKey: string, oldName: string, newName: string) returns (errs: seq<Error>)
    requires oldName != ""
    modifies a`kv, a`instances, a`files, a`faults
    ensures a.faults >= old(a.faults) && (errs == [] ==> a.faults == old(a.faults))
    ensures KeyMoved(old(a.State()), a.State(), oldKey, oldName, newName, a.faults == old(a.faults), errs == [])
  {
    hide HasSuffix, RenamedInstances, RenamedFiles, RecordsRenamed, NameChanges;
    errs := [];
    var failed, data := a.Get(oldKey);
    if failed { return [Failed]; }
    if data.None? { return; }
    if HoldsMySQLUuid(oldKey) {
      var r := RenameInstance(a, data.value, oldName, newName);
      if r.Err? { errs := errs + [r.error]; }
    }
    var newKey := RenamedKey(oldKey, oldName, newName);
    if oldKey == newKey { return; }
    failed := a.Put(newKey, data.value);
    if failed { errs := errs + [Failed]; return; }
    failed := a.Delete(oldKey);
    if failed { errs := errs + [Failed]; }
  }

  /** The MySQL instances that keys refer to. */
  function UuidsAt(kv: map<string, string>, keys: set<string>): set<string> {
    set key | key in keys && key in kv && HoldsMySQLUuid(key) :: kv[key]
  }

  predicate RefersToMySQL(kv: map<string, string>, client: string, key: string, uuid: string) {
    key in kv && client + "/" <= key && HoldsMySQLUuid(key) && kv[key] == uuid
  }

  /** Each MySQL instance is referred to by one key of the client. */
  ghost predicate DistinctUuids(kv: map<string, string>, client: string) {
    forall k1, k2, u | RefersToMySQL(kv, client, k1, u) && RefersToMySQL(kv, client, k2, u) :: k1 == k2
  }

  /** Every MySQL instance that is referred to exists on the server and has its file. */
  ghost predicate KnownInstances(kv: map<string, string>, client: string, instances: map<string, Instance>,
                                 files: map<string, Instance>) {
    forall key, u | RefersToMySQL(kv, client, key, u) :: u in instances && u in files
  }

  /** The keys that belong to some of the services. */
  function StoredFor(kv: map<string, string>, client: string, ids: set<string>): set<string> {
    set key | key in kv && InSomeDir(client, key, ids)
  }

  /** A renaming of the keys that is under way. */
  ghost predicate UnderWay(was: map<string, string>, now: map<string, string>, oldName: string, newName: string,
                           copied: set<string>, dropped: set<string>)
  {
    && Renamable(was, oldName, newName)
    && MovedKeys(was, now, oldName, newName, copied, dropped)
    && forall k | k in copied :: oldName + "/" <= k
  }

  /** Whatever one key's renaming did, no value is lost. */
  lemma OneKeyMoved(was: map<string, string>, before: map<string, string>, now: map<string, string>,
                    oldName: string, newName: string, copied: set<string>, dropped: set<string>, key: string)
    returns (copied': set<string>, dropped': set<string>)
    requires oldName != "" && UnderWay(was, before, oldName, newName, copied, dropped)
    requires key in was && oldName + "/" <= key && key !in copied
    requires
      var copy := RenamedKey(key, oldName, newName);
      || now == before
      || (key in before && now == before[copy := before[key]])
      || (key in before && now == before[copy := before[key]] - {key})
    ensures UnderWay(was, now, oldName, newName, copied', dropped')
    ensures copied <= copied' <= copied + {key} && dropped <= dropped' <= dropped + {key}
    ensures key in before && now == before[RenamedKey(key, oldName, newName) := before[key]] - {key} ==>
      copied' == copied + {key} && dropped' == dropped + {key}
  {
    hide Renamable, RenamedKey;
    var copy := RenamedKey(key, oldName, newName);
    copied', dropped' := copied, dropped;
    if key in before && now == before[copy := before[key]] - {key} {
      OneMoreCopy(was, before, oldName, newName, copied, dropped, key);
      OneMoreDrop(was, before[copy := was[key]], oldName, newName, copied + {key}, dropped, key);
      copied', dropped' := copied + {key}, dropped + {key};
    } else if now != before {
      OneMoreCopy(was, before, oldName, newName, copied, dropped, key);
      copied' := copied + {key};
    }
  }

  /** A key that is not copied yet is where it was, and its copy will be another key. */
  lemma StillThere(was: map<string, string>, now: map<string, string>, oldName: string, newName: string,
                   copied: set<string>, dropped: set<string>, key: string)
    requires UnderWay(was, now, oldName, newName, copied, dropped)
    requires key in was && oldName + "/" <= key && key !in copied
    ensures key in now && now[key] == was[key] && RenamedKey(key, oldName, newName) != key
  {
    hide RenamedKey;
    RenamedIsBelow(key, oldName, newName);
  }

  /** Renaming one more instance reads a file that none of the others has touched. */
  lemma OneMoreRecord(instances: map<string, Instance>, files: map<string, Instance>, done: set<string>, u: string,
                      oldName: string, newName: string)
    requires u !in done
    ensures
      var i, f := RenamedInstances(instances, files, done, oldName, newName), RenamedFiles(files, done, oldName,
                                                                                           newName);
      && RenamedInstances(i, f, {u}, oldName, newName) ==
           RenamedInstances(instances, files, done + {u}, oldName, newName)
      && RenamedFiles(f, {u}, oldName, newName) == RenamedFiles(files, done + {u}, oldName, newName)
  {
    hide RenamedInstance, NameChanges;
  }

  lemma OneMoreUuid(kv: map<string, string>, client: string, done: set<string>, key: string)
    requires DistinctUuids(kv, client) && key in kv && key !in done && HoldsMySQLUuid(key)
    requires forall k | k in done + {key} :: client + "/" <= k
    ensures UuidsAt(kv, done + {key}) == UuidsAt(kv, done) + {kv[key]} && kv[key] !in UuidsAt(kv, done)
  {
    hide HasSuffix;
    assert key in done + {key};
    assert RefersToMySQL(kv, client, key, kv[key]);
    forall k | k in done && k in kv && HoldsMySQLUuid(k)
      ensures kv[k] != kv[key]
    {
      assert k in done + {key};
      assert RefersToMySQL(kv, client, k, kv[k]);
    }
  }

  lemma CopiedIsBelow(was: map<string, string>, now: map<string, string>, oldName: string, newName: string,
                      copied: set<string>, dropped: set<string>)
    requires UnderWay(was, now, oldName, newName, copied, dropped)
    ensures forall k | k in copied :: oldName + "/" <= k
  {
    hide Renamable, MovedKeys;
  }

  /** The instances after one more key, if this key's renaming did all it should. */
  lemma InstanceStep(instances: map<string, Instance>, files: map<string, Instance>, beforeInstances: map<string,
                     Instance>,
                     beforeFiles: map<string, Instance>, nowInstances: map<string, Instance>,
                     nowFiles: map<string, Instance>, kv: map<string, string>, done: set<string>, key: string,
                     oldName: string, newName: string)
    requires DistinctUuids(kv, oldName) && key in kv && key !in done
    requires forall k | k in done + {key} :: oldName + "/" <= k
    requires RecordsRenamed(instances, files, beforeInstances, beforeFiles, UuidsAt(kv, done), oldName, newName)
    requires
      if HoldsMySQLUuid(key)
      then RecordsRenamed(beforeInstances, beforeFiles, nowInstances, nowFiles, {kv[key]}, oldName, newName)
      else nowInstances == beforeInstances && nowFiles == beforeFiles
    ensures RecordsRenamed(instances, files, nowInstances, nowFiles, UuidsAt(kv, done + {key}), oldName, newName)
  {
    hide HasSuffix, RenamedInstances, RenamedFiles;
    if HoldsMySQLUuid(key) {
      OneMoreUuid(kv, oldName, done, key);
      OneMoreRecord(instances, files, UuidsAt(kv, done), kv[key], oldName, newName);
    } else {
      assert UuidsAt(kv, done + {key}) == UuidsAt(kv, done);
    }
  }

  /**
   * What renaming some more keys does to a renaming that is under way; `calm` if no call failed, `clean` if it
   * reports no error.
   */
  ghost predicate Advances(w: World, mid: World, now: World, oldName: string, newName: string, copied: set<string>,
                           dropped: set<string>, copied': set<string>, dropped': set<string>, more: set<string>,
                           calm: bool, clean: bool)
  {
    UnderWay(w.kv, mid.kv, oldName, newName, copied, dropped) ==>
      && UnderWay(w.kv, now.kv, oldName, newName, copied', dropped')
      && copied <= copied' <= copied + more
      && (clean && copied == dropped ==> copied' == dropped' == copied + more)
      && (clean && copied == dropped && DistinctUuids(w.kv, oldName) &&
          RecordsRenamed(w.instances, w.files, mid.instances, mid.files, UuidsAt(w.kv, copied), oldName, newName) ==>
            RecordsRenamed(w.instances, w.files, now.instances, now.files, UuidsAt(w.kv, copied'), oldName, newName))
      && (calm && KnownInstances(w.kv, oldName, mid.instances, mid.files) ==> clean)
  }

  /** The keys stored for some services have been through the loop. */
  ghost predicate Advanced(w: World, now: World, oldName: string, newName: string, copied: set<string>,
                           dropped: set<string>, stored: set<string>, calm: bool, clean: bool)
  {
    && UnderWay(w.kv, now.kv, oldName, newName, copied, dropped)
    && copied <= stored
    && (clean ==> copied == dropped == stored)
    && (clean && DistinctUuids(w.kv, oldName) ==>
          RecordsRenamed(w.instances, w.files, now.instances, now.files, UuidsAt(w.kv, copied), oldName, newName))
    && (calm && KnownInstances(w.kv, oldName, w.instances, w.files) ==> clean)
    && now.instances.Keys == w.instances.Keys && now.files.Keys == w.files.Keys
  }

  lemma AdvancesFurther(w: World, mid: World, now: World, oldName: string, newName: string, copied: set<string>,
                        dropped: set<string>, copied': set<string>, dropped': set<string>, stored: set<string>,
                        more: set<string>, calm: bool, clean: bool, calm': bool, clean': bool)
    requires Advanced(w, mid, oldName, newName, copied, dropped, stored, calm, clean)
    requires Advances(w, mid, now, oldName, newName, copied, dropped, copied', dropped', more, calm', clean')
    requires now.instances.Keys == mid.instances.Keys && now.files.Keys == mid.files.Keys
    ensures Advanced(w, now, oldName, newName, copied', dropped', stored + more, calm && calm', clean && clean')
  {
    hide UnderWay, RecordsRenamed, UuidsAt, DistinctUuids, KnownInstances;
    SameKnown(w.kv, oldName, w.instances, mid.instances, w.files, mid.files);
  }

  /** The next of the keys. */
  lemma AdvancesByKey(w: World, start: World, mid: World, now: World, oldName: string, newName: string,
                      copied: set<string>, dropped: set<string>, c: set<string>, d: set<string>, done: set<string>,
                      key: string, calm: bool, clean: bool, calm': bool, clean': bool)
    returns (copied': set<string>, dropped': set<string>)
    requires oldName != "" && UnderWay(w.kv, start.kv, oldName, newName, copied, dropped)
    requires Advances(w, start, mid, oldName, newName, copied, dropped, c, d, done, calm, clean)
    requires mid.instances.Keys == start.instances.Keys && mid.files.Keys == start.files.Keys
    requires key in w.kv && key !in copied && key !in done && oldName + "/" <= key
    requires KeyMoved(mid, now, key, oldName, newName, calm', clean')
    ensures Advances(w, start, now, oldName, newName, copied, dropped, copied', dropped', done + {key},
                     calm && calm', clean && clean')
  {
    hide UnderWay, RenamedKey, HasSuffix, RecordsRenamed, UuidsAt, DistinctUuids;
    StillThere(w.kv, mid.kv, oldName, newName, c, d, key);
    copied', dropped' := OneKeyMoved(w.kv, mid.kv, now.kv, oldName, newName, c, d, key);
    assert HoldsMySQLUuid(key) ==> RefersToMySQL(w.kv, oldName, key, mid.kv[key]);
    if clean && clean' && copied == dropped && DistinctUuids(w.kv, oldName) &&
      RecordsRenamed(w.instances, w.files, start.instances, start.files, UuidsAt(w.kv, copied), oldName, newName)
    {
      CopiedIsBelow(w.kv, mid.kv, oldName, newName, c, d);
      InstanceStep(w.instances, w.files, mid.instances, mid.files, now.instances, now.files, w.kv, c, key, oldName,
                   newName);
    }
  }

  /** All keys of one service. */
  method RenameKeys(a: Admin, keys: seq<string>, oldName: string, newName: string, ghost w: World,
                    ghost copied: set<string>, ghost dropped: set<string>)
    returns (errs: seq<Error>, ghost copied': set<string>, ghost dropped': set<string>)
    requires oldName != "" && forall i, j | 0 <= i < j < |keys| :: keys[i] != keys[j]
    modifies a`kv, a`instances, a`files, a`faults
    ensures a.faults >= old(a.faults) && (errs == [] ==> a.faults == old(a.faults))
    ensures (forall key | key in keys :: key in w.kv && key !in copied && oldName + "/" <= key) ==>
      Advances(w, old(a.State()), a.State(), oldName, newName, copied, dropped, copied', dropped', SetOf(keys),
               a.faults == old(a.faults), errs == [])
    ensures a.instances.Keys == old(a.instances).Keys && a.files.Keys == old(a.files).Keys
  {
    hide UnderWay, RenamedKey, HasSuffix, RecordsRenamed, UuidsAt, DistinctUuids, KnownInstances, KeyMoved, Advances;
    errs := [];
    copied', dropped' := copied, dropped;
    ghost var start := a.State();
    ghost var sound := UnderWay(w.kv, a.kv, oldName, newName, copied, dropped)
      && forall key | key in keys :: key in w.kv && key !in copied && oldName + "/" <= key;
    NoKeyYet(w, start, oldName, newName, copied, dropped);
    for i := 0 to |keys|
      invariant a.faults >= old(a.faults) && (errs == [] ==> a.faults == old(a.faults))
      invariant a.instances.Keys == old(a.instances).Keys && a.files.Keys == old(a.files).Keys
      invariant sound ==>
        Advances(w, start, a.State(), oldName, newName, copied, dropped, copied', dropped', SetOf(keys[..i]),
                 a.faults == old(a.faults), errs == [])
    {
      ghost var mid, before, clean := a.State(), a.faults, errs == [];
      assert keys[i] in keys && keys[i] !in keys[..i];
      OneMoreElement(keys, i);
      var more := RenameOneKey(a, keys[i], oldName, newName);
      errs := errs + more;
      KeyMovedKeeps(mid, a.State(), keys[i], oldName, newName, a.faults == before, more == []);
      if sound {
        copied', dropped' :=
          AdvancesByKey(w, start, mid, a.State(), oldName, newName, copied, dropped, copied', dropped',
                        SetOf(keys[..i]),
                        keys[i], before == old(a.faults), clean, a.faults == before, more == []);
      }
    }
    assert keys[..|keys|] == keys;
    if !sound {
      NotUnderWay(w, start, a.State(), oldName, newName, copied, dropped, copied', dropped', SetOf(keys),
                  a.faults == old(a.faults), errs == []);
    }
  }

  lemma KeyMovedKeeps(was: World, now: World, key: string, oldName: string, newName: string, calm: bool, clean: bool)
    requires oldName != "" && KeyMoved(was, now, key, oldName, newName, calm, clean)
    ensures now.instances.Keys == was.instances.Keys && now.files.Keys == was.files.Keys
  {
    hide RenamedKey, HasSuffix, RecordsRenamed;
  }

  lemma NoKeyYet(w: World, start: World, oldName: string, newName: string, copied: set<string>, dropped: set<string>)
    ensures Advances(w, start, start, oldName, newName, copied, dropped, copied, dropped, SetOf([]), true, true)
  {
    hide UnderWay, RecordsRenamed, UuidsAt, DistinctUuids, KnownInstances;
  }

  lemma NotUnderWay(w: World, mid: World, now: World, oldName: string, newName: string, copied: set<string>,
                    dropped: set<string>, copied': set<string>, dropped': set<string>, more: set<string>, calm: bool,
                    clean: bool)
    ensures !UnderWay(w.kv, mid.kv, oldName, newName, copied, dropped) ==>
      Advances(w, mid, now, oldName, newName, copied, dropped, copied', dropped', more, calm, clean)
  {
  }

  // ---------- one service ----------

  /** The keys found below a service's prefix are its original ones, and all of them. */
  lemma KeysOfService(was: map<string, string>, now: map<string, string>, oldName: string, newName: string,
                      copied: set<string>, dropped: set<string>, id: string)
    requires oldName != "" && UnderWay(was, now, oldName, newName, copied, dropped)
    requires forall key | key in copied :: !(Dir(oldName, id) <= key)
    ensures forall key | key in now && Dir(oldName, id) <= key :: key in was && oldName + "/" <= key
    ensures (set key | key in now && Dir(oldName, id) <= key) == StoredFor(was, oldName, {id})
  {
    hide Renamable, MovedKeys, RenamedKey, Dir, UnderWay;
    forall key | key in now && Dir(oldName, id) <= key
      ensures key in StoredFor(was, oldName, {id}) && oldName + "/" <= key
    {
      DirIsBelow(oldName, id, key);
      OriginalKey(was, now, oldName, newName, copied, dropped, key);
      assert id in {id};
    }
    forall key | key in StoredFor(was, oldName, {id})
      ensures key in now && Dir(oldName, id) <= key
    {
      DirIsBelow(oldName, id, key);
      StillThere(was, now, oldName, newName, copied, dropped, key);
    }
  }

  lemma OriginalKey(was: map<string, string>, now: map<string, string>, oldName: string, newName: string,
                    copied: set<string>, dropped: set<string>, key: string)
    requires oldName != "" && UnderWay(was, now, oldName, newName, copied, dropped)
    requires key in now && oldName + "/" <= key
    ensures key in was
  {
    hide RenamedKey, Renamable, MovedKeys;
    BelowOldIsOriginal(was, now, oldName, newName, copied, dropped, key);
  }

  /** Services that are done have no keys below the prefix of another one. */
  lemma OtherDirs(was: map<string, string>, client: string, done: set<string>, id: string, key: string)
    requires '/' !in client && '/' !in id && id !in done && forall i | i in done :: '/' !in i
    requires key in StoredFor(was, client, done)
    ensures !(Dir(client, id) <= key)
  {
    var id' :| id' in done && Dir(client, id') <= key;
    if Dir(client, id) <= key {
      assert key == Dir(client, id') + key[|Dir(client, id')|..];
      DirsDisjoint(client, id, id', key[|Dir(client, id')|..]);
    }
  }

  /** One service: registered under the new name, then removed from the old one, then its keys. */
  method RenameOneService(a: Admin, id: string, svc: Service, oldName: string, newName: string, ghost w: World,
                          ghost copied: set<string>, ghost dropped: set<string>)
    returns (errs: seq<Error>, ghost copied': set<string>, ghost dropped': set<string>)
    requires oldName != ""
    modifies a`catalog, a`kv, a`instances, a`files, a`faults
    ensures a.faults >= old(a.faults) && (errs == [] ==> a.faults == old(a.faults))
    ensures
      var there := WithService(old(a.catalog), newName, a.config.clientAddress, id,
                               RenamedService(svc, oldName, newName));
      && (a.catalog == old(a.catalog) || a.catalog == there || a.catalog == WithoutService(there, oldName, id))
      && (a.faults == old(a.faults) ==> a.catalog == WithoutService(there, oldName, id))
    ensures (forall key | key in copied :: !(Dir(oldName, id) <= key)) ==>
      Advances(w, old(a.State()), a.State(), oldName, newName, copied, dropped, copied', dropped',
               StoredFor(w.kv, oldName, {id}), a.faults == old(a.faults), errs == [])
    ensures a.instances.Keys == old(a.instances).Keys && a.files.Keys == old(a.files).Keys
  {
    hide UnderWay, RecordsRenamed, UuidsAt, DistinctUuids, KnownInstances, StoredFor, Dir, RenamedService,
      WithService, WithoutService;
    errs, copied', dropped' := [], copied, dropped;
    var renamed := RenameTags(svc, oldName, newName);
    var failed := a.Register(newName, a.config.clientAddress, id, renamed);
    if failed { errs := [Failed]; return; }
    failed := a.Deregister(oldName, id);
    if failed { errs := [Failed]; return; }
    var keys;
    failed, keys := a.Keys(Dir(oldName, id));
    if failed { errs := [Failed]; return; }
    if UnderWay(w.kv, a.kv, oldName, newName, copied, dropped) && forall key | key in copied ::
      !(Dir(oldName, id) <= key) {
      KeysOfService(w.kv, a.kv, oldName, newName, copied, dropped, id);
      assert SetOf(keys) == set key | key in a.kv && Dir(oldName, id) <= key;
    }
    errs, copied', dropped' := RenameKeys(a, keys, oldName, newName, w, copied, dropped);
  }

  // ---------- all services ----------

  lemma OneMoreArrived(there: map<string, Service>, services: map<string, Service>, oldName: string, newName: string,
                       registered: set<string>, id: string)
    requires registered <= services.Keys && id in services
    ensures Arrived(there, services, oldName, newName, registered)[id := RenamedService(services[id], oldName, newName)]
      == Arrived(there, services, oldName, newName, registered + {id})
  {
    hide RenamedService;
  }

  lemma CatalogRegistered(was: map<string, Node>, oldName: string, newName: string, address: string,
                          registered: set<string>, dropped: set<string>, id: string)
    requires oldName in was && oldName != newName && registered <= was[oldName].services.Keys
    requires id in was[oldName].services
    ensures
      WithService(MovedCatalog(was, oldName, newName, address, registered, dropped), newName, address, id,
                  RenamedService(was[oldName].services[id], oldName, newName))
      == MovedCatalog(was, oldName, newName, address, registered + {id}, dropped)
  {
    hide RenamedService, Arrived;
    var there := if newName in was then was[newName].services else map[];
    OneMoreArrived(there, was[oldName].services, oldName, newName, registered, id);
    NothingArrived(there, was[oldName].services, oldName, newName);
  }

  lemma NothingArrived(there: map<string, Service>, services: map<string, Service>, oldName: string, newName: string)
    ensures Arrived(there, services, oldName, newName, {}) == there
  {
    hide RenamedService;
  }

  lemma CatalogDropped(was: map<string, Node>, oldName: string, newName: string, address: string,
                       registered: set<string>, dropped: set<string>, id: string)
    requires oldName in was && oldName != newName && registered <= was[oldName].services.Keys
    ensures WithoutService(MovedCatalog(was, oldName, newName, address, registered, dropped), oldName, id)
      == MovedCatalog(was, oldName, newName, address, registered, dropped + {id})
  {
    hide RenamedService;
    var services := was[oldName].services;
    assert services - dropped - {id} == services - (dropped + {id});
  }

  lemma CatalogStep(was: map<string, Node>, before: map<string, Node>, now: map<string, Node>, oldName: string,
                    newName: string,
                    address: string, registered: set<string>, dropped: set<string>, id: string)
    returns (registered': set<string>, dropped': set<string>)
    requires oldName in was && oldName != newName && registered <= was[oldName].services.Keys && dropped <= registered
    requires id in was[oldName].services
    requires before == MovedCatalog(was, oldName, newName, address, registered, dropped)
    requires
      var there := WithService(before, newName, address, id,
                               RenamedService(was[oldName].services[id], oldName, newName));
      now == before || now == there || now == WithoutService(there, oldName, id)
    ensures registered <= registered' <= registered + {id} && dropped' <= registered'
    ensures dropped <= dropped' <= dropped + {id}
    ensures now == MovedCatalog(was, oldName, newName, address, registered', dropped')
    ensures
      var there := WithService(before, newName, address, id,
                               RenamedService(was[oldName].services[id], oldName, newName));
      now == WithoutService(there, oldName, id) ==> registered' == registered + {id} && dropped' == dropped + {id}
  {
    hide MovedCatalog, WithService, WithoutService, RenamedService;
    CatalogRegistered(was, oldName, newName, address, registered, dropped, id);
    CatalogDropped(was, oldName, newName, address, registered + {id}, dropped, id);
    var there := WithService(before, newName, address, id, RenamedService(was[oldName].services[id], oldName, newName));
    if now == WithoutService(there, oldName, id) {
      registered', dropped' := registered + {id}, dropped + {id};
    } else if now == there {
      registered', dropped' := registered + {id}, dropped;
    } else {
      registered', dropped' := registered, dropped;
    }
  }

  lemma StoredForMore(kv: map<string, string>, client: string, ids: set<string>, id: string)
    ensures StoredFor(kv, client, ids + {id}) == StoredFor(kv, client, ids) + StoredFor(kv, client, {id})
  {
    hide Dir;
    forall key | key in kv
      ensures InSomeDir(client, key, ids + {id}) <==> InSomeDir(client, key, ids) || InSomeDir(client, key, {id})
    {
      assert id in {id};
      if InSomeDir(client, key, ids) {
        var i :| i in ids && Dir(client, i) <= key;
        assert i in ids + {id};
      }
      if InSomeDir(client, key, {id}) {
        assert id in ids + {id} && Dir(client, id) <= key;
      }
    }
  }

  /**
   * renameClientNameInServices. Whatever fails, no service and no stored value is lost: each is still at its
   * old place or already at its new one. Without errors everything has moved.
   */
  method RenameClientNameInServices(a: Admin, services: map<string, Service>, oldName: string, newName: string)
    returns (errs: seq<Error>, ghost registered: set<string>, ghost deregistered: set<string>,
             ghost copied: set<string>, ghost dropped: set<string>)
    requires oldName != "" && oldName != newName
    requires oldName in a.catalog && services == a.catalog[oldName].services
    modifies a`catalog, a`kv, a`instances, a`files, a`faults
    ensures a.faults >= old(a.faults) && (errs == [] ==> a.faults == old(a.faults))
    ensures deregistered <= registered <= services.Keys
    ensures a.catalog ==
      MovedCatalog(old(a.catalog), oldName, newName, a.config.clientAddress, registered, deregistered)
    ensures a.faults == old(a.faults) ==> registered == deregistered == services.Keys
    ensures FewStay(services.Keys, deregistered, old(a.faults), a.faults)
    ensures Renamable(old(a.kv), oldName, newName) && (forall id | id in services :: '/' !in id) ==>
      Advanced(old(a.State()), a.State(), oldName, newName, copied, dropped,
               StoredFor(old(a.kv), oldName, services.Keys), a.faults == old(a.faults), errs == [])
  {
    hide MovedCatalog, Advanced, Advances, Renamable, StoredFor, Dir, RenamedService, WithService, WithoutService,
      SetOf, FewStay;
    ghost var w, address := a.State(), a.config.clientAddress;
    ghost var sound := Renamable(w.kv, oldName, newName) && forall id | id in services :: '/' !in id;
    errs, registered, deregistered, copied, dropped := [], {}, {}, {}, {};
    NothingMoved(w, oldName, newName, address);
    NoneStays(a.faults);
    var ids := Listing(services.Keys);
    SetOfListing(ids, services.Keys);
    ghost var done: set<string> := {};
    for i := 0 to |ids|
      invariant a.faults >= old(a.faults) && (errs == [] ==> a.faults == old(a.faults))
      invariant done == SetOf(ids[..i]) && deregistered <= registered <= done <= services.Keys
      invariant a.catalog == MovedCatalog(w.catalog, oldName, newName, address, registered, deregistered)
      invariant a.faults == old(a.faults) ==> registered == deregistered == done
      invariant FewStay(done, deregistered, old(a.faults), a.faults)
      invariant sound ==>
        Advanced(w, a.State(), oldName, newName, copied, dropped, StoredFor(w.kv, oldName, done),
                 a.faults == old(a.faults), errs == [])
    {
      var id := ids[i];
      ghost var mid, before, c, d, clean := a.State(), a.faults, copied, dropped, errs == [];
      assert id in ids;
      OneMoreElement(ids, i);
      if sound {
        NoneCopiedYet(w, mid, oldName, newName, copied, dropped, done, id, before == old(a.faults), clean);
      }
      var more;
      more, copied, dropped := RenameOneService(a, id, services[id], oldName, newName, w, copied, dropped);
      errs := errs + more;
      if sound {
        OneServiceFurther(w, mid, a.State(), oldName, newName, c, d, copied, dropped, done, id,
                          before == old(a.faults), clean, a.faults == before, more == []);
      }
      registered, deregistered :=
        ServiceStep(w.catalog, mid.catalog, a.catalog, oldName, newName, address, registered, deregistered, done, id,
                    old(a.faults), before, a.faults);
      done := done + {id};
    }
    assert ids[..|ids|] == ids && done == services.Keys;
  }

  /** No more of the services are still there than calls have failed from the start until now. */
  predicate FewStay(services: set<string>, gone: set<string>, start: nat, now: nat) { start + |services - gone| <= now }

  /** No key of the next service is copied yet. */
  lemma NoneCopiedYet(w: World, now: World, oldName: string, newName: string, copied: set<string>,
                      dropped: set<string>, done: set<string>, id: string, calm: bool, clean: bool)
    requires Renamable(w.kv, oldName, newName) && '/' !in id && id !in done && forall i | i in done :: '/' !in i
    requires Advanced(w, now, oldName, newName, copied, dropped, StoredFor(w.kv, oldName, done), calm, clean)
    ensures forall key | key in copied :: !(Dir(oldName, id) <= key)
  {
    hide Advanced, Renamable, StoredFor, Dir;
    KeysApart(w.kv, oldName, newName, done, id);
    CopiedIsStored(w, now, oldName, newName, copied, dropped, StoredFor(w.kv, oldName, done), calm, clean);
  }

  lemma OneServiceFurther(w: World, mid: World, now: World, oldName: string, newName: string, copied: set<string>,
                          dropped: set<string>, copied': set<string>, dropped': set<string>, done: set<string>,
                          id: string, calm: bool, clean: bool, calm': bool, clean': bool)
    requires Advanced(w, mid, oldName, newName, copied, dropped, StoredFor(w.kv, oldName, done), calm, clean)
    requires Advances(w, mid, now, oldName, newName, copied, dropped, copied', dropped',
                      StoredFor(w.kv, oldName, {id}), calm', clean')
    requires now.instances.Keys == mid.instances.Keys && now.files.Keys == mid.files.Keys
    ensures Advanced(w, now, oldName, newName, copied', dropped', StoredFor(w.kv, oldName, done + {id}),
                     calm && calm', clean && clean')
  {
    hide Advanced, Advances, StoredFor;
    StoredForMore(w.kv, oldName, done, id);
    AdvancesFurther(w, mid, now, oldName, newName, copied, dropped, copied', dropped', StoredFor(w.kv, oldName, done),
                    StoredFor(w.kv, oldName, {id}), calm, clean, calm', clean');
  }

  /** One service further in the catalog. */
  lemma ServiceStep(was: map<string, Node>, before: map<string, Node>, now: map<string, Node>, oldName: string,
                    newName: string, address: string, registered: set<string>, dropped: set<string>,
                    done: set<string>, id: string, start: nat, faults: nat, faults': nat)
    returns (registered': set<string>, dropped': set<string>)
    requires oldName in was && oldName != newName && registered <= was[oldName].services.Keys && dropped <= registered
    requires id in was[oldName].services && FewStay(done, dropped, start, faults) && faults <= faults'
    requires before == MovedCatalog(was, oldName, newName, address, registered, dropped)
    requires
      var there := WithService(before, newName, address, id,
                               RenamedService(was[oldName].services[id], oldName, newName));
      (now == before || now == there || now == WithoutService(there, oldName, id)) &&
      (faults == faults' ==> now == WithoutService(there, oldName, id))
    ensures registered <= registered' <= registered + {id} && dropped' <= registered'
    ensures now == MovedCatalog(was, oldName, newName, address, registered', dropped')
    ensures faults == faults' ==> registered' == registered + {id} && dropped' == dropped + {id}
    ensures FewStay(done + {id}, dropped', start, faults')
  {
    hide MovedCatalog, WithService, WithoutService, RenamedService, FewStay;
    registered', dropped' := CatalogStep(was, before, now, oldName, newName, address, registered, dropped, id);
    AtMostOneMore(done, dropped, dropped', id, start, faults, faults');
  }

  lemma NoneStays(start: nat)
    ensures FewStay({}, {}, start, start)
  {
  }

  lemma AtMostOneMore(done: set<string>, gone: set<string>, gone': set<string>, id: string, start: nat, faults: nat,
                      faults': nat)
    requires gone <= gone' && faults <= faults' && (faults == faults' ==> id in gone')
    requires FewStay(done, gone, start, faults)
    ensures FewStay(done + {id}, gone', start, faults')
  {
    SubsetSize(done + {id} - gone', (done - gone) + if faults == faults' then {} else {id});
  }

  lemma CopiedIsStored(w: World, now: World, oldName: string, newName: string, copied: set<string>,
                       dropped: set<string>, stored: set<string>, calm: bool, clean: bool)
    requires Advanced(w, now, oldName, newName, copied, dropped, stored, calm, clean)
    ensures copied <= stored
  {
    hide UnderWay, RecordsRenamed, UuidsAt, DistinctUuids, KnownInstances;
  }

  lemma SameKnown(kv: map<string, string>, client: string, i1: map<string, Instance>, i2: map<string, Instance>,
                  f1: map<string, Instance>, f2: map<string, Instance>)
    requires i1.Keys == i2.Keys && f1.Keys == f2.Keys
    ensures KnownInstances(kv, client, i1, f1) ==> KnownInstances(kv, client, i2, f2)
  {
    hide RefersToMySQL;
  }

  lemma SetOfListing(list: seq<string>, s: set<string>)
    requires forall x :: x in list <==> x in s
    ensures SetOf(list) == s && SetOf(list[..0]) == {}
  {
  }

  lemma KeysApart(kv: map<string, string>, oldName: string, newName: string, done: set<string>, id: string)
    requires Renamable(kv, oldName, newName) && '/' !in id && id !in done && forall i | i in done :: '/' !in i
    ensures forall key | key in StoredFor(kv, oldName, done) :: !(Dir(oldName, id) <= key)
  {
    hide Dir, StoredFor;
    forall key | key in StoredFor(kv, oldName, done)
      ensures !(Dir(oldName, id) <= key)
    {
      OtherDirs(kv, oldName, done, id, key);
    }
  }

  lemma NothingMoved(w: World, oldName: string, newName: string, address: string)
    requires oldName != "" && oldName in w.catalog
    ensures w.catalog == MovedCatalog(w.catalog, oldName, newName, address, {}, {})
    ensures Renamable(w.kv, oldName, newName) ==>
      Advanced(w, w, oldName, newName, {}, {}, StoredFor(w.kv, oldName, {}), true, true)
  {
    hide RenamedKey, Renamable, NameChanges;
    assert w.catalog[oldName].services - {} == w.catalog[oldName].services;
    assert StoredFor(w.kv, oldName, {}) == {} && UuidsAt(w.kv, {}) == {};
  }

  /** However far the loops come, every value is under its old or under its new key. */
  lemma NoValueIsLost(was: map<string, string>, now: map<string, string>, oldName: string, newName: string,
                      copied: set<string>, dropped: set<string>, key: string)
    requires oldName != "" && UnderWay(was, now, oldName, newName, copied, dropped) && key in was
    ensures
      var copy := RenamedKey(key, oldName, newName);
      (key in now && now[key] == was[key]) || (copy in now && now[copy] == was[key])
  {
    hide RenamedKey, Renamable;
    if key in dropped {
      assert CopyIn(was, now, key, oldName, newName);
    }
  }

  /** Every service is under the old name, or renamed under the new one. */
  lemma NoServiceIsLost(was: map<string, Node>, oldName: string, newName: string, address: string,
                        registered: set<string>, dropped: set<string>, id: string)
    requires oldName in was && oldName != newName && dropped <= registered <= was[oldName].services.Keys
    requires id in was[oldName].services
    ensures
      var svc := was[oldName].services[id];
      var now := MovedCatalog(was, oldName, newName, address, registered, dropped);
      || (oldName in now && id in now[oldName].services && now[oldName].services[id] == svc)
      || (newName in now && id in now[newName].services &&
          now[newName].services[id] == RenamedService(svc, oldName, newName))
  {
    hide RenamedService;
  }

  /** Deregistering the old node afterwards loses exactly the services that were not registered again. */
  lemma NodeIsDropped(was: map<string, Node>, oldName: string, newName: string, address: string,
                      registered: set<string>, dropped: set<string>)
    requires oldName in was && oldName != newName && dropped <= registered <= was[oldName].services.Keys
    ensures
      var now := MovedCatalog(was, oldName, newName, address, registered, dropped) - {oldName};
      var there := if newName in was then was[newName].services.Keys else {};
      && oldName !in now
      && (forall id :: newName in now && id in now[newName].services <==> id in there || id in registered)
      && (forall n | n != oldName && n != newName :: n in now <==> n in was)
      && (forall n | n in was && n != oldName && n != newName :: now[n] == was[n])
  {
    hide RenamedService;
  }
}
