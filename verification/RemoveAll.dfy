/** Removing everything that is under monitoring, and uninstalling the client. */
module RemoveAll {
  import opened Stores
  import opened Registry
  import opened Transitions
  import opened QueryTransitions
  import opened Monitor
  import opened Services
  import opened Lookup
  import opened Metrics
  import opened Queries
  import opened Refinement
  import opened Runs
  import opened Repair
  import opened Failures
  import opened Sweeps

  const UINT16 := 65536

  /** What a counter of type uint16 shows after n increments. */
  function Uint16(n: nat): nat { n % UINT16 }

  lemma SmallCount(n: nat)
    requires n < UINT16
    ensures Uint16(n) == n
  {
  }

  /** count++ */
  method Tick(count: nat, ghost total: nat) returns (next: nat, ghost more: nat)
    requires count == Uint16(total)
    ensures more == total + 1 && next == Uint16(more)
  {
    next, more := (count + 1) % UINT16, total + 1;
  }

  /** What one removal adds to those before it. */
  ghost predicate Continues(origin: World, was: World, now: World, n: nat, config: Config, parent: string, ok: bool) {
    && (Chain(origin, was, n, config, parent) ==> Chain(origin, now, n + 1, config, parent))
    && (Removals(origin, was, n, config, parent) ==>
          if ok then Removals(origin, now, n + 1, config, parent) else Sweep(origin, now, config, parent))
  }

  lemma RemovalContinues(c: Command, origin: World, was: World, now: World, n: nat, config: Config, parent: string,
                         ok: bool)
    requires c.Valid() && !c.Adds() && Attempts(c, was, now, config, parent)
    requires ok ==> c.Performs(was, now, config, parent)
    ensures Continues(origin, was, now, n, config, parent, ok)
  {
    hide Attempts, Command.Valid, Command.Performs, Chain, Removals, Sweep;
    if Chain(origin, was, n, config, parent) {
      OneMoreInChain(origin, was, now, n, c, config, parent);
    }
    if Removals(origin, was, n, config, parent) {
      OneMoreRemoval(origin, was, now, n, config, parent, ok);
    }
  }

  lemma NothingContinues(origin: World, w: World, n: nat, config: Config, parent: string)
    ensures Continues(origin, w, w, n, config, parent, true)
  {
    hide Chain, Removals, Sweep, Attempts, Command.Valid, Command.Performs;
    if Chain(origin, w, n, config, parent) {
      LongerChain(origin, w, n, n + 1, config, parent);
    }
    if Removals(origin, w, n, config, parent) {
      OneMoreRemoval(origin, w, w, n, config, parent, true);
    }
  }

  /** RemoveMetrics as a command. */
  method RemoveExporterNamed(a: Admin, name: string, ghost origin: World, ghost n: nat) returns (r: Outcome)
    requires KnownName(name)
    modifies a`catalog, a`kv, a`units, a`faults
    ensures a.faults >= old(a.faults)
    ensures
      var none := !Monitored(old(a.Services()), MetricsKind(name), a.serviceName);
      r == Err(NoService) <==> a.faults == old(a.faults) && none
    ensures if Monitored(old(a.Services()), MetricsKind(name), a.serviceName)
      then RemovedAMatch(old(a.State()), a.State(), a.config.clientName, MetricsKind(name), a.serviceName,
                         r.Ok?, a.faults == old(a.faults))
      else r.Err? && a.State() == old(a.State())
    ensures Tries(RemoveExporter(name, a.serviceName), old(a.State()), a.State(), a.config, a.faults == old(a.faults))
    ensures Continues(origin, old(a.State()), a.State(), n, a.config, a.agentParent, r.Ok?)
  {
    hide RemovedAMatch, MetricsKind, Matches, KnownName, Continues;
    ghost var was, client, c := a.State(), a.config.clientName, RemoveExporter(name, a.serviceName);
    r := RemoveMetrics(a, name);
    if r.Ok? {
      RemovedMeansFaultless(was, a.State(), client, MetricsKind(name), a.serviceName, a.faults == old(a.faults));
    }
    RemovalContinues(c, origin, was, a.State(), n, a.config, a.agentParent, r.Ok?);
  }

  /** RemoveQueries as a command. */
  method RemoveSourceNamed(a: Admin, name: string, ghost origin: World, ghost n: nat) returns (r: Outcome)
    requires KnownName(name)
    modifies a`catalog, a`kv, a`units, a`instances, a`faults
    ensures a.faults >= old(a.faults)
    ensures
      var none := !Monitored(old(a.Services()), QueriesKind(name), a.serviceName);
      r == Err(NoService) <==> a.faults == old(a.faults) && none
    ensures if Monitored(old(a.Services()), QueriesKind(name), a.serviceName)
      then RemovedASource(old(a.State()), a.State(), a.config.clientName, a.config.clientAddress, QueriesKind(name),
                          a.serviceName, name, r.Ok?, a.faults == old(a.faults))
      else r.Err? && a.State() == old(a.State())
    ensures Tries(RemoveSource(name, a.serviceName), old(a.State()), a.State(), a.config, a.faults == old(a.faults))
    ensures Continues(origin, old(a.State()), a.State(), n, a.config, a.agentParent, r.Ok?)
  {
    hide RemovedASource, QueriesKind, Matches, KnownName, Continues;
    ghost var was, config, c := a.State(), a.config, RemoveSource(name, a.serviceName);
    r := RemoveQueries(a, name);
    if r.Ok? {
      WithdrawnMeansFaultless(was, a.State(), config.clientName, config.clientAddress, QueriesKind(name),
                              a.serviceName, name, a.faults == old(a.faults));
    }
    RemovalContinues(c, origin, was, a.State(), n, config, a.agentParent, r.Ok?);
  }

  /** The removal of the kind was tried under the alias. */
  ghost predicate TriedOne(kind: string, alias: string, was: World, now: World, config: Config, calm: bool) {
    exists c: Command ::
      c.Valid() && !c.Adds() && Named(c) == Key(kind, alias) && Tries(c, was, now, config, calm)
  }

  /** The switch over the kinds; a kind that is not known is passed over. */
  method RemoveOne(a: Admin, kind: string, ghost reg: Registry, ghost origin: World, ghost n: nat) returns (r: Outcome)
    modifies a`catalog, a`kv, a`units, a`instances, a`faults
    ensures a.faults >= old(a.faults)
    ensures
      var k := Key(kind, a.serviceName);
      old(Represents(a.State(), a.config.clientName, a.agentParent, reg)) && k in reg ==>
        && (r.Ok? <==> a.faults == old(a.faults))
        && (r.Ok? ==> Represents(a.State(), a.config.clientName, a.agentParent, reg - {k}))
    ensures if InSwitch(kind)
      then TriedOne(kind, a.serviceName, old(a.State()), a.State(), a.config, a.faults == old(a.faults))
      else r.Ok? && a.State() == old(a.State())
    ensures Continues(origin, old(a.State()), a.State(), n, a.config, a.agentParent, r.Ok?)
  {
    hide Represents, MetricsKind, QueriesKind, KnownName, Monitored, RemovedAMatch, RemovedASource, ServiceName,
      Continues, Tries;
    ghost var named := Key(kind, a.serviceName);
    ghost var was, client := a.State(), a.config.clientName;
    ghost var represented := Represents(was, client, a.agentParent, reg) && named in reg;
    if represented {
      KnownKey(was, client, a.agentParent, reg, named);
      assert NamedBy(named, kind, a.serviceName);
    }
    if kind == MetricsKind("linux") || kind == MetricsKind("mysql") || kind == MetricsKind("mongodb") ||
       kind == MetricsKind("postgresql") || kind == MetricsKind("proxysql")
    {
      var name := if kind == MetricsKind("linux") then "linux" else if kind == MetricsKind("mysql") then "mysql"
        else if kind == MetricsKind("mongodb") then "mongodb"
        else if kind == MetricsKind("postgresql") then "postgresql"
        else "proxysql";
      assert KnownName(name) by { NameIsKnown(name); }
      r := RemoveExporterNamed(a, name, origin, n);
      TriedExporter(name, a.serviceName, was, a.State(), a.config, a.faults == old(a.faults));
      if represented {
        RemoveMetricsRefines(was, a.State(), client, a.agentParent, reg, name, a.serviceName, r.Ok?,
                             a.faults == old(a.faults));
        assert forall k | NamedBy(k, kind, a.serviceName) :: k == named;
      }
    } else if kind == QueriesKind("mysql") || kind == QueriesKind("mongodb") {
      var name := if kind == QueriesKind("mysql") then "mysql" else "mongodb";
      assert KnownName(name) by { NameIsKnown(name); }
      r := RemoveSourceNamed(a, name, origin, n);
      TriedSource(name, a.serviceName, was, a.State(), a.config, a.faults == old(a.faults));
      if represented {
        RemoveQueriesRefines(was, a.State(), client, a.config.clientAddress, a.agentParent, reg, name, a.serviceName,
                             r.Ok?, a.faults == old(a.faults));
      }
    } else {
      r := Ok;
      NothingContinues(origin, was, n, a.config, a.agentParent);
    }
  }

  lemma TriedExporter(name: string, alias: string, was: World, now: World, config: Config, calm: bool)
    requires KnownName(name) && Tries(RemoveExporter(name, alias), was, now, config, calm)
    ensures TriedOne(MetricsKind(name), alias, was, now, config, calm)
  {
    hide Tries, MetricsKind, KnownName;
    assert Named(RemoveExporter(name, alias)) == Key(MetricsKind(name), alias);
  }

  lemma TriedSource(name: string, alias: string, was: World, now: World, config: Config, calm: bool)
    requires KnownName(name) && Tries(RemoveSource(name, alias), was, now, config, calm)
    ensures TriedOne(QueriesKind(name), alias, was, now, config, calm)
  {
    hide Tries, QueriesKind, KnownName;
    assert Named(RemoveSource(name, alias)) == Key(QueriesKind(name), alias);
  }

  lemma NameIsKnown(name: string)
    requires name == "linux" || name == "mysql" || name == "mongodb" || name == "postgresql" || name == "proxysql"
    ensures KnownName(name)
  {
  }

  predicate InSwitch(kind: string) {
    kind == MetricsKind("linux") || kind == MetricsKind("mysql") || kind == MetricsKind("mongodb") ||
    kind == MetricsKind("postgresql") || kind == MetricsKind("proxysql") ||
    kind == QueriesKind("mysql") || kind == QueriesKind("mongodb")
  }

  lemma KnownKindsAreInSwitch(kind: string)
    requires kind in SvcTypes
    ensures InSwitch(kind)
  {
    hide MetricsKind, QueriesKind;
  }

  /** A represented key has a usable alias and one of the kinds of the switch. */
  lemma KnownKey(w: World, client: string, parent: string, reg: Registry, k: Key)
    requires Represents(w, client, parent, reg) && k in reg
    ensures k.alias != "" && InSwitch(k.kind)
  {
    hide Represents, MetricsKind, QueriesKind, PlainKind, IsQueries, InSwitch, SvcTypes;
    ValidOf(w, client, parent, reg, k);
    KnownKindsAreInSwitch(k.kind);
  }

  // ---------- the nested loops over a snapshot ----------

  /** The alias tags of the snapshot service are exactly the entries that live at its ID. */
  ghost predicate TagsCover(reg: Registry, id: string, svc: Service) {
    && DistinctAliases(svc.tags)
    && (forall t | t in svc.tags && IsAliasTag(t) :: Accounted(reg, id, svc, t))
    && (forall k | k in reg && IdOf(k, reg[k]) == id :: k.kind == svc.kind && AliasTag(k.alias) in svc.tags)
  }

  /** The registry without the entries at one ID that some tags stand for. */
  function WithoutTags(reg: Registry, id: string, tags: seq<string>): Registry {
    map k | k in reg && !(IdOf(k, reg[k]) == id && AliasTag(k.alias) in tags) :: reg[k]
  }

  /** The registry without the entries at some IDs. */
  function WithoutIds(reg: Registry, ids: seq<string>): Registry {
    map k | k in reg && IdOf(k, reg[k]) !in ids :: reg[k]
  }

  /** One tag further: either it is no alias and nothing changes, or it stands for exactly one entry. */
  lemma NextTag(reg: Registry, id: string, svc: Service, j: nat)
    requires TagsCover(reg, id, svc) && j < |svc.tags|
    ensures
      var before, after := WithoutTags(reg, id, svc.tags[..j]), WithoutTags(reg, id, svc.tags[..j + 1]);
      if IsAliasTag(svc.tags[j])
      then var k := Key(svc.kind, AliasOf(svc.tags[j])); k in before && after == before - {k} && |after| + 1 == |before|
      else after == before
  {
    hide ServiceID, AliasTag, IsAliasTag, AliasOf;
    var tag := svc.tags[j];
    var before, after := WithoutTags(reg, id, svc.tags[..j]), WithoutTags(reg, id, svc.tags[..j + 1]);
    assert svc.tags[..j + 1] == svc.tags[..j] + [tag];
    if IsAliasTag(tag) {
      var k := Key(svc.kind, AliasOf(tag));
      TagOfAlias(tag);
      assert Accounted(reg, id, svc, tag) && tag !in svc.tags[..j];
      forall k' | k' in reg && IdOf(k', reg[k']) == id && AliasTag(k'.alias) == tag
        ensures k' == k
      {
        AliasTagInverse(k'.alias);
      }
      assert after == before - {k};
    } else {
      forall k | k in reg
        ensures AliasTag(k.alias) != tag
      {
        AliasTagInverse(k.alias);
      }
    }
  }

  lemma AllTags(reg: Registry, id: string, svc: Service)
    requires TagsCover(reg, id, svc)
    ensures WithoutTags(reg, id, svc.tags[..|svc.tags|]) == WithoutIds(reg, [id])
    ensures WithoutTags(reg, id, svc.tags[..0]) == reg
  {
    hide ServiceID, AliasTag, IsAliasTag, AliasOf;
    assert svc.tags[..|svc.tags|] == svc.tags;
  }

  /** The first tags are dealt with: their entries are gone and counted, the others are there. */
  ghost predicate Remaining(w: World, client: string, parent: string, reg: Registry, id: string, svc: Service, j: nat,
                            before: nat, total: nat)
    requires j <= |svc.tags|
  {
    var left := WithoutTags(reg, id, svc.tags[..j]);
    TagsCover(reg, id, svc) && total + |left| == before + |reg| && Represents(w, client, parent, left)
  }

  /** The same whatever failed: what comes first is counted, and gone unless it was missed. */
  ghost predicate Cleaning(whole: Registry, origin: World, w: World, client: string, parent: string, reg: Registry,
                           id: string, svc: Service, j: nat, before: nat, total: nat, missed: set<Key>)
    requires j <= |svc.tags|
  {
    var left := WithoutTags(reg, id, svc.tags[..j]);
    && Represents(origin, client, parent, whole) && TagsCover(reg, id, svc) && reg.Keys <= whole.Keys
    && total + |left| == before + |reg| && missed <= whole.Keys && Swept(whole, origin, w, client, left.Keys, missed)
  }

  lemma CleaningPassesOver(whole: Registry, origin: World, w: World, client: string, parent: string, reg: Registry,
                           id: string, svc: Service, j: nat, before: nat, total: nat, missed: set<Key>)
    requires j < |svc.tags| && !IsAliasTag(svc.tags[j])
    requires Cleaning(whole, origin, w, client, parent, reg, id, svc, j, before, total, missed)
    ensures Cleaning(whole, origin, w, client, parent, reg, id, svc, j + 1, before, total, missed)
  {
    hide Represents, TagsCover, WithoutTags, IsAliasTag, Swept;
    NextTag(reg, id, svc, j);
  }

  lemma CleaningGoesOn(whole: Registry, origin: World, was: World, now: World, config: Config, parent: string,
                       reg: Registry, id: string, svc: Service, j: nat, before: nat, total: nat, missed: set<Key>,
                       calm: bool)
    requires j < |svc.tags| && IsAliasTag(svc.tags[j])
    requires Cleaning(whole, origin, was, config.clientName, parent, reg, id, svc, j, before, total, missed)
    requires InSwitch(svc.kind) ==> TriedOne(svc.kind, AliasOf(svc.tags[j]), was, now, config, calm)
    ensures
      var k := Key(svc.kind, AliasOf(svc.tags[j]));
      Cleaning(whole, origin, now, config.clientName, parent, reg, id, svc, j + 1, before, total + 1,
               if calm then missed else missed + {k})
  {
    hide Represents, TagsCover, WithoutTags, IsAliasTag, AliasOf, Swept, Tries, InSwitch, Command.Valid, Named;
    NextTag(reg, id, svc, j);
    var k := Key(svc.kind, AliasOf(svc.tags[j]));
    var before', after := WithoutTags(reg, id, svc.tags[..j]), WithoutTags(reg, id, svc.tags[..j + 1]);
    WithoutTagsFewer(reg, id, svc.tags[..j]);
    KnownKey(origin, config.clientName, parent, whole, k);
    var c: Command :| c.Valid() && !c.Adds() && Named(c) == k && Tries(c, was, now, config, calm);
    OneMoreSwept(c, origin, was, now, config, parent, whole, before'.Keys, missed, calm);
    assert after.Keys == before'.Keys - {k};
  }

  lemma WithoutTagsFewer(reg: Registry, id: string, tags: seq<string>)
    ensures WithoutTags(reg, id, tags).Keys <= reg.Keys
  {
    hide IdOf, AliasTag;
  }

  lemma CleaningEnds(whole: Registry, origin: World, w: World, client: string, parent: string, reg: Registry,
                     id: string, svc: Service, before: nat, total: nat, missed: set<Key>)
    ensures CleanedSoFar(whole, origin, w, client, parent, reg, missed) && TagsCover(reg, id, svc) ==>
      Cleaning(whole, origin, w, client, parent, reg, id, svc, 0, before, before, missed)
    ensures Cleaning(whole, origin, w, client, parent, reg, id, svc, |svc.tags|, before, total, missed) ==>
      CleanedSoFar(whole, origin, w, client, parent, WithoutIds(reg, [id]), missed) &&
      total + |WithoutIds(reg, [id])| == before + |reg|
  {
    hide Represents, TagsCover, WithoutTags, WithoutIds, Swept;
    if TagsCover(reg, id, svc) {
      AllTags(reg, id, svc);
      WithoutTagsFewer(reg, id, svc.tags[..|svc.tags|]);
    }
  }

  /** Of the whole registry these entries are still to come, and nothing else is left but what was missed. */
  ghost predicate CleanedSoFar(whole: Registry, origin: World, w: World, client: string, parent: string,
                               left: Registry, missed: set<Key>)
  {
    && Represents(origin, client, parent, whole) && left.Keys <= whole.Keys && missed <= whole.Keys
    && Swept(whole, origin, w, client, left.Keys, missed)
  }

  lemma TagPassedOver(w: World, client: string, parent: string, reg: Registry, id: string, svc: Service, j: nat,
                      before: nat, total: nat)
    requires j < |svc.tags| && !IsAliasTag(svc.tags[j]) && Remaining(w, client, parent, reg, id, svc, j, before, total)
    ensures Remaining(w, client, parent, reg, id, svc, j + 1, before, total)
  {
    hide Represents, TagsCover, WithoutTags, IsAliasTag;
    NextTag(reg, id, svc, j);
  }

  lemma EntryOfTag(w: World, client: string, parent: string, reg: Registry, id: string, svc: Service, j: nat,
                   before: nat, total: nat)
    requires j < |svc.tags| && IsAliasTag(svc.tags[j]) && Remaining(w, client, parent, reg, id, svc, j, before, total)
    ensures
      var k, left := Key(svc.kind, AliasOf(svc.tags[j])), WithoutTags(reg, id, svc.tags[..j]);
      Represents(w, client, parent, left) && k in left
  {
    hide Represents, TagsCover, WithoutTags, IsAliasTag, AliasOf;
    NextTag(reg, id, svc, j);
  }

  lemma TagRemoved(was: World, now: World, client: string, parent: string, reg: Registry, id: string, svc: Service,
                   j: nat, before: nat, total: nat)
    requires j < |svc.tags| && IsAliasTag(svc.tags[j]) && Remaining(was, client, parent, reg, id, svc, j, before, total)
    requires Represents(now, client, parent,
                        WithoutTags(reg, id, svc.tags[..j]) - {Key(svc.kind, AliasOf(svc.tags[j]))})
    ensures Remaining(now, client, parent, reg, id, svc, j + 1, before, total + 1)
  {
    hide Represents, TagsCover, WithoutTags, IsAliasTag, AliasOf;
    NextTag(reg, id, svc, j);
  }

  lemma TagsDone(w: World, client: string, parent: string, reg: Registry, id: string, svc: Service, before: nat,
                 total: nat)
    requires TagsCover(reg, id, svc)
    ensures Represents(w, client, parent, reg) ==> Remaining(w, client, parent, reg, id, svc, 0, before, before)
    ensures Remaining(w, client, parent, reg, id, svc, |svc.tags|, before, total) ==>
      total + |WithoutIds(reg, [id])| == before + |reg| && Represents(w, client, parent, WithoutIds(reg, [id]))
  {
    hide Represents, TagsCover, WithoutTags, WithoutIds;
    AllTags(reg, id, svc);
  }

  /** One round of the inner loop: the entry of one alias tag. */
  method RemoveTagged(a: Admin, id: string, svc: Service, j: nat, ghost before: nat, ghost total: nat,
                      ghost reg: Registry, ghost origin: World, ghost tries: nat, ghost whole: Registry,
                      ghost missed: set<Key>)
    returns (r: Outcome, ghost missed': set<Key>)
    requires j < |svc.tags| && IsAliasTag(svc.tags[j])
    modifies a`serviceName, a`catalog, a`kv, a`units, a`instances, a`faults
    ensures a.faults >= old(a.faults)
    ensures |missed'| <= |missed| + (a.faults - old(a.faults))
    ensures old(Remaining(a.State(), a.config.clientName, a.agentParent, reg, id, svc, j, before, total)) ==>
      && (r.Ok? <==> a.faults == old(a.faults))
      && (r.Ok? ==>
            Remaining(a.State(), a.config.clientName, a.agentParent, reg, id, svc, j + 1, before, total + 1))
    ensures
      old(Cleaning(whole, origin, a.State(), a.config.clientName, a.agentParent, reg, id, svc, j, before, total,
                   missed)) ==>
        Cleaning(whole, origin, a.State(), a.config.clientName, a.agentParent, reg, id, svc, j + 1, before, total + 1,
                 missed')
    ensures Continues(origin, old(a.State()), a.State(), tries, a.config, a.agentParent, r.Ok?)
  {
    hide Represents, TagsCover, Remaining, WithoutTags, IsAliasTag, AliasOf, Cleaning, TriedOne, InSwitch, Continues;
    ghost var was, client, parent := a.State(), a.config.clientName, a.agentParent;
    if Remaining(was, client, parent, reg, id, svc, j, before, total) {
      EntryOfTag(was, client, parent, reg, id, svc, j, before, total);
    }
    a.serviceName := AliasOf(svc.tags[j]);
    r := RemoveOne(a, svc.kind, WithoutTags(reg, id, svc.tags[..j]), origin, tries);
    if Remaining(was, client, parent, reg, id, svc, j, before, total) && r.Ok? {
      TagRemoved(was, a.State(), client, parent, reg, id, svc, j, before, total);
    }
    ghost var calm := a.faults == old(a.faults);
    if Cleaning(whole, origin, was, client, parent, reg, id, svc, j, before, total, missed) {
      CleaningGoesOn(whole, origin, was, a.State(), a.config, parent, reg, id, svc, j, before, total, missed, calm);
    }
    missed' := if calm then missed else missed + {Key(svc.kind, AliasOf(svc.tags[j]))};
  }

  /** The inner loop: every alias of one snapshot service. */
  method RemoveService(a: Admin, id: string, svc: Service, ignoreErrors: bool, start: nat, ghost before: nat,
                       ghost reg: Registry, ghost origin: World, ghost tried: nat, ghost whole: Registry,
                       ghost gone: set<Key>)
    returns (count: nat, r: Outcome, ghost total: nat, ghost tries: nat, ghost missed: set<Key>)
    requires start == Uint16(before)
    modifies a`serviceName, a`catalog, a`kv, a`units, a`instances, a`faults
    ensures a.faults >= old(a.faults)
    ensures ignoreErrors ==> r.Ok?
    ensures count == Uint16(total)
    ensures
      old(Represents(a.State(), a.config.clientName, a.agentParent, reg)) && TagsCover(reg, id, svc) ==>
        && (a.faults == old(a.faults) ==>
              && r.Ok? && total + |WithoutIds(reg, [id])| == before + |reg|
              && Represents(a.State(), a.config.clientName, a.agentParent, WithoutIds(reg, [id])))
        && (!ignoreErrors && r.Ok? ==> a.faults == old(a.faults))
    ensures |missed| <= |gone| + (a.faults - old(a.faults))
    ensures
      old(CleanedSoFar(whole, origin, a.State(), a.config.clientName, a.agentParent, reg, gone)) &&
      TagsCover(reg, id, svc) && r.Ok? ==>
        && total + |WithoutIds(reg, [id])| == before + |reg|
        && CleanedSoFar(whole, origin, a.State(), a.config.clientName, a.agentParent, WithoutIds(reg, [id]), missed)
    ensures Chain(origin, old(a.State()), tried, a.config, a.agentParent) ==>
      Chain(origin, a.State(), tries, a.config, a.agentParent)
    ensures Removals(origin, old(a.State()), tried, a.config, a.agentParent) && !ignoreErrors ==>
      if r.Ok? then Removals(origin, a.State(), tries, a.config, a.agentParent)
      else Sweep(origin, a.State(), a.config, a.agentParent)
  {
    hide Represents, TagsCover, Remaining, WithoutTags, WithoutIds, IsAliasTag, AliasOf, Chain, Removals, Sweep,
      Cleaning, CleanedSoFar, TriedOne, InSwitch;
    ghost var client, parent := a.config.clientName, a.agentParent;
    ghost var good := Represents(a.State(), client, parent, reg) && TagsCover(reg, id, svc);
    ghost var clean := CleanedSoFar(whole, origin, a.State(), client, parent, reg, gone) && TagsCover(reg, id, svc);
    count, total, tries, missed := start, before, tried, gone;
    CleaningEnds(whole, origin, a.State(), client, parent, reg, id, svc, before, total, missed);
    if good {
      TagsDone(a.State(), client, parent, reg, id, svc, before, total);
    }
    for j := 0 to |svc.tags|
      invariant a.faults >= old(a.faults)
      invariant count == Uint16(total)
      invariant good && a.faults == old(a.faults) ==>
        Remaining(a.State(), client, parent, reg, id, svc, j, before, total)
      invariant good && !ignoreErrors ==> a.faults == old(a.faults)
      invariant |missed| <= |gone| + (a.faults - old(a.faults))
      invariant clean ==>
        Cleaning(whole, origin, a.State(), client, parent, reg, id, svc, j, before, total, missed)
      invariant Chain(origin, old(a.State()), tried, a.config, parent) ==>
        Chain(origin, a.State(), tries, a.config, parent)
      invariant Removals(origin, old(a.State()), tried, a.config, parent) && !ignoreErrors ==>
        Removals(origin, a.State(), tries, a.config, parent)
    {
      if !IsAliasTag(svc.tags[j]) {
        if good && a.faults == old(a.faults) {
          TagPassedOver(a.State(), client, parent, reg, id, svc, j, before, total);
        }
        if clean {
          CleaningPassesOver(whole, origin, a.State(), client, parent, reg, id, svc, j, before, total, missed);
        }
        continue;
      }
      r, missed := RemoveTagged(a, id, svc, j, before, total, reg, origin, tries, whole, missed);
      tries := tries + 1;
      if r.Err? && !ignoreErrors { return; }
      count, total := Tick(count, total);
    }
    r := Ok;
    CleaningEnds(whole, origin, a.State(), client, parent, reg, id, svc, before, total, missed);
    if good {
      TagsDone(a.State(), client, parent, reg, id, svc, before, total);
    }
  }

  /** A snapshot service covers its entries for as long as they are still there. */
  lemma SnapshotCovers(w: World, client: string, parent: string, reg: Registry, ids: seq<string>, id: string)
    requires Represents(w, client, parent, reg) && id in w.Services(client) && id !in ids
    ensures TagsCover(WithoutIds(reg, ids), id, w.Services(client)[id])
  {
    hide Represents, ServiceID, AliasTag, IsAliasTag, AliasOf, UnitsAgree, KeysAgree, InstancesAgree, ValidRegistry;
    Parts(w, client, parent, reg);
    var services, svc, left := w.Services(client), w.Services(client)[id], WithoutIds(reg, ids);
    assert Backed(reg, id, svc);
    forall t | t in svc.tags && IsAliasTag(t)
      ensures Accounted(left, id, svc, t)
    {
      assert Accounted(reg, id, svc, t);
    }
    forall k | k in left && IdOf(k, left[k]) == id
      ensures k.kind == svc.kind && AliasTag(k.alias) in svc.tags
    {
      assert Served(services, k, reg[k]);
      CarriesTag(svc, k, reg[k]);
    }
  }

  lemma NextId(reg: Registry, ids: seq<string>, i: nat)
    requires i < |ids|
    ensures WithoutIds(WithoutIds(reg, ids[..i]), [ids[i]]) == WithoutIds(reg, ids[..i + 1])
  {
    hide IdOf;
    assert ids[..i + 1] == ids[..i] + [ids[i]];
  }

  lemma AllIds(w: World, client: string, parent: string, reg: Registry, ids: seq<string>)
    requires Represents(w, client, parent, reg) && forall id | id in w.Services(client) :: id in ids
    ensures WithoutIds(reg, ids[..|ids|]) == map[] && WithoutIds(reg, ids[..0]) == reg
  {
    hide Represents, IdOf;
    assert ids[..|ids|] == ids;
    forall k | k in reg
      ensures IdOf(k, reg[k]) in ids
    {
      ServiceOfEntry(w, client, parent, reg, k);
    }
  }

  /** An empty registry is an empty installation. */
  lemma NothingLeft(w: World, client: string, parent: string)
    requires Represents(w, client, parent, map[])
    ensures w.Services(client) == map[] && w.units == map[]
    ensures forall key | key in w.kv :: !(client + "/" <= key)
    ensures forall u :: !Live(w.instances, u, parent)
  {
    hide ServiceID, UnitName, IsSourceType;
    forall id | id in w.Services(client)
      ensures false
    {
      var k := IdHasEntry(w.Services(client), map[], id);
    }
    forall u | u in w.units
      ensures false
    {
      var k := UnitHasEntry(w, client, parent, map[], u);
    }
    forall u | Live(w.instances, u, parent)
      ensures false
    {
      LiveIsExpected(w, client, parent, map[], u);
    }
  }

  /** The outer loop, over the snapshot of the services. */
  method RemoveServices(a: Admin, services: map<string, Service>, ignoreErrors: bool, ghost reg: Registry)
    returns (count: nat, r: Outcome, ghost tries: nat, ghost missed: set<Key>)
    modifies a`serviceName, a`catalog, a`kv, a`units, a`instances, a`faults
    ensures a.faults >= old(a.faults)
    ensures ignoreErrors ==> r.Ok?
    ensures count < UINT16
    ensures Chain(old(a.State()), a.State(), tries, a.config, a.agentParent)
    ensures
      var good := old(Represents(a.State(), a.config.clientName, a.agentParent, reg)) && services == old(a.Services());
      good && !ignoreErrors && r.Ok? ==> a.faults == old(a.faults)
    ensures !ignoreErrors ==> Sweep(old(a.State()), a.State(), a.config, a.agentParent)
    ensures
      old(Represents(a.State(), a.config.clientName, a.agentParent, reg)) && services == old(a.Services()) &&
      a.faults == old(a.faults) ==>
        r.Ok? && count == Uint16(|reg|) && Represents(a.State(), a.config.clientName, a.agentParent, map[])
    ensures |missed| <= a.faults - old(a.faults)
    ensures
      var good := old(Represents(a.State(), a.config.clientName, a.agentParent, reg)) && services == old(a.Services());
      good && r.Ok? ==>
        && count == Uint16(|reg|)
        && CleanedSoFar(reg, old(a.State()), a.State(), a.config.clientName, a.agentParent, map[], missed)
  {
    hide Represents, WithoutIds, TagsCover, Chain, Removals, Sweep, CleanedSoFar;
    ghost var was, client, parent := a.State(), a.config.clientName, a.agentParent;
    ghost var good := Represents(was, client, parent, reg) && services == was.Services(client);
    var ids := Listing(services.Keys);
    count, tries, missed := 0, 0, {};
    ghost var total: nat := 0;
    ChainStart(was, a.config, parent);
    NoRemovals(was, a.config, parent);
    if good {
      AllIds(was, client, parent, reg, ids);
      NothingCleaned(was, client, parent, reg);
    }
    for i := 0 to |ids|
      invariant a.faults >= old(a.faults)
      invariant count == Uint16(total)
      invariant good && a.faults == old(a.faults) ==>
        var left := WithoutIds(reg, ids[..i]);
        total + |left| == |reg| && Represents(a.State(), client, parent, left)
      invariant good && !ignoreErrors ==> a.faults == old(a.faults)
      invariant |missed| <= a.faults - old(a.faults)
      invariant good ==>
        var left := WithoutIds(reg, ids[..i]);
        total + |left| == |reg| && CleanedSoFar(reg, was, a.State(), client, parent, left, missed)
      invariant Chain(was, a.State(), tries, a.config, parent)
      invariant !ignoreErrors ==> Removals(was, a.State(), tries, a.config, parent)
    {
      ghost var left := WithoutIds(reg, ids[..i]);
      assert ids[i] in ids && ids[i] !in ids[..i];
      if good {
        SnapshotCovers(was, client, parent, reg, ids[..i], ids[i]);
        NextId(reg, ids, i);
      }
      count, r, total, tries, missed :=
        RemoveService(a, ids[i], services[ids[i]], ignoreErrors, count, total, left, was, tries, reg, missed);
      if r.Err? { return; }
    }
    r := Ok;
    if !ignoreErrors {
      AllRemoved(was, a.State(), tries, a.config, parent);
    }
  }

  lemma NothingCleaned(w: World, client: string, parent: string, reg: Registry)
    requires Represents(w, client, parent, reg)
    ensures CleanedSoFar(reg, w, w, client, parent, reg, {})
  {
    hide Represents, Swept;
    SweptAtFirst(w, client, parent, reg, {});
    assert reg.Keys + {} == reg.Keys;
  }

  lemma FewAreLeft(reg: Registry, origin: World, w: World, client: string, parent: string, missed: set<Key>, n: nat)
    requires CleanedSoFar(reg, origin, w, client, parent, map[], missed) && |missed| <= n
    ensures LeavesAtMost(w.Services(client), reg, reg.Keys, n)
  {
    hide Represents, Swept, CatalogAgrees, ValidRegistry;
    var none: Registry := map[];
    assert none.Keys == {} == reg.Keys - reg.Keys;
    SweptPart(origin, w, client, reg, reg.Keys, missed, n);
  }

  lemma NoRemovals(w: World, config: Config, parent: string)
    ensures Removals(w, w, 0, config, parent)
  {
  }

  lemma AllRemoved(was: World, now: World, n: nat, config: Config, parent: string)
    requires Removals(was, now, n, config, parent)
    ensures Sweep(was, now, config, parent)
  {
    hide Removals;
    OneMoreRemoval(was, now, now, n, config, parent, false);
  }

  /**
   * Without failures and from any represented state, everything of this client goes, the generated password
   * is cleared, and the count is the number of (kind, alias) pairs modulo 2^16. An unreadable or empty
   * catalog counts as nothing to do: then nothing changes, not even the password. Where the first error ends
   * the command, it adds at most one name to what disagreed. Where it goes on after errors, all pairs are counted,
   * and no more of them stay in the catalog than calls have failed.
   */
  method RemoveAllMonitoring(a: Admin, ignoreErrors: bool, ghost reg: Registry)
    returns (count: nat, r: Outcome, ghost readable: bool, ghost tries: nat)
    modifies a`serviceName, a`catalog, a`kv, a`units, a`instances, a`config, a`file, a`faults
    ensures a.faults >= old(a.faults) && (a.faults == old(a.faults) ==> readable)
    ensures ignoreErrors ==> r.Ok?
    ensures count < UINT16
    ensures
      old(Represents(a.State(), a.config.clientName, a.agentParent, reg)) && a.faults == old(a.faults) ==>
        && r.Ok? && count == Uint16(|reg|)
        && Represents(a.State(), a.config.clientName, a.agentParent, map[])
        && (reg != map[] ==> a.config.mySQLPassword == "" && a.file == a.config)
    ensures
      old(Represents(a.State(), a.config.clientName, a.agentParent, reg)) && readable && r.Ok? ==>
        && count == Uint16(|reg|)
        && LeavesAtMost(a.Services(), reg, reg.Keys, a.faults - old(a.faults))
    ensures a.config == old(a.config) || a.config == old(a.config).(mySQLPassword := "")
    ensures
      !readable || old(a.Services()) == map[] ==>
        count == 0 && r.Ok? && a.State() == old(a.State()) && a.config == old(a.config) && a.file == old(a.file)
    ensures Chain(old(a.State()), a.State(), tries, old(a.config), a.agentParent)
    ensures !ignoreErrors ==> Sweep(old(a.State()), a.State(), old(a.config), a.agentParent)
    ensures old(WellNamed(a.Services())) && !ignoreErrors ==>
      && WellNamed(a.Services())
      && |Disagreement(a.State(), a.config.clientName)| <= |old(Disagreement(a.State(), a.config.clientName))| + 1
    ensures FileKept(old(a.file), old(a.config), a.file)
  {
    hide Represents, Chain, Sweep, WellNamed, Disagreement, LeavesAtMost, CleanedSoFar;
    ghost var was, config := a.State(), a.config;
    tries := 0;
    ChainStart(a.State(), a.config, a.agentParent);
    NothingSwept(a.State(), a.config, a.agentParent);
    var failed, node := a.ReadNode(a.config.clientName);
    readable := !failed;
    if failed || node.None? || |node.value.services| == 0 {
      if Represents(a.State(), a.config.clientName, a.agentParent, reg) && !failed {
        assert a.Services() == map[];
        EmptyCatalog(a.State(), a.config.clientName, a.agentParent, reg);
        NothingIsLeft(a.State(), a.config.clientName, a.agentParent, reg);
      }
      return 0, Ok, readable, 0;
    }
    ghost var missed;
    count, r, tries, missed := RemoveServices(a, node.value.services, ignoreErrors, reg);
    if WellNamed(was.Services(config.clientName)) && !ignoreErrors {
      SweepAddsOne(was, a.State(), config, a.agentParent);
    }
    if r.Err? { return; }
    ForgetPassword(a);
    if Represents(was, config.clientName, a.agentParent, reg) {
      FewAreLeft(reg, was, a.State(), config.clientName, a.agentParent, missed, a.faults - old(a.faults));
    }
  }

  /** The generated password goes, from the file as well unless that cannot be written. */
  method ForgetPassword(a: Admin)
    modifies a`config, a`file, a`faults
    ensures a.faults >= old(a.faults)
    ensures a.config == old(a.config).(mySQLPassword := "")
    ensures a.file == if a.faults == old(a.faults) then a.config else old(a.file)
  {
    a.config := a.config.(mySQLPassword := "");
    var failed := a.WriteConfig();
  }

  lemma NothingIsLeft(w: World, client: string, parent: string, reg: Registry)
    requires Represents(w, client, parent, reg) && reg == map[]
    ensures LeavesAtMost(w.Services(client), reg, reg.Keys, 0)
  {
    hide Represents, CatalogAgrees, ValidRegistry;
    Parts(w, client, parent, reg);
  }

  lemma NothingSwept(w: World, config: Config, parent: string)
    ensures Sweep(w, w, config, parent)
  {
    NoRemovals(w, config, parent);
    AllRemoved(w, w, 0, config, parent);
  }

  lemma EmptyCatalog(w: World, client: string, parent: string, reg: Registry)
    requires Represents(w, client, parent, reg) && w.Services(client) == map[]
    ensures reg == map[]
  {
    hide Represents;
    if k :| k in reg {
      ServiceOfEntry(w, client, parent, reg, k);
    }
  }

  // ---------- Uninstall ----------

  /** Exactly the local services from a position on are still there. */
  predicate StillThere(units: map<string, bool>, locals: seq<string>, i: nat) {
    i <= |locals| && units.Keys == set s | s in locals[i..]
  }

  lemma AllThere(units: map<string, bool>, locals: seq<string>)
    requires forall s :: s in locals <==> s in units.Keys
    ensures StillThere(units, locals, 0)
  {
    assert locals[0..] == locals;
  }

  lemma OneFewer(units: map<string, bool>, locals: seq<string>, i: nat)
    requires i < |locals| && forall i, j | 0 <= i < j < |locals| :: locals[i] != locals[j]
    requires StillThere(units, locals, i)
    ensures locals[i] in units && StillThere(units - {locals[i]}, locals, i + 1)
  {
    assert locals[i..] == [locals[i]] + locals[i + 1..];
  }

  lemma NoneThere(units: map<string, bool>, locals: seq<string>)
    requires StillThere(units, locals, |locals|)
    ensures units == map[]
  {
    assert units.Keys == {};
  }

  /** What has been counted since the start is what has gone. */
  predicate Balanced(start: nat, was: map<string, bool>, now: map<string, bool>, total: nat) {
    now.Keys <= was.Keys && total + |now.Keys| == start + |was.Keys|
  }

  lemma NoneGone(start: nat, units: map<string, bool>)
    ensures Balanced(start, units, units, start)
  {
  }

  lemma OneGone(start: nat, was: map<string, bool>, before: map<string, bool>, name: string, total: nat)
    requires Balanced(start, was, before, total) && name in before
    ensures Balanced(start, was, before - {name}, total + 1)
  {
    assert (before - {name}).Keys == before.Keys - {name};
  }

  lemma AllGone(start: nat, was: map<string, bool>, now: map<string, bool>, total: nat)
    requires Balanced(start, was, now, total) && now.Keys == {}
    ensures now == map[] && total == start + |was|
  {
    assert |was.Keys| == |was|;
  }

  lemma SameLeft(start: nat, was: map<string, bool>, before: map<string, bool>, name: string, total: nat)
    requires Balanced(start, was, before, total)
    ensures name in before ==> Balanced(start, was, before[name := false], total)
  {
    if name in before {
      assert before[name := false].Keys == before.Keys;
    }
  }

  /** The loop over the local services; a service that cannot be uninstalled is not counted. */
  method UninstallLocals(a: Admin, start: nat) returns (count: nat, ghost total: nat)
    requires start < UINT16
    modifies a`units, a`faults
    ensures a.faults >= old(a.faults) && count < UINT16
    ensures count == Uint16(total) && Balanced(start, old(a.units), a.units, total)
    ensures a.faults == old(a.faults) ==> a.units == map[]
  {
    hide StillThere, Balanced;
    SmallCount(start);
    count, total := start, start;
    ghost var was := a.units;
    var locals := Listing(a.units.Keys);
    AllThere(was, locals);
    NoneGone(start, was);
    for i := 0 to |locals|
      invariant a.faults >= old(a.faults) && count == Uint16(total)
      invariant Balanced(start, was, a.units, total)
      invariant a.faults == old(a.faults) ==> StillThere(a.units, locals, i)
    {
      ghost var units := a.units;
      if a.faults == old(a.faults) {
        OneFewer(units, locals, i);
      }
      var r;
      ghost var answered, stopped;
      r, answered, stopped := UninstallService(a, locals[i]);
      if r.Ok? {
        OneGone(start, was, units, locals[i], total);
        count, total := Tick(count, total);
      } else {
        SameLeft(start, was, units, locals[i], total);
      }
    }
    if a.faults == old(a.faults) {
      NoneThere(a.units, locals);
    }
  }

  /**
   * Best effort: whatever happened to the remote side, the local services all go if none of the final
   * uninstalls fails; with the server reachable and no failure at all, the remote side is empty as well. If the
   * catalog could be read, it has no more left than calls to the server have failed.
   */
  method Uninstall(a: Admin, configured: bool, reachable: bool, ghost reg: Registry)
    returns (count: nat, ghost remote: nat, ghost readable: bool)
    modifies a`serviceName, a`catalog, a`kv, a`units, a`instances, a`config, a`file, a`faults
    ensures old(a.faults) <= remote <= a.faults
    ensures remote == a.faults ==> a.units == map[]
    ensures FileKept(old(a.file), old(a.config), a.file)
    ensures
      old(Represents(a.State(), a.config.clientName, a.agentParent, reg)) && configured && reachable &&
      a.faults == old(a.faults) ==>
        Represents(a.State(), a.config.clientName, a.agentParent, map[]) && count == Uint16(|reg|)
    ensures a.faults == old(a.faults) ==> readable
    ensures
      old(Represents(a.State(), a.config.clientName, a.agentParent, reg)) && configured && reachable && readable ==>
        LeavesAtMost(a.Services(), reg, reg.Keys, remote - old(a.faults))
    ensures !(configured && reachable) ==>
      a.State() == old(a.State()).(units := a.units) && (a.faults == remote ==> count == Uint16(|old(a.units)|))
  {
    hide Represents, LeavesAtMost, Chain, Sweep, WellNamed, Disagreement, Balanced, Uint16;
    count, readable := 0, true;
    if configured && reachable {
      var r;
      ghost var tries;
      count, r, readable, tries := RemoveAllMonitoring(a, true, reg);
    }
    remote := a.faults;
    if Represents(a.State(), a.config.clientName, a.agentParent, map[]) {
      NothingLeft(a.State(), a.config.clientName, a.agentParent);
    }
    SmallCount(count);
    ghost var total, before, units := 0, count, a.units;
    count, total := UninstallLocals(a, count);
    if a.units == map[] {
      AllGone(before, units, a.units, total);
    }
  }
}
