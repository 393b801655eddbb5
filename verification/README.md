# What pmm-admin keeps: the monitoring registry

`pmm-admin` puts a host and its databases under monitoring. What is monitored is spread over four stores: the
Consul catalog (node, service ID, kind, tags, port), the Consul key-value tree (`client/serviceID/[alias/]key`),
the local system services (`pmm-<kind>-<port>`) and the instances of Query Analytics (QAN). Every command is a
sequence of separate calls to these stores; each may fail, and there are no transactions. A detector compares
catalog and local services, a gate refuses commands while they disagree, and a repair removes what disagrees.

This project models the stores, and the files in which the local agent keeps its own record of each instance, as the
fields of one object, `Monitor.Admin`, and each command as a method whose calls fail nondeterministically and are
counted in `faults`. A failed call leaves its store unchanged. Maps and sets come back in an arbitrary order
(`Monitor.Listing`), as Go's maps and Consul's answers do.

How the parts fit together:

- `Strings`, `Stores`, `Registry`: names and keys, the stores as values, and `Represents`, which says when the
  four stores hold exactly one abstract registry, a map from (kind, alias) to what was registered.
- `Monitor`, `Services`, `Lookup`, `Metrics`, `Qan`, `Queries`: the commands that add and remove, call by call,
  with every partial outcome in their contracts.
- `Transitions`, `QueryTransitions`, `Refinement`, `Runs`, `Admission`, `Commands`: a successful command is one
  insertion or deletion on the registry, so every run keeps the stores in agreement; which commands succeed is told
  by the registry; the methods are shown to be such steps.
- `Repair`, `Failures`, `Recovery`, `Stuck`: detector, gate and repair from arbitrary states; how many names can
  disagree over runs of invocations with failures; what repair restores, what it cannot, and the state of a query
  source that no adding, removing or repairing gets out of.
- `LostUnits`: what a repair makes of an installation that has lost local services, on all four stores.
- `GatedRuns`, `StoredUuids`, `RunRecovery`: what runs of gated commands that fail anywhere keep, and what a complete
  repair makes of them in the end.
- `DataSources`: the data source of a query source, sanitised on the server and real in the agent's file, over runs
  and under a change of the client name.
- `Reuse`: instances of removed sources are revived, so that a source never has two.
- `Sweeps`: removals that go on after failures, and how much they can leave.
- `RemoveAll`, `StartStop`, `ListView`, `ListRefinement`: removing everything, switching services, and the list as
  a view of the registry.
- `Rename`, `RenameRefinement`, `SetConfig`: the configuration and the change of the client name.
- `Password`, `Errors`, `External`, `Sanitize`, `MysqlExporter`: the loops over buffers and lists, against exact
  specifications.

What the code does that its messages and comments do not say, each stated by a member below:

- If the catalog cannot be read, the detector reports every local service as orphaned and repair uninstalls them all
  (`Repair.RepairInstallation`); removing all monitoring takes the same answer for "nothing to do"
  (`RemoveAll.RemoveAllMonitoring`).
- If AddQueries fails between registering the alias and writing its UUID key, or RemoveQueries between deleting
  the keys and changing the catalog, the alias is stuck: the detector sees no problem, adding is a duplicate,
  removing cannot find the key, and no add or remove command and no repair that reads the catalog changes that
  (`Stuck.StuckForever`). Uninstalling the local services and then repairing does (`Stuck.UninstallGetsOut`).
- If AddQueries fails before the catalog, it can leave a live instance that no source has, and repair does not look
  for it (`Stuck.AddQueriesThenRepair`).
- A RemoveMetrics that fails after deregistering leaves the exporter's keys behind (`Recovery.RemoveMetricsThenRepair`);
  no command and no repair touches them for as long as no service has the same ID (`RunRecovery.LeftoversStay`).
- A repair deletes the instance of every UUID it finds below a missing service; one that an exporter stores there
  under such a name would be taken for a source's, monitored or not (`LostUnits.RepairAfterLoss`).
- The live instance of a stuck AddQueries outlasts the way out of that state (`Stuck.StuckInstanceStays`).
- AddQueries gives the server only a sanitised data source, but a change of the client name puts the record of the
  agent's file there, real data source and password included: for the MySQL source that has the client's name, which
  is the name a source gets by default (`DataSources.RenamePublishes`, `DataSources.DefaultAliasPublishes`).
- A rename tests tags by equality but rewrites keys by substring replacement, so a client named like a part of a
  service ID loses its keys (`RenameRefinement.ClientNamedAfterExporter`); it renames MySQL instances only
  (`RenameRefinement.MongoIsLeftBehind`); and it deregisters the old node even after errors (`Rename.NodeIsDropped`).
- A forced rename moves the services before name and addresses are checked. If the name does not match the
  pattern, an address is to change, the addresses are unknown or not local, or the agent's services cannot be
  restarted, it then fails with the old name still in the file (`SetConfig.SetConfig`).
- The agent's file learns a new server before the configuration file does; if its services then cannot be restarted,
  the command fails and only the agent knows the new server (`SetConfig.SyncAgent`).
- Adding an external service to an existing job drops the job's targets (`External.AddExternalService`).
- A table count is truncated to 16 bits before it is compared with its limit (`MysqlExporter.WrappedCount`).
- The composite remove commands go on after a failure, so that one invocation can leave three names in
  disagreement (`Failures.RemoveMySQLCanLeaveThree`).
- Stopping everything passes over a service whose status query fails and still reports no error
  (`StartStop.StartStopAllMonitoring`).
- The name of something to remove is not checked: with an empty one, an exporter is removed whatever its alias, and
  a query source cannot be removed (`Refinement.RemoveMetricsRefines`, `Refinement.RemoveQueriesRefines`).
- Sanitising cuts at the first question mark before it looks for credentials, so that a password with a question
  mark is shown up to there (`Sanitize.PasswordIsShown`); and it cuts off a scheme that a user named mongodb and a
  password beginning with two slashes make up, and then takes the rest of the password for the user's name
  (`Sanitize.PasswordTakenForUser`).

Assumptions: one command runs at a time; a QAN server either filters by parent or does not, and either undeletes or
does not, for as long as the client is connected to it; the agent is registered and its parent UUID does not change; a
plugin's Init is an oracle that returns information or fails; the server keeps the record of an instance as it is put,
and refuses one for a UUID it does not know; the client's node does not carry the server's own `consul` service. An
installation without a configuration file is one with an empty configuration.

## Model

| member | source | states |
|---|---|---|
| Stores.ServiceIDInjective | pmm/metrics.go:85 | A service ID determines kind and port. |
| Stores.UnitNameInjective | pmm/pmm.go:623 | A local service name determines kind and port, although the kind's colon has become a dash. |
| Stores.DirsDisjoint | pmm/metrics.go:177 | The key prefix of one service covers no key of another: names and IDs hold no slash and prefixes end in one. |
| Stores.AliasDirsDisjoint | pmm/queries.go:251 | The same one level down, between the aliases of one queries service. |
| Stores.SubsystemInverse | pmm/queries.go:110 | The QAN type name of a queries kind determines the kind. |
| Stores.AliasTagInverse | pmm/list.go:259-261 | Cutting six characters off an alias tag gives the alias back. |
| Registry.SameId | pmm/metrics.go:84-111 | Two entries at one service ID are the same exporter, or query sources of one kind. |
| Registry.KeyInOneDir | pmm/metrics.go:177-178 | A stored key lies below the prefix of the service that owns it and below no other. |
| Registry.SubBelowAlias | pmm/queries.go:251-252 | A source's keys lie below its own alias and below no other alias of the shared service. |
| Monitor.Admin.constructor | pmm/pmm.go:70 | The client starts with the given configuration and stores. |
| Monitor.Admin.ReadNode | pmm/pmm.go:451 | A node read either fails or returns the node or nothing. |
| Monitor.Admin.Register | pmm/metrics.go:92-97 | A registration happens as a whole or not at all; it always sets the node's address. |
| Monitor.Admin.Keys | pmm/config.go:372 | Exactly the keys below a prefix, each once, in no particular order. |
| Monitor.Admin.DeleteSubtree | pmm/metrics.go:178 | Deletes exactly the keys below a prefix, or nothing. |
| Monitor.Admin.WriteInstance | pmm/queries.go:121-126 | Writing an instance's file replaces that file or nothing. |
| Monitor.Admin.WriteAccess | pmm/config.go:299-317 | Updating the agent's file makes it say of the server what the configuration says, or leaves it. |
| Services.InstallService | pmm/service.go:71-84 | Succeeds exactly if no call fails and the service is new; if only the start fails, it is installed and stopped, otherwise a failure leaves it as it was. |
| Services.UninstallService | pmm/service.go:86-102 | Succeeds exactly if the calls it depends on succeed and the service exists; a running one is stopped first, unless its status query gets no answer; if only the uninstall fails, it is stopped. |
| Services.StartService | pmm/service.go:104-117 | Succeeds exactly if the calls it depends on succeed and the service exists; then it runs; a start is made exactly if it did not run or the status query got no answer. |
| Services.StopService | pmm/service.go:119-132 | Without failures it does not run afterwards; an unanswered status query counts as success and leaves it running; a service that does not exist can be stopped. |
| Services.GetServiceStatus | pmm/service.go:134-145 | True only if the query was answered and the service runs; a failing query reads as not running. |
| Lookup.GetConsulService | pmm/pmm.go:450-470 | Finds a service of the kind with the alias tag (any, for an empty name), and nothing exactly if there is none. |
| Lookup.CheckGlobalDuplicateService | pmm/pmm.go:473-501 | Succeeds exactly if no node offers the alias and the client's own node, if it has services, has this address. So a client name that is in use from another address is refused, and an alias that is tagged anywhere. |
| Lookup.AvailablePort | pmm/pmm.go:532-545 | Says exactly whether some service of the client has the port. |
| Lookup.ChoosePort | pmm/pmm.go:504-529 | Returns the chosen port as specified by `ChosenPort`, or fails exactly if there is none or a call fails. |
| Lookup.ChosenPortIsLeast | pmm/pmm.go:506-526 | A requested port is returned exactly when unused; otherwise the result is the least unused port from the default on. |
| Lookup.PortExists | pmm/pmm.go:517-528 | With fewer than a thousand services a port is always found (pigeonhole). |
| Metrics.AddMetrics | pmm/metrics.go:31-153 | Succeeds exactly if allowed and no call fails, with the full new state. Refused by Init, as a duplicate, by the global check or for want of a port, it changes no store; otherwise a failure leaves one of the partial states in order catalog, keys, local service. Of the configuration at most the MySQL password changes. A generated password is in the file before anything else is done; a client name in use from another address is refused. |
| Metrics.PutAll | pmm/metrics.go:102-111 | The plugin's pairs below the service's prefix; a failure leaves a mixture of old and new keys only. |
| Metrics.TagsAsAsked | pmm/metrics.go:71-81 | The registered tags say http exactly with --disable-ssl, https exactly without, and the cluster exactly if the plugin has one. |
| Metrics.FileOfPath | pmm/metrics.go:134-137 | The executable is named by what follows the last slash of its path, or by all of it. |
| Metrics.RemoveMetrics | pmm/metrics.go:156-190 | Finds the service exactly if it is monitored and removes catalog entry, keys and local service in this order, or stops part way. |
| Metrics.MetricsUnit | pmm/metrics.go:184 | The local service it names is the one of the catalog service. |
| Transitions.AddMetricsInserts | pmm/metrics.go:84-150 | A complete addition turns stores that represent a registry into stores that represent it with the exporter added. |
| Transitions.RemoveMetricsDeletes | pmm/metrics.go:168-187 | A complete removal turns them into stores that represent the registry without it. |
| Transitions.LookupFindsEntry | pmm/pmm.go:450-470 | In represented stores the catalog lookup finds an alias exactly if the registry has it, and finds the service that the registry gives. |
| Refinement.AddMetricsRefines | pmm/metrics.go:31-153 | Whenever AddMetrics is allowed, its alias is new to the registry and its final state represents the registry with it. |
| Refinement.DuplicateMeans | pmm/metrics.go:44-58 | On the registry: an exporter is a duplicate exactly if its alias is there, or, without --force and for a plugin that does not allow several, if there is any of its kind. |
| Refinement.RemoveMetricsRefines | pmm/metrics.go:156-190 | RemoveMetrics finds something exactly if the registry has an exporter of the name, an empty name meaning any, succeeds exactly if no call fails, and then deletes exactly one such entry. |
| Refinement.LookupFindsNamed | pmm/pmm.go:450-470 | In represented stores a lookup finds something exactly if the registry has an entry of the kind and name, an empty name meaning any. |
| Qan.GetInstance | pmm/queries.go:297-354 | An instance comes back exactly if the server's answer has this parent and is not deleted or can be undeleted, and then it is the one answered, not deleted any more. No other instance changes, and no data source. |
| Qan.CreateInstance | pmm/queries.go:357-394 | Creates one live instance under a UUID nobody had, with the sanitised data source. |
| Qan.AcquireInstance | pmm/queries.go:109-126 | A new instance is created exactly if the server's answer cannot be used, so never a second one on a server that filters by parent and undeletes, whatever fails. Afterwards exactly one instance of the type and name is acquired; a new one holds the sanitised data source and an existing one keeps its own; on success the agent's file has the server's record with the real data source. |
| Qan.DeleteInstance | pmm/queries.go:397-409 | Marks one instance deleted and changes no other. |
| Qan.FreshUuidExists | pmm/queries.go:357-368 | There is always a UUID that no instance has. |
| Queries.FindBase | pmm/queries.go:54-107 | Gets past the first checks exactly if no call fails, the alias is not monitored and it is globally unique; then the base is an existing service of the kind, or a new one if there is none. |
| Queries.AddQueries | pmm/queries.go:41-205 | If allowed, ends in the full state or in exactly one of the stages instance, file and local service, catalog, first key; if not, changes no store. A generated password is in the file before anything else is done. On a server that filters and undeletes, no second instance of one type, name and parent is created, whatever fails. |
| Queries.RemoveQueries | pmm/queries.go:208-294 | Finds the source exactly if monitored; succeeds exactly if no call fails and local service, stored UUID and instance are there; ends in the full removal or at start, instance, keys, or catalog of a last alias. |
| Queries.KeepOthers | pmm/queries.go:258-265 | The loop keeps exactly the other alias tags, in order. |
| Queries.QueriesUnit | pmm/queries.go:136 | The local service it names is the one of the catalog service. |
| QueryTransitions.AddQueriesInserts | pmm/queries.go:128-202 | A complete addition inserts the source, whether its service is new or shared. |
| QueryTransitions.RemoveQueriesDeletes | pmm/queries.go:246-291 | A complete removal deletes the source; the service and its local service go exactly with the last alias. |
| QueryTransitions.OtherAliasesMembers | pmm/queries.go:258-265 | A tag survives exactly if it is an alias tag of another alias. |
| QueryTransitions.SourceKeysApart | pmm/queries.go:251-252 | No other entry of the registry has a key below the alias's prefix. |
| Refinement.BaseIsShared | pmm/queries.go:70-74 | In represented stores all services of a queries kind are one, on port 0, and it is installed locally exactly if present. |
| Refinement.AddQueriesRefines | pmm/queries.go:41-205 | An allowed AddQueries succeeds exactly if no call fails and then inserts the source with its sanitised DSN and a live instance's UUID. |
| Refinement.RemoveQueriesRefines | pmm/queries.go:208-294 | RemoveQueries finds something exactly if the registry has a source of the name; it succeeds exactly if the name is not empty and no call fails, and then deletes exactly that entry. |
| Refinement.NoNamelessUuid | pmm/queries.go:226-233 | No UUID is stored for an empty name, so that a removal without a name fails at that key. |
| Runs.StepRefines | pmm/metrics.go:31-190 | Every successful command is one insertion into, or one deletion from, the registry. An exporter added without --force, by a plugin that does not allow several, is the first of its kind. |
| Runs.RunRefines | pmm/queries.go:41-294 | Every state of every run of successful commands represents the registry that the commands compute. |
| Runs.EveryRunAgrees | pmm/pmm.go:611-644 | From a new client on, at any time the local services are those the catalog calls for, one to one. |
| Runs.OneOfItsKind | pmm/metrics.go:44-58 | Over every run from a new client in which the exporters of a kind are added without --force and by plugins that do not allow several: at any time there is at most one entry, and one service, of the kind. |
| Runs.FirstExporter | pmm/metrics.go:31-153 | On a new client the first exporter is allowed on its default port, and then is the whole registry. |
| Runs.UnitsMatchServices | pmm/pmm.go:619-641 | In represented stores the names derived from the catalog are exactly the local services. |
| Runs.ServicesAreDistinct | pmm/pmm.go:532-545 | Exporter ports are positive and distinct, no (kind, alias) pair appears twice, every queries kind has one service with aliases. |
| Runs.UuidsAreDistinct | pmm/queries.go:297-394 | Distinct sources have distinct UUIDs, and the agent's live instances are exactly theirs. |
| Reuse.AttemptKeepsOneEach | pmm/queries.go:109-117 | However a command's calls fail, if it creates no second instance, the agent keeps at most one of each type and name, and all keep their identity. |
| Reuse.RunsHaveOneEach | pmm/queries.go:297-354 | So over every run of commands that fail anywhere, and of repairs: removing and adding sources never gives the agent two instances of one type and name, deleted or not. |
| Reuse.AddedAgain | pmm/queries.go:321-354 | Removing a source and adding it again creates no instance; if there was one for it, the source has its old UUID, and with the same data source the registry is as it was. |
| Admission.UniqueMeans | pmm/pmm.go:473-501 | In represented stores a name is globally unique exactly if the registry does not have it, no other client has it, and the client's name is not in use from another address. |
| Admission.ChosenMeans | pmm/pmm.go:504-529 | In represented stores there is a port exactly if no entry has the requested one, or without one, if no entry has some port of the thousand from the default on. |
| Admission.AddExporterAllowed | pmm/metrics.go:31-65 | AddMetrics is allowed exactly if Init succeeds, the kind is not known (the alias, with --force or where several are allowed), the name is undisputed, a port is left and there is an executable. |
| Admission.AddSourceAllowed | pmm/queries.go:41-68 | AddQueries is allowed exactly if Init succeeds, the registry has no such source and the name is undisputed. |
| DataSources.StepKeepsFiles | pmm/queries.go:109-126 | Every successful command leaves each query source a file: the server's record, but with a data source whose sanitised form is the one stored. |
| DataSources.EveryRunHasFiles | pmm/queries.go:109-126 | So at any time of every run of successful commands from a new client. |
| DataSources.AttemptSanitises | pmm/queries.go:297-394 | However a command's calls fail: no instance goes, none changes its data source, and a new one holds the sanitised form of the one the command was given. |
| DataSources.ServerHoldsSanitised | pmm/queries.go:357-394 | Over every run of commands and repairs, whatever fails: an instance keeps the data source it had at the start, and one that the run has created holds the sanitised form of what a command of the run was given. |
| DataSources.PublishedExactly | pmm/config.go:433-465 | For every rename without errors: the server gets another data source for exactly those renamed instances whose name in the file contains the old client name and whose file has another one; and it gets the file's. |
| DataSources.RenamePublishes | pmm/config.go:388-394 | For a client in agreement: the instance of the MySQL source with the client's name gets the real data source, every other instance keeps what it holds. |
| DataSources.NothingPublishedExactly | pmm/config.go:388-394 | The server learns no data source exactly if no MySQL source has the client's name, or its file has what the server has. |
| DataSources.DefaultAliasPublishes | pmm/config.go:433-465 | Witness, at the default name: a new instance holds the sanitised data source after AddQueries, and the real one after a change of the client name. |
| DataSources.PasswordIsPublished | pmm/config.go:433-465 | The same for user, password and host: hidden first, shown afterwards. |
| Commands.Execute | pmm-admin.go:321-352 | Each command's method does what the run and failure theorems assume of the command, for every outcome of its calls. From a represented state it succeeds exactly if no call fails and the registry allows it, and reports a duplicate or a missing service exactly if no call fails and the registry says so. A generated password is in the file before a store changes. |
| Commands.Invoke | pmm-admin.go:162-185 | The check lets a command through exactly if nothing disagrees, or, unable to read the catalog, exactly if there are no local services; a refusal has no effect. With the catalog read, it is an event of a gated run. From a represented state and without failures it succeeds exactly if the registry allows the command. |
| Commands.Session | pmm-admin.go:162-185 | Invocations that all succeed are a run: every registry follows from the one before by its command's effect, and stores and files represent the last one; a failure leaves at most one name in disagreement. Without failures it ends early only at a command that the registry reached does not allow. |
| Commands.AddMySQL | pmm-admin.go:321-353 | The composite addition passes over what is known and stops at the first failure: each step is none or its command's effect. On success all three kinds are known to the registry; without failures it stops only at an addition that the registry reached does not allow; however it ends at most one name disagrees. |
| Commands.RemoveMySQL | pmm-admin.go:856-883 | From a represented state without failures exactly the three entries of the alias are gone from the registry. It goes on after failures: at most three names disagree, every other entry stays in the catalog, and of the three at most as many as calls have failed. |
| Commands.InvokeRemoveMySQL | pmm-admin.go:856-883 | As an invocation it is one check and then up to three commands, with the same exact result where nothing fails; a refusal has no effect. |
| Commands.InvokeRemoveAll | pmm-admin.go:831-844 | remove --all is one check and then one removal per alias up to the first error: an invocation of its own kind, which from every well-named state adds at most one name to the disagreement, however many aliases there are. From a represented state and without failures it ends with the empty registry. |
| Commands.InvokeRepair | pmm-admin.go:1398 | A repair is an invocation of its own, with the catalog readable or not; read, it is an event of a gated run. Without failures it is a complete one. |
| Repair.CheckInstallation | pmm/pmm.go:611-644 | The two lists are exactly the two halves of the disagreement; with the catalog unreadable, all local services are orphaned. |
| Repair.Gate | pmm-admin.go:162-185 | With the catalog readable, a command is let through exactly when nothing disagrees. |
| Repair.NoListsNoDisagreement | pmm/pmm.go:619-641 | Both lists are empty exactly when catalog names and local services are equal. |
| Repair.RepairInstallation | pmm/pmm.go:647-693 | From any state: success cuts both sides down to what they have in common; a failure leaves part of that; unreadable, all local services go. Without failures exactly the keys below missing services are gone, and exactly the instances whose UUIDs they store, under the two names looked for, are deleted. |
| Repair.ForgetInstances | pmm/pmm.go:667-681 | Without failures exactly the instances whose UUIDs are stored below the prefix, under the two names looked for, are deleted; with failures some of them, and no others. |
| Repair.DropService | pmm/pmm.go:657-685 | One missing service goes with its instances and keys as far as the ignored errors allow; without failures with all its keys and exactly the instances whose UUIDs are stored below it. |
| Repair.RepairedAgrees | pmm/pmm.go:647-693 | After a repair nothing disagrees and every pair that matched before is untouched. |
| Repair.SecondRepair | pmm/pmm.go:647-693 | A second repair changes nothing. |
| Repair.PartlyRepairedShrinks | pmm/pmm.go:650-664 | A repair that stops part way leaves no name in disagreement that was not before. |
| Failures.AttemptTouchesOne | pmm/metrics.go:84-150 | However a command's calls fail, it touches one local service name. |
| Failures.AttemptGrowsByOne | pmm/metrics.go:168-187 | So the disagreement grows by at most one name. |
| Failures.CompositeGrowsByN | pmm-admin.go:856-883 | A chain of n commands without checks in between grows the disagreement by at most n. |
| Failures.RemovalsShrink | pmm/pmm.go:367-402 | Any number of removals that succeed add no name to the disagreement, from every well-named state. |
| Failures.SweepAddsOne | pmm/pmm.go:367-402 | So removals up to the first that fails add at most one. |
| Failures.RemoveMetricsLeaves | pmm/metrics.go:168-187 | A removal leaves its name in disagreement exactly if it took the service out of the catalog but not out of the local services; other names stay as they were. |
| Failures.RemoveQueriesLeaves | pmm/queries.go:266-291 | The same for RemoveQueries. |
| Failures.RemoveMySQLCanLeaveThree | pmm-admin.go:856-883 | Witness: from any installation in agreement with the three kinds under one name, three removals that each stop after the catalog leave exactly three names in disagreement. |
| Failures.UnreadableRepairLosesAll | pmm/pmm.go:611-655 | A repair that cannot read the catalog leaves as many names in disagreement as an installation in agreement has services. |
| Failures.GatedRunsStayClose | pmm-admin.go:162-185 | Over every run of invocations of at most n commands each, of removals of everything, and of repairs, at most n names ever disagree, whatever fails, as long as every check and repair can read the catalog; the two witnesses show that neither condition can be dropped. |
| Recovery.AddMetricsThenRepair | pmm/metrics.go:31-150 | An AddMetrics that did not succeed, refused or failed anywhere, followed by a complete repair is atomic: all four stores represent the registry before or the registry after. |
| Recovery.RemoveMetricsThenRepair | pmm/metrics.go:173-187 | After a failed RemoveMetrics and a repair the exporter is gone, and the keys agree exactly if they were deleted or there were none. |
| Recovery.RepairOfRepresented | pmm/pmm.go:647-693 | Repairing stores in agreement keeps what they represent. |
| Stuck.StuckIsRefused | pmm/queries.go:225-233 | With the alias registered and the UUID not stored, adding is a duplicate and removing fails whatever its calls do, changing no more than whether the local service runs. |
| Stuck.AddQueriesGetsStuck | pmm/queries.go:182-202 | From every represented state, a failed AddQueries ends stuck exactly if it had come to register the alias; nothing disagrees then. |
| Stuck.RemoveQueriesGetsStuck | pmm/queries.go:251-291 | From every represented state, a failed RemoveQueries ends stuck exactly if it had deleted the keys but not changed the catalog; nothing disagrees then. |
| Stuck.AddQueriesThenRepair | pmm/queries.go:109-202 | After a failed AddQueries and a complete repair: stuck, or as before except perhaps for one live instance that no source has; all four stores agree exactly if there is none. |
| Stuck.RemoveQueriesThenRepair | pmm/queries.go:246-291 | After a failed RemoveQueries and a complete repair: removed, stuck, or as before except perhaps for the deleted instance, and then the removal can be repeated. |
| Stuck.StuckSurvivesAttempt | pmm/queries.go:225-233 | The stuck state survives every command, however its calls fail. |
| Stuck.StuckSurvivesRepair | pmm/pmm.go:647-693 | And every repair that could read the catalog, complete or not. |
| Stuck.StuckForever | pmm-admin.go:162-185 | So an alias stays stuck over every run of commands and such repairs. |
| Stuck.UninstallGetsOut | pmm/pmm.go:647-719 | Once all local services are uninstalled, a repair takes every service out of the catalog, the stuck one too. If none of its calls fails, the keys of these services are gone and no others; an instance that no such key names is as it was. |
| Stuck.StuckInstanceStays | pmm/queries.go:109-202 | The instance of a stuck AddQueries stays live on this way out, although no source has it. |
| GatedRuns.EventSound | pmm-admin.go:162-185 | What every command keeps, however its calls fail, and every repair that reads the catalog: the catalog agrees with some registry, an exporter with a local service has its keys, and an entry that no command was about is complete. |
| StoredUuids.EventTrue | pmm/queries.go:182-202 | However a command's calls fail, and over every repair: a stored UUID names an instance that was created for the very source it is stored for, if no exporter's data looks like a UUID. |
| StoredUuids.GatedRunsKeepInstances | pmm/queries.go:225-249 | So over every such run; and a source that no command was about keeps its live instance. |
| RunRecovery.AdditionAgrees | pmm-admin.go:321-353 | An addition that succeeds leaves nothing in disagreement, so that the next one of the same invocation is made where nothing disagrees. |
| RunRecovery.GatedRunsRecover | pmm/pmm.go:647-693 | From a client in agreement, after every run of gated commands that fail wherever they may and of repairs, a complete repair leads to a registry again: catalog and local services agree with it, every exporter has its keys, every source has its UUID stored or is stuck; what no command was about is registered exactly if it was before, unchanged and with its keys and its live instance. |
| LostUnits.RepairAfterLoss | pmm/pmm.go:647-693 | From every represented state, whichever local services are lost, a repair without failures leads to catalog, local services and keys of exactly the entries that still have theirs; the instances agree with that registry exactly if no lost exporter stores, under a name that looks like a UUID's, the UUID of a surviving source; and then the files do as well. |
| LostUnits.NoConfusion | pmm/pmm.go:670-678 | That condition holds if no exporter's data looks like a UUID. |
| LostUnits.LostSourceIsFound | pmm/pmm.go:667-681 | The UUID of a source whose local service is lost is among those whose instances a repair deletes. |
| RunRecovery.EventWithin | pmm/metrics.go:102-178 | Commands and repairs change keys only below services that are registered before or afterwards. |
| RunRecovery.LeftoversStay | pmm/pmm.go:657-685 | A key below an ID that no service has stays as it is over every such run, for as long as no service has the ID. |
| RunRecovery.LeftoversGo | pmm/metrics.go:176-181 | The removal of an exporter with that ID takes it along. |
| RemoveAll.RemoveOne | pmm/pmm.go:372-402 | The alias of a snapshot service is removed by the command for its kind. |
| Sweeps.CalmRemovalClears | pmm/metrics.go:156-190 | After removals that failed anywhere, a removal of another entry none of whose calls fails takes its alias out of the catalog. |
| Sweeps.OneMoreSwept | pmm/pmm.go:367-402 | So over any number of removals of different entries, those that may still be in the catalog are those one of whose calls failed; the others to come are complete. |
| RemoveAll.RemoveService | pmm/pmm.go:367-402 | Every alias of the service is counted; with errors ignored it goes on after each, and of its entries no more stay in the catalog than calls have failed. |
| RemoveAll.SnapshotCovers | pmm/pmm.go:367-372 | What a snapshot service lists is what the registry still has at its ID, although the removals rewrite the live services. |
| RemoveAll.RemoveAllMonitoring | pmm/pmm.go:360-412 | Without failures everything of the client goes, the password is cleared, and the count is the number of pairs modulo 2^16; with an empty or unreadable catalog nothing changes, not even the password, and no error is reported; where the first error ends it, it has added at most one name to what disagreed. With errors ignored it goes on: all pairs are counted, and at most as many as calls have failed stay in the catalog. |
| RemoveAll.NothingLeft | pmm/pmm.go:360-412 | Stores that represent the empty registry have no service, local service, key or live instance of the client. |
| RemoveAll.Uninstall | pmm/pmm.go:696-719 | All local services go if none of the final uninstalls fails, whatever happened remotely. If the catalog could be read, at most as many entries stay in it as calls to the server have failed. |
| StartStop.StartStopAllMonitoring | pmm/pmm.go:313-357 | Affected, failed and already-there add up to all; without failures the affected are exactly those concerned; with no error reported all run after a start or restart, and after a stop exactly those still run that ran before and whose status query failed. A restart without errors has started every service anew, but for those whose status query failed. |
| StartStop.CountIsConcerned | pmm/pmm.go:319-350 | The loop's counter is the size of the set of services the action concerns. |
| StartStop.SecondTimeNothing | pmm/pmm.go:322-334 | A repeated start or stop affects none. |
| StartStop.RestartConcernsAll | pmm/pmm.go:339-348 | A restart affects every service. |
| StartStop.StartStopMonitoring | pmm/pmm.go:267-310 | Only the service of the kind and alias can change, and it ends in the wanted state unless something failed. What a restart affects is started anew unless its status query failed. |
| ListView.GetSVCTable | pmm/list.go:224-330 | Without failures the rows are those of `Table`, in some order of the services. |
| ListView.ReadDsn | pmm/list.go:247-257 | The loop over a directory returns its dsn value, or a dash. |
| ListRefinement.TableIsView | pmm/list.go:224-330 | In represented stores the rows show exactly the registry: every entry once, with its port, state and data source. |
| ListRefinement.KindIsSorted | pmm/list.go:229-236 | The suffix test sorts services as the registry does. |
| ListRefinement.CommandChangesOneLine | pmm/list.go:271-330 | A successful add introduces exactly one line, with the sanitised or plugin-stored data source; a successful remove deletes exactly one; no other changes. |
| Rename.RenameTags | pmm/config.go:342-346 | Rewrites exactly the tag that is the old name's alias tag, in place. |
| Rename.RenameInstance | pmm/config.go:433-465 | The record is read from the agent's file; where the name changes, all of it goes to the server under the new name, the real data source included, and then back into the file. No other instance changes; an instance without a file is an error. |
| Rename.RenameOneKey | pmm/config.go:377-415 | A key is copied before it is deleted; without errors it has moved, and the instance that a MySQL UUID key refers to is renamed on the server and in its file. |
| Rename.RenameClientNameInServices | pmm/config.go:340-419 | Whatever fails, each service and value is at its old place or its new one; without errors all services and keys have moved, and exactly the MySQL instances that the keys refer to have taken over the records of their files under the new name. No more services stay under the old name than calls have failed. |
| Rename.NoValueIsLost | pmm/config.go:397-414 | At every stage each value is under its old or its new key. |
| Rename.NoServiceIsLost | pmm/config.go:348-368 | At every stage each service is under the old or, renamed, under the new name. |
| Rename.NodeIsDropped | pmm/config.go:173-177 | Deregistering the old node afterwards loses exactly the services not registered again; whatever the new node had before stays. |
| Rename.OneMoreCopy | pmm/config.go:397-408 | With nothing stored below the new name and no two keys merging, a copy overwrites nothing. |
| RenameRefinement.ExporterKeyRenamed | pmm/config.go:397 | An exporter's key becomes its counterpart exactly if the old name occurs in no other part of it. |
| RenameRefinement.SourceKeyRenamed | pmm/config.go:397 | A source's key becomes its counterpart exactly if the old name occurs elsewhere only as the whole alias. |
| RenameRefinement.KeysFollowExactly | pmm/config.go:397 | All stored keys of a registry become those of the renamed registry exactly if the old name occurs in none of them except as the client and as a whole alias. |
| RenameRefinement.ClientNamedAfterExporter | pmm/config.go:397 | Counterexample: no key of a MySQL exporter of a client named mysql becomes its counterpart. |
| RenameRefinement.KeysAreRenamable | pmm/config.go:397 | For a clean client the key renaming is injective. |
| RenameRefinement.RenamingIsSound | pmm/config.go:388-397 | A clean, represented client whose sources have their files meets every condition of the renaming loop. |
| RenameRefinement.RenameRefines | pmm/config.go:340-430 | A rename without errors represents the registry with the alias renamed; instances included exactly if no MongoDB source has the client's name; every source keeps a file like its record. |
| RenameRefinement.MongoIsLeftBehind | pmm/config.go:388-394 | The instance of such a MongoDB source keeps the old name. |
| RenameRefinement.LookupsAreConserved | pmm/config.go:397-410 | Every lookup under the new name returns what its counterpart under the old name returned. |
| SetConfig.NameIsSegment | pmm/constants.go:30 | A name that matches the pattern is nonempty and has no slash. |
| SetConfig.LoadConfig | pmm/config.go:52-70 | The bind address defaults to the client address; a consistent file gives a consistent configuration. |
| SetConfig.ServerOptions | pmm/config.go:75-102 | A new address drops flags and credentials, a password replaces both credentials, one flag clears the other; consistency is kept. |
| SetConfig.RenameClient | pmm/config.go:140-180 | Refused without effect if the new name has services, or without force if the old one has. Otherwise, whatever failed before, the old node is deregistered with all that is left on it, unless this very call fails; the new name has exactly the services registered again. |
| SetConfig.RenameKeepsRegistry | pmm/config.go:161-180 | A forced rename whose calls all succeed keeps the registry, under the same exact condition about MongoDB; the instance of the MySQL source with the client's name, and no other, gets the data source of its file. |
| SetConfig.ClientNameOptions | pmm/config.go:112-185 | An existing name changes only through a rename; the pattern is checked only after the services have moved. A new client gets the name asked for, or that of the host; a name in use is refused without --force and otherwise taken over by a repair. |
| SetConfig.ClientAddressOptions | pmm/config.go:188-212 | A client address that is set changes only while there are no services. |
| SetConfig.BindAddressOptions | pmm/config.go:215-232 | The same for the bind address, which defaults to the client address. |
| SetConfig.LocalMeans | pmm/config.go:329-337 | An address is local exactly if it is that of an interface, whatever its mask. |
| SetConfig.SetConfig | pmm/config.go:73-290 | Only a configuration that follows from the previous one is written. A forced rename whose calls all succeed has moved the services in any case; the new name is written exactly if it matches the pattern, neither address changes, the client address is known, the bind address is local, and the agent's services can be restarted. After success with a new address or password every local service runs; without them, those of other kinds than the agent's are as they were, and the agent's run if one is installed and no call failed. Whenever the file is written, that of an installed agent says the same of the server. |
| SetConfig.RenameCommand | pmm/config.go:139-279 | End to end, for a client in agreement: stores and registry under the new name, instances exactly if no MongoDB source has the client's name, the real data source for exactly the MySQL source with the client's name, and the file exactly if the name matches, the addresses are known and the bind address is local. |
| SetConfig.Address | pmm/config.go:187-258 | Without failures the addresses are accepted exactly if known, unchanged or without services, and local. |
| SetConfig.SyncAgent | pmm/config.go:260-274 | The agent's own file gets the server's address, flags and credentials before its services are restarted. Without failures it succeeds exactly if no agent is installed or every service it runs is installed locally; then each of them has been started anew and runs, and no other is touched. |
| SetConfig.Persist | pmm/config.go:276-287 | The file is written before services are restarted; with a new address or password, success means that every local service runs, and without them none is touched. Without failures each has been started anew. |
| SetConfig.Configure | pmm/config.go:52-290 | One whole config command is a step of a configuration run. After success with a new address or password every local service runs. |
| SetConfig.RunCommand | pmm/metrics.go:38-44 | So is a registry command: of the file it changes at most the MySQL password. From stores that represent a registry for the name in the file and without failures, it succeeds exactly if the registry allows it. |
| SetConfig.RunRemoveAll | pmm/pmm.go:405-411 | And the removal of everything. From such stores and without failures it leaves the empty registry. |
| SetConfig.RunsAreConsistent | pmm/config.go:73-102 | Over every run from an empty configuration the SSL flags are never both set and an empty password means an empty user. |
| SetConfig.AddressesAreKept | pmm/config.go:187-232 | While there are services, addresses that are set stay as they are. |
| Password.GeneratePassword | pmm/utils/generate_password.go:9-31 | For every size and every choice: exactly that length, only allowed characters, of each source at least size/4 + size%4 - 3. |
| Password.Choose | pmm/utils/generate_password.go:16-21 | One more than an equal share from each source. |
| Password.Scramble | pmm/utils/generate_password.go:22-29 | The swaps keep the multiset of characters and every count. |
| Password.CountTruncated | pmm/utils/generate_password.go:30 | Truncation costs a source at most the characters cut off. |
| Errors.Join | pmm/constants.go:62-90 | Equals the naive recursive join, nil printed as <nil>, for every list whose head is not nil. |
| Errors.Fill | pmm/constants.go:79-89 | Every copy fits, and the offset ends at the length computed before. |
| Errors.BufferLength | pmm/constants.go:70-77 | The loop computes exactly the length of the joined text. |
| Errors.JoinedLength | pmm/constants.go:70-77 | The joined text is as long as its parts and separators. |
| Errors.ErrorText | pmm/constants.go:56-58 | The text of a list of errors is their texts joined by a comma and a blank. |
| External.AddExternalInstances | pmm/external.go:232-256 | Appends one config per target; everything else of the job stays. |
| External.RemoveTarget | pmm/external.go:267-280 | One target leaves every config in place; those left empty leave the list; order and labels stay. |
| External.RemoveExternalInstances | pmm/external.go:259-289 | For a nonempty list, filters every config by the set of targets and drops empty ones; deletes the job exactly when nothing is left. |
| External.StripTwice | pmm/external.go:266-281 | Removing one after the other is removing the set: order and repetition do not matter. |
| External.RemoveUndoesAdd | pmm/external.go:232-289 | Removing just-added targets restores the configs exactly if none was empty and none had the new targets. |
| External.JobIsRestored | pmm/external.go:282-284 | The job is as before under the same condition, and only if it had a config at all. |
| External.ListTargets | pmm/external.go:82-101 | The nested loops list every target of every config with the labels of its config. |
| External.AddedAreListed | pmm/external.go:232-256 | What is added is listed as it was asked for, labels included, after what was there. |
| External.RemovedAreNotListed | pmm/external.go:259-289 | What is removed is no longer listed, and everything else is listed as before, labels included, in the same order. |
| External.AddExternalService | pmm/external.go:110-197 | Unset fields come from the existing job, changed ones are refused without force, and the configs are those of the request alone. |
| Sanitize.SanitizeHidesPassword | pmm/utils/sanitize_dsn.go:9-23 | user:password@host, with or without scheme and options, becomes user:***@host without trailing slashes, for every password without a question mark; but where user and password make up the scheme, what follows the two slashes is taken for the credentials. |
| Sanitize.AddressIsShown | pmm/utils/sanitize_dsn.go:10-11 | Without an at sign, what is shown is the address without the MongoDB scheme, trailing slashes and options. |
| Sanitize.HiddenExactly | pmm/utils/sanitize_dsn.go:9-23 | A password is hidden whatever the host exactly if it has no question mark and, where user and password make up the scheme, what follows the slashes up to a colon or at sign is the user's name. |
| Sanitize.PasswordIsShown | pmm/utils/sanitize_dsn.go:10 | Counterexample: of a password with a question mark, the part before it is shown if it has no separator. |
| Sanitize.PasswordTakenForUser | pmm/utils/sanitize_dsn.go:11-21 | Counterexample: without the scheme, of a user mongodb whose password begins with two slashes the rest of the password is shown. |
| Sanitize.SchemeIsMadeUp | pmm/utils/sanitize_dsn.go:11 | Without the scheme, exactly a user named mongodb whose password begins with two slashes looks like one. |
| Sanitize.String | pmm/plugin/postgresql/postgresql.go:36-76 | The buffer ends up with scheme, credentials, address and options in this order. |
| Sanitize.ModeIsDisabled | pmm/plugin/postgresql/postgresql.go:69-73 | Without a mode the data source is the one with mode disable; a mode that is given ends it. |
| Sanitize.PostgresIsSanitized | pmm/plugin/postgresql/postgresql.go:36-76 | The sanitised data source depends only on host, port and whether there are credentials. |
| MysqlExporter.Args | pmm/plugin/mysql/metrics/metrics.go:69-124 | For every list of options, in any order and with repeats: every flag stays at its place and is false exactly if one of its options is in the list. |
| MysqlExporter.PrefixDecides | pmm/plugin/mysql/metrics/metrics.go:115-117 | A flag starts with the prefix of its own collector only. |
| MysqlExporter.OptionSwitches | pmm/plugin/mysql/metrics/metrics.go:97-109 | Each collector belongs to at most one option. |
| MysqlExporter.KV | pmm/plugin/mysql/metrics/metrics.go:139-146 | The sanitised data source, and OFF for exactly the disabled options. |
| MysqlExporter.ArgsAgreeWithKV | pmm/plugin/mysql/metrics/metrics.go:69-146 | A flag is false exactly if what is stored marks its option OFF. |
| MysqlExporter.OptsToDisable | pmm/plugin/mysql/metrics/metrics.go:158-185 | Table statistics are disabled exactly if asked for or if the 16-bit table count exceeds the limit. |
| MysqlExporter.LimitIsMeant | pmm/plugin/mysql/metrics/metrics.go:167 | The comparison is the intended one exactly if the count is below 65536 or still exceeds the limit after wrapping. |
| MysqlExporter.WrappedCount | pmm/plugin/mysql/metrics/metrics.go:167 | Counterexample: with 65536 tables statistics stay on whatever the limit. |

## Left out

- Registering the QAN agent, and re-registering an orphaned one, which also empties the directory of instance files: done by an external binary.
- The effect of starting and stopping analysis inside the local agent: the command is a call that may fail.
- The options column of the list, and its sorting and formatting: display only.
- A platform install that fails halfway through writing its unit file: an install either happens or does not; stopping or starting it can still fail separately.
- Fields of an instance record other than type, parent, name, data source and deletion mark: no decision depends on them.
- RunRecovery.GatedRunsRecover: of what a command was about it says nothing more of instances; a failed command can leave one too many, or mark one deleted whose source is still registered (`Stuck.AddQueriesThenRepair`, `Stuck.RemoveQueriesThenRepair`).
- The first setup with --force on a name that has services ignores the result of its repair; `SetConfig.ClientNameOptions` states for that case its configuration and that no local service is switched.
- A status query that gets no answer while a service is started or uninstalled is not counted as a failure: its only effect there is one call more or less.
- That a rename leaves the key-value tree in agreement with the renamed registry is proved for clean keys; for other keys only that they do not become their counterparts, since by coincidence another key might.
- Several pmm-admin processes at once: the code has no locking.
- HTTP, TLS, JSON and YAML, network checks, version checks, summaries, purging of metrics data, certificates, durations, and the databases behind the plugins.
- Local services that share the name pattern but belong to nobody are covered as orphans; how the platform enumerates them is not.
- Slices of Go that share storage are modelled where the code depends on it (exporter arguments, static configs, the password, the join buffer); the tags of a snapshot service are values.
- The health of external targets in the list: what the server reports for job and target.
