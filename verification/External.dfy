/** External scrape jobs: adding and removing targets of what the server has. */
module External {
  import opened Monitor

  type Label = (string, string)

  /** A static config and a scrape job as the server keeps them; intervals are opaque. */
  datatype Static = Static(labels: seq<Label>, targets: seq<string>)
  datatype Job = Job(interval: int, timeout: int, path: string, scheme: string, configs: seq<Static>)

  datatype Target = Target(target: string, labels: seq<Label>)

  /** One static config of a response, edited in place. */
  class StaticConfig {
    const labels: seq<Label>
    var targets: seq<string>

    constructor (s: Static)
      ensures Value() == s
    {
      labels, targets := s.labels, s.targets;
    }

    function Value(): Static
      reads this
    {
      Static(labels, targets)
    }
  }

  /** The server's side of the managed API. */
  class Managed {
    var jobs: map<string, Job>
    ghost var faults: nat

    constructor (jobs: map<string, Job>)
      ensures this.jobs == jobs && faults == 0
    {
      this.jobs, faults := jobs, 0;
    }

    method Call() returns (failed: bool)
      modifies this`faults
      ensures faults == old(faults) + if failed then 1 else 0
    {
      failed := *;
      if failed {
        faults := faults + 1;
      }
    }

    /** ScrapeConfigsGet: a missing job is an error of its own. */
    method Get(name: string) returns (r: Result<Job>)
      modifies this`faults
      ensures faults >= old(faults)
      ensures r.Success? <==> faults == old(faults) && name in jobs
      ensures r.Success? ==> r.value == jobs[name]
      ensures r.Failure? ==> (r.error == NoService <==> faults == old(faults))
    {
      var failed := Call();
      if failed { return Failure(Failed); }
      if name !in jobs { return Failure(NoService); }
      return Success(jobs[name]);
    }

    /** ScrapeConfigsUpdate and ScrapeConfigsCreate; an unreachable target is a failure. */
    method Store(name: string, job: Job) returns (r: Outcome)
      modifies this`jobs, this`faults
      ensures faults >= old(faults) && (r.Ok? <==> faults == old(faults))
      ensures jobs == if r.Ok? then old(jobs)[name := job] else old(jobs)
    {
      var failed := Call();
      if failed { return Err(Failed); }
      jobs := jobs[name := job];
      return Ok;
    }

    /** ScrapeConfigsDelete. */
    method Delete(name: string) returns (r: Outcome)
      modifies this`jobs, this`faults
      ensures faults >= old(faults) && (r.Ok? <==> faults == old(faults))
      ensures jobs == if r.Ok? then old(jobs) - {name} else old(jobs)
    {
      var failed := Call();
      if failed { return Err(Failed); }
      jobs := jobs - {name};
      return Ok;
    }
  }

  // ---------- what adding and removing mean ----------

  function Values(configs: seq<StaticConfig>): seq<Static>
    reads configs
  {
    seq(|configs|, i requires 0 <= i < |configs| reads configs => configs[i].Value())
  }

  /** One config per new target. */
  function Fresh(targets: seq<Target>): seq<Static> {
    seq(|targets|, i requires 0 <= i < |targets| => Static(targets[i].labels, [targets[i].target]))
  }

  function TargetSet(targets: seq<string>): set<string> { set t | t in targets }

  function TargetNames(targets: seq<Target>): set<string> { set t | t in targets :: t.target }

  /** The targets that stay, in order. */
  function Keep(targets: seq<string>, removed: set<string>): seq<string> {
    if targets == [] then []
    else
      var n := |targets| - 1;
      Keep(targets[..n], removed) + if targets[n] in removed then [] else [targets[n]]
  }

  /** The configs that keep a target, in order and with their labels. */
  function Strip(configs: seq<Static>, removed: set<string>): seq<Static> {
    if configs == [] then []
    else
      var n := |configs| - 1;
      var left := Keep(configs[n].targets, removed);
      Strip(configs[..n], removed) + if left == [] then [] else [configs[n].(targets := left)]
  }

  lemma {:induction false} KeepTwice(targets: seq<string>, r1: set<string>, r2: set<string>)
    ensures Keep(Keep(targets, r1), r2) == Keep(targets, r1 + r2)
  {
    if targets != [] {
      var n := |targets| - 1;
      KeepTwice(targets[..n], r1, r2);
      if targets[n] !in r1 {
        var kept := Keep(targets[..n], r1);
        assert (kept + [targets[n]])[..|kept|] == kept;
      } else {
        assert Keep(targets, r1) == Keep(targets[..n], r1);
      }
    }
  }

  /** Removing in two steps is removing everything at once: neither order nor repetition matters. */
  lemma {:induction false} StripTwice(configs: seq<Static>, r1: set<string>, r2: set<string>)
    ensures Strip(Strip(configs, r1), r2) == Strip(configs, r1 + r2)
  {
    if configs != [] {
      var n := |configs| - 1;
      StripTwice(configs[..n], r1, r2);
      KeepTwice(configs[n].targets, r1, r2);
      var left, before := Keep(configs[n].targets, r1), Strip(configs[..n], r1);
      if left != [] {
        var last := configs[n].(targets := left);
        assert (before + [last])[..|before|] == before;
        assert Strip(before + [last],
                     r2) == Strip(before, r2) + if Keep(left, r2) == [] then [] else [last.(targets := Keep(left, r2))];
      } else {
        assert Strip(configs, r1) == before;
      }
    }
  }

  lemma {:induction false} KeepMembers(targets: seq<string>, removed: set<string>, t: string)
    ensures t in Keep(targets, removed) <==> t in targets && t !in removed
  {
    if targets != [] {
      var n := |targets| - 1;
      KeepMembers(targets[..n], removed, t);
      assert targets == targets[..n] + [targets[n]];
    }
  }

  lemma {:induction false} KeepUntouched(targets: seq<string>, removed: set<string>)
    requires forall t | t in targets :: t !in removed
    ensures Keep(targets, removed) == targets
  {
    if targets != [] {
      var n := |targets| - 1;
      assert forall t | t in targets[..n] :: t in targets;
      KeepUntouched(targets[..n], removed);
    }
  }

  lemma {:induction false} StripConcat(a: seq<Static>, b: seq<Static>, removed: set<string>)
    ensures Strip(a + b, removed) == Strip(a, removed) + Strip(b, removed)
  {
    if b == [] {
      assert a + b == a;
    } else {
      assert (a + b)[..|a + b| - 1] == a + b[..|b| - 1];
      StripConcat(a, b[..|b| - 1], removed);
    }
  }

  /** A config that a removal leaves as it is. */
  predicate Unaffected(c: Static, removed: set<string>) {
    c.targets != [] && forall t | t in c.targets :: t !in removed
  }

  /** Whatever is left has targets, and none of the removed ones. */
  lemma {:induction false} StripLeaves(configs: seq<Static>, removed: set<string>)
    ensures forall c | c in Strip(configs, removed) :: Unaffected(c, removed)
  {
    if configs != [] {
      var n := |configs| - 1;
      StripLeaves(configs[..n], removed);
      forall t {
        KeepMembers(configs[n].targets, removed, t);
      }
    }
  }

  /** A removal changes nothing exactly if it leaves every config as it is. */
  lemma {:induction false} StripKeeps(configs: seq<Static>, removed: set<string>)
    ensures Strip(configs, removed) == configs <==> forall c | c in configs :: Unaffected(c, removed)
  {
    if Strip(configs, removed) == configs {
      StripLeaves(configs, removed);
    }
    if forall c | c in configs :: Unaffected(c, removed) {
      StripNothing(configs, removed);
    }
  }

  lemma {:induction false} StripNothing(configs: seq<Static>, removed: set<string>)
    requires forall c | c in configs :: Unaffected(c, removed)
    ensures Strip(configs, removed) == configs
  {
    hide Keep, Strip;
    StripLast(configs, removed);
    if configs != [] {
      var n := |configs| - 1;
      assert forall c | c in configs[..n] :: c in configs;
      StripNothing(configs[..n], removed);
      assert Unaffected(configs[n], removed);
      KeepUntouched(configs[n].targets, removed);
    }
  }

  lemma StripLast(configs: seq<Static>, removed: set<string>)
    ensures configs == [] ==> Strip(configs, removed) == []
    ensures configs != [] ==>
      var n := |configs| - 1;
      var left := Keep(configs[n].targets, removed);
      Strip(configs,
            removed) == Strip(configs[..n], removed) + if left == [] then [] else [configs[n].(targets := left)]
  {
  }

  lemma {:induction false} FreshVanish(targets: seq<Target>)
    ensures forall removed | TargetNames(targets) <= removed :: Strip(Fresh(targets), removed) == []
  {
    forall removed | TargetNames(targets) <= removed
      ensures Strip(Fresh(targets), removed) == []
    {
      if targets != [] {
        var n := |targets| - 1;
        FreshVanish(targets[..n]);
        assert TargetNames(targets[..n]) <= TargetNames(targets);
        assert Fresh(targets)[..n] == Fresh(targets[..n]);
        assert targets[n] in targets && targets[n].target in TargetNames(targets);
        assert Keep([targets[n].target], removed) == [];
      }
    }
  }

  /** Removing what was just added restores the configs exactly if none was empty and none used the new names. */
  lemma RemoveUndoesAdd(configs: seq<Static>, targets: seq<Target>)
    ensures Strip(configs + Fresh(targets), TargetNames(targets)) == configs <==>
      forall c | c in configs :: Unaffected(c, TargetNames(targets))
  {
    StripConcat(configs, Fresh(targets), TargetNames(targets));
    FreshVanish(targets);
    StripKeeps(configs, TargetNames(targets));
  }

  // ---------- the list ----------

  /** The targets of some configs as they are listed, each with the labels of its config. */
  function Listed(configs: seq<Static>): seq<Target> {
    if configs == [] then []
    else
      var last := configs[|configs| - 1];
      Listed(configs[..|configs| - 1]) + Labelled(last.targets, last.labels)
  }

  function Labelled(targets: seq<string>, labels: seq<Label>): seq<Target> {
    seq(|targets|, i requires 0 <= i < |targets| => Target(targets[i], labels))
  }

  /** The targets that are not removed, in order. */
  function Without(targets: seq<Target>, removed: set<string>): seq<Target> {
    if targets == [] then []
    else
      var n := |targets| - 1;
      Without(targets[..n], removed) + if targets[n].target in removed then [] else [targets[n]]
  }

  /** The loops of ListExternalMetrics over the configs of one job. */
  method ListTargets(configs: seq<Static>) returns (targets: seq<Target>)
    ensures targets == Listed(configs)
  {
    targets := [];
    for i := 0 to |configs|
      invariant targets == Listed(configs[..i])
    {
      assert configs[..i + 1][..i] == configs[..i];
      ghost var before := targets;
      for j := 0 to |configs[i].targets|
        invariant targets == before + Labelled(configs[i].targets, configs[i].labels)[..j]
      {
        targets := targets + [Target(configs[i].targets[j], configs[i].labels)];
      }
      assert Labelled(configs[i].targets, configs[i].labels)[..|configs[i].targets|] ==
        Labelled(configs[i].targets, configs[i].labels);
    }
    assert configs[..|configs|] == configs;
  }

  /** What is added is listed as it was asked for, labels included, after what was there. */
  lemma {:induction false} AddedAreListed(configs: seq<Static>, targets: seq<Target>)
    ensures Listed(configs + Fresh(targets)) == Listed(configs) + targets
  {
    if targets == [] {
      assert configs + Fresh(targets) == configs;
    } else {
      var n := |targets| - 1;
      AddedAreListed(configs, targets[..n]);
      var all := configs + Fresh(targets);
      assert all[..|all| - 1] == configs + Fresh(targets[..n]);
      assert all[|all| - 1] == Static(targets[n].labels, [targets[n].target]);
      assert Labelled([targets[n].target], targets[n].labels) == [targets[n]];
      assert targets == targets[..n] + [targets[n]];
    }
  }

  lemma {:induction false} WithoutConcat(a: seq<Target>, b: seq<Target>, removed: set<string>)
    ensures Without(a + b, removed) == Without(a, removed) + Without(b, removed)
  {
    if b == [] {
      assert a + b == a;
    } else {
      assert (a + b)[..|a + b| - 1] == a + b[..|b| - 1];
      WithoutConcat(a, b[..|b| - 1], removed);
    }
  }

  lemma {:induction false} KeptAreLabelled(targets: seq<string>, labels: seq<Label>, removed: set<string>)
    ensures Labelled(Keep(targets, removed), labels) == Without(Labelled(targets, labels), removed)
  {
    if targets != [] {
      var n := |targets| - 1;
      KeptAreLabelled(targets[..n], labels, removed);
      assert Labelled(targets, labels)[..n] == Labelled(targets[..n], labels);
    }
  }

  /** What is removed is not listed any more, and everything else is as before, labels included. */
  lemma {:induction false} RemovedAreNotListed(configs: seq<Static>, removed: set<string>)
    ensures Listed(Strip(configs, removed)) == Without(Listed(configs), removed)
  {
    hide Keep, Labelled;
    if configs != [] {
      var n := |configs| - 1;
      var left := Keep(configs[n].targets, removed);
      RemovedAreNotListed(configs[..n], removed);
      KeptAreLabelled(configs[n].targets, configs[n].labels, removed);
      WithoutConcat(Listed(configs[..n]), Labelled(configs[n].targets, configs[n].labels), removed);
      StripLast(configs, removed);
      if left == [] {
        NothingLabelled(configs[n].labels);
        assert Strip(configs, removed) == Strip(configs[..n], removed);
        assert Without(Labelled(configs[n].targets, configs[n].labels), removed) == [];
      } else {
        var init := Strip(configs[..n], removed);
        assert (init + [configs[n].(targets := left)])[..|init|] == init;
      }
    }
  }

  lemma NothingLabelled(labels: seq<Label>)
    ensures Labelled([], labels) == []
  {
  }

  // ---------- the commands ----------

  /** The loop that turns targets into configs. */
  method MakeConfigs(targets: seq<Target>) returns (configs: seq<Static>)
    ensures configs == Fresh(targets)
  {
    configs := [];
    for i := 0 to |targets|
      invariant configs == Fresh(targets)[..i]
    {
      configs := configs + [Static(targets[i].labels, [targets[i].target])];
    }
  }

  /** AddExternalInstances: the new configs come last. */
  method AddExternalInstances(m: Managed, name: string, targets: seq<Target>) returns (r: Outcome)
    modifies m
    ensures m.faults >= old(m.faults)
    ensures r.Ok? <==> m.faults == old(m.faults) && name in old(m.jobs)
    ensures r.Err? ==> m.jobs == old(m.jobs)
    ensures r.Ok? ==>
      m.jobs == old(m.jobs)[name := old(m.jobs)[name].(configs := old(m.jobs)[name].configs + Fresh(targets))]
  {
    var got := m.Get(name);
    if got.Failure? { return Err(got.error); }
    var job := got.value;
    var added := MakeConfigs(targets);
    r := m.Store(name, job.(configs := job.configs + added));
  }

  /** The innermost loop. */
  method WithoutTarget(targets: seq<string>, removeT: string) returns (newTargets: seq<string>)
    ensures newTargets == Keep(targets, {removeT})
  {
    newTargets := [];
    for i := 0 to |targets|
      invariant newTargets == Keep(targets[..i], {removeT})
    {
      assert targets[..i + 1][..i] == targets[..i];
      if removeT != targets[i] {
        newTargets := newTargets + [targets[i]];
      }
    }
    assert targets[..|targets|] == targets;
  }

  predicate DistinctConfigs(configs: seq<StaticConfig>) {
    forall i, j | 0 <= i < j < |configs| :: configs[i] != configs[j]
  }

  /** One removed target: every config loses it in place; those left empty are dropped from the list. */
  method RemoveTarget(configs: seq<StaticConfig>, removeT: string, ghost objects: set<StaticConfig>)
    returns (newConfigs: seq<StaticConfig>)
    requires DistinctConfigs(configs) && forall c | c in configs :: c in objects
    modifies objects
    ensures DistinctConfigs(newConfigs) && forall c | c in newConfigs :: c in objects
    ensures Values(newConfigs) == Strip(old(Values(configs)), {removeT})
  {
    hide Keep;
    ghost var was := Values(configs);
    newConfigs := [];
    for i := 0 to |configs|
      invariant DistinctConfigs(newConfigs) && forall c | c in newConfigs :: c in configs[..i]
      invariant forall j | i <= j < |configs| :: configs[j].Value() == was[j]
      invariant Values(newConfigs) == Strip(was[..i], {removeT})
    {
      assert was[..i + 1][..i] == was[..i];
      assert configs[i] !in configs[..i];
      ghost var before := Values(newConfigs);
      var newTargets := WithoutTarget(configs[i].targets, removeT);
      configs[i].targets := newTargets;
      assert Values(newConfigs) == before;
      if |newTargets| > 0 {
        assert Values(newConfigs + [configs[i]]) == before + [configs[i].Value()];
        newConfigs := newConfigs + [configs[i]];
      }
    }
    assert was[..|configs|] == was;
  }

  /** Decoding a response. */
  method Decode(statics: seq<Static>) returns (configs: seq<StaticConfig>)
    ensures DistinctConfigs(configs) && fresh(configs) && Values(configs) == statics
  {
    configs := [];
    for i := 0 to |statics|
      invariant |configs| == i && DistinctConfigs(configs) && fresh(configs)
      invariant forall j | 0 <= j < i :: configs[j].Value() == statics[j]
    {
      var c := new StaticConfig(statics[i]);
      configs := configs + [c];
    }
  }

  /** Encoding a request. */
  method Encode(configs: seq<StaticConfig>) returns (statics: seq<Static>)
    ensures statics == Values(configs)
  {
    statics := [];
    for i := 0 to |configs|
      invariant statics == Values(configs)[..i]
    {
      statics := statics + [configs[i].Value()];
    }
  }

  lemma OneMoreTarget(targets: seq<string>, i: nat)
    requires i < |targets|
    ensures TargetSet(targets[..i + 1]) == TargetSet(targets[..i]) + {targets[i]}
    ensures TargetSet(targets[..0]) == {}
  {
    assert targets[..i + 1] == targets[..i] + [targets[i]];
  }

  /** All removals, one after the other. */
  method RemoveTargets(configs0: seq<StaticConfig>, targets: seq<string>) returns (configs: seq<StaticConfig>)
    requires DistinctConfigs(configs0)
    modifies configs0
    ensures Values(configs) ==
      if targets == [] then old(Values(configs0)) else Strip(old(Values(configs0)), TargetSet(targets))
  {
    hide Strip, Keep, TargetSet;
    ghost var was, objects := Values(configs0), set c | c in configs0;
    configs := configs0;
    for i := 0 to |targets|
      invariant DistinctConfigs(configs) && forall c | c in configs :: c in objects
      invariant Values(configs) == if i == 0 then was else Strip(was, TargetSet(targets[..i]))
    {
      ghost var before := TargetSet(targets[..i]);
      configs := RemoveTarget(configs, targets[i], objects);
      OneMoreTarget(targets, i);
      StripTwice(was, before, {targets[i]});
      assert i == 0 ==> before + {targets[i]} == {targets[i]};
    }
    assert targets[..|targets|] == targets;
  }

  /** What a removal leaves of a job's configs. */
  function Remaining(configs: seq<Static>, targets: seq<string>): seq<Static> {
    if targets == [] then configs else Strip(configs, TargetSet(targets))
  }

  /** RemoveExternalInstances: the job goes with its last config. */
  method RemoveExternalInstances(m: Managed, name: string, targets: seq<string>) returns (r: Outcome)
    modifies m
    ensures m.faults >= old(m.faults)
    ensures r.Ok? <==> m.faults == old(m.faults) && name in old(m.jobs)
    ensures r.Err? ==> m.jobs == old(m.jobs)
    ensures r.Ok? ==>
      var left := Remaining(old(m.jobs)[name].configs, targets);
      m.jobs == if left == [] then old(m.jobs) - {name} else old(m.jobs)[name := old(m.jobs)[name].(configs := left)]
  {
    var got := m.Get(name);
    if got.Failure? { return Err(got.error); }
    var job := got.value;
    var configs := Decode(job.configs);
    configs := RemoveTargets(configs, targets);
    if |configs| == 0 {
      r := m.Delete(name);
      return;
    }
    var left := Encode(configs);
    r := m.Store(name, job.(configs := left));
  }

  /** A job is as it was after its new targets are removed again, under the same condition, unless it had no config. */
  lemma JobIsRestored(jobs: map<string, Job>, name: string, targets: seq<Target>, names: seq<string>)
    requires name in jobs && targets != [] && TargetSet(names) == TargetNames(targets)
    ensures
      var job := jobs[name];
      var added := jobs[name := job.(configs := job.configs + Fresh(targets))];
      var left := Remaining(added[name].configs, names);
      var after := if left == [] then added - {name} else added[name := added[name].(configs := left)];
      after == jobs <==> job.configs != [] && forall c | c in job.configs :: Unaffected(c, TargetNames(targets))
  {
    hide Strip, Fresh;
    var job := jobs[name];
    RemoveUndoesAdd(job.configs, targets);
    assert targets[0].target in TargetNames(targets);
    assert names != [];
    var added := jobs[name := job.(configs := job.configs + Fresh(targets))];
    var left := Remaining(added[name].configs, names);
    assert left == Strip(job.configs + Fresh(targets), TargetNames(targets));
    if left == [] {
      assert name !in added - {name};
    } else {
      assert added[name := added[name].(configs := left)][name].configs == left;
      assert left == job.configs ==> added[name := added[name].(configs := left)] == jobs;
    }
  }

  // ---------- adding a whole service ----------

  /** What the command asks for; unset fields are filled in place. */
  class ExternalMetrics {
    var jobName: string
    var interval: int
    var timeout: int
    var path: string
    var scheme: string
    var targets: seq<Target>

    constructor (jobName: string, interval: int, timeout: int, path: string, scheme: string, targets: seq<Target>)
      ensures this.jobName == jobName && this.interval == interval && this.timeout == timeout
      ensures this.path == path && this.scheme == scheme && this.targets == targets
    {
      this.jobName, this.interval, this.timeout := jobName, interval, timeout;
      this.path, this.scheme, this.targets := path, scheme, targets;
    }

    function Wanted(): Job
      reads this
    {
      Job(interval, timeout, path, scheme, Fresh(targets))
    }
  }

  /** Unset fields come from the job that exists. */
  function Filled(wanted: Job, job: Job): Job {
    wanted.(interval := if wanted.interval == 0 then job.interval else wanted.interval,
            timeout := if wanted.timeout == 0 then job.timeout else wanted.timeout,
            path := if wanted.path == "" then job.path else wanted.path,
            scheme := if wanted.scheme == "" then job.scheme else wanted.scheme)
  }

  /** The two differ in their targets only. */
  predicate SameSettings(a: Job, b: Job) { a.(configs := b.configs) == b }

  /** Unset fields are filled in place from the existing job. */
  method FillIn(ext: ExternalMetrics, job: Job)
    modifies ext
    ensures ext.jobName == old(ext.jobName) && ext.targets == old(ext.targets)
    ensures ext.Wanted() == Filled(old(ext.Wanted()), job)
  {
    if ext.interval == 0 { ext.interval := job.interval; }
    if ext.timeout == 0 { ext.timeout := job.timeout; }
    if ext.path == "" { ext.path := job.path; }
    if ext.scheme == "" { ext.scheme := job.scheme; }
  }

  /** The checks that --force skips. */
  method CheckUnchanged(ext: ExternalMetrics, job: Job) returns (r: Outcome)
    ensures r.Ok? <==> SameSettings(ext.Wanted(), job)
  {
    if ext.interval != job.interval { return Err(Failed); }
    if ext.timeout != job.timeout { return Err(Failed); }
    if ext.path != job.path { return Err(Failed); }
    if ext.scheme != job.scheme { return Err(Failed); }
    return Ok;
  }

  /**
   * AddExternalService: an existing job keeps its settings unless forced, but it keeps none of its targets:
   * the configs are those of the request alone.
   */
  method AddExternalService(m: Managed, ext: ExternalMetrics, force: bool) returns (r: Outcome)
    modifies m, ext
    ensures m.faults >= old(m.faults)
    ensures ext.jobName == old(ext.jobName) && ext.targets == old(ext.targets)
    ensures
      var name, asked := old(ext.jobName), old(ext.Wanted());
      var wanted := if name in old(m.jobs) then Filled(asked, old(m.jobs)[name]) else asked;
      && (r.Ok? <==>
            m.faults == old(m.faults) && (name in old(m.jobs) && !force ==> SameSettings(wanted, old(m.jobs)[name])))
      && m.jobs == (if r.Ok? then old(m.jobs)[name := wanted] else old(m.jobs))
  {
    hide Filled, SameSettings, Fresh;
    var got := m.Get(ext.jobName);
    if got.Success? {
      FillIn(ext, got.value);
      if !force {
        r := CheckUnchanged(ext, got.value);
        if r.Err? { return; }
      }
    } else if got.error != NoService {
      return Err(Failed);
    }
    var configs := MakeConfigs(ext.targets);
    r := m.Store(ext.jobName, Job(ext.interval, ext.timeout, ext.path, ext.scheme, configs));
  }
}
