/** Starting, stopping and restarting what is installed. */
module StartStop {
  import opened Stores
  import opened Transitions
  import opened Monitor
  import opened Services
  import opened Lookup

  datatype Action = Start | Stop | Restart

  datatype Effect = Affected | Already | Error

  /** The state a service is to end in. */
  predicate Target(action: Action) { action != Stop }

  /** A restart acts on every service, the others only on those not yet in the wanted state. */
  predicate Concerns(action: Action, running: bool) {
    action == Restart || running != Target(action)
  }

  /**
   * One service: already in the wanted state, brought there, or failed; or its status could not be queried. What a
   * restart affects is started anew.
   */
  method Apply(a: Admin, action: Action, name: string) returns (e: Effect, ghost unseen: bool, ghost anew: bool)
    requires name in a.units
    modifies a`units, a`faults
    ensures a.faults >= old(a.faults)
    ensures a.units.Keys == old(a.units).Keys
    ensures forall u | u in a.units && u != name :: a.units[u] == old(a.units)[u]
    ensures a.faults == old(a.faults) ==>
      !unseen && e == if Concerns(action, old(a.units)[name]) then Affected else Already
    ensures e == Error ==> a.faults > old(a.faults)
    ensures e != Error ==> a.units[name] == Ends(action, old(a.units)[name], unseen)
    ensures action == Restart && e != Error ==> anew || unseen
  {
    anew := false;
    ghost var answered;
    match action {
      case Start =>
        var running := GetServiceStatus(a, name);
        unseen := a.faults > old(a.faults);
        if running { return Already, unseen, anew; }
        var r;
        r, answered, anew := StartService(a, name);
        return if r.Ok? then Affected else Error, unseen, anew;
      case Stop =>
        var running := GetServiceStatus(a, name);
        unseen := a.faults > old(a.faults);
        if !running { return Already, unseen, anew; }
        var r := StopService(a, name);
        return if r.Ok? then Affected else Error, r.Ok? && a.faults > old(a.faults), anew;
      case Restart =>
        var r := StopService(a, name);
        unseen := r.Ok? && a.faults > old(a.faults);
        if r.Err? { return Error, unseen, anew; }
        r, answered, anew := StartService(a, name);
        return if r.Ok? then Affected else Error, unseen, anew;
    }
  }

  /** How a service ends without an error: a stop leaves running what ran and could not be queried. */
  predicate Ends(action: Action, running: bool, unseen: bool) {
    if action == Stop then running && unseen else true
  }

  /** The services an action has something to do for. */
  function Concerned(units: map<string, bool>, action: Action): set<string> {
    set u | u in units && Concerns(action, units[u])
  }

  /**
   * Every local service is affected, failed or already there. Without failures the affected ones are exactly
   * those concerned. Whatever fails, no reported error means that all run after a start or a restart; and
   * that after a stop exactly those still run that ran before and whose status query failed. A restart without errors
   * has started every service anew, but for those whose status query failed.
   */
  method StartStopAllMonitoring(a: Admin, action: Action)
    returns (numOfAffected: nat, numOfAll: nat, errors: nat, ghost already: nat, ghost unseen: set<string>,
             ghost anew: set<string>)
    modifies a`units, a`faults
    ensures a.faults >= old(a.faults)
    ensures numOfAll == |old(a.units)| && numOfAffected + errors + already == numOfAll
    ensures a.units.Keys == old(a.units).Keys && unseen <= a.units.Keys
    ensures a.faults == old(a.faults) ==>
      errors == 0 && numOfAffected == |Concerned(old(a.units), action)| && unseen == {}
    ensures errors == 0 ==> forall u | u in a.units :: a.units[u] == Ends(action, old(a.units)[u], u in unseen)
    ensures errors == 0 && action == Restart ==> anew + unseen == a.units.Keys
  {
    var locals := Listing(a.units.Keys);
    numOfAll := |locals|;
    CountIsConcerned(locals, a.units, action);
    numOfAffected, errors, already, unseen, anew := ApplyEach(a, action, locals);
  }

  function Count(list: seq<string>, units: map<string, bool>, action: Action): nat
    requires forall s | s in list :: s in units
  {
    if list == [] then 0
    else
      var n := |list| - 1;
      assert forall s | s in list[..n] :: s in list;
      Count(list[..n], units, action) + if Concerns(action, units[list[n]]) then 1 else 0
  }

  function ConcernedIn(list: seq<string>, units: map<string, bool>, action: Action): set<string>
    requires forall s | s in list :: s in units
  {
    set u | u in list && Concerns(action, units[u])
  }

  lemma CountStep(list: seq<string>, i: nat, units: map<string, bool>, action: Action)
    requires i < |list| && forall s | s in list :: s in units
    ensures Count(list[..i + 1], units, action) ==
      Count(list[..i], units, action) + if Concerns(action, units[list[i]]) then 1 else 0
  {
    assert list[..i + 1][..i] == list[..i];
  }

  /** The services before position i have ended as they should. */
  predicate Ended(was: map<string, bool>, now: map<string, bool>, locals: seq<string>, i: nat, action: Action,
                  unseen: set<string>, anew: set<string>)
    requires i <= |locals| && forall s | s in locals :: s in was && s in now
  {
    forall j | 0 <= j < i ::
      now[locals[j]] == Ends(action, was[locals[j]], locals[j] in unseen) &&
      (action == Restart ==> locals[j] in anew || locals[j] in unseen)
  }

  /** Those from there on are as they were. */
  predicate Waiting(was: map<string, bool>, now: map<string, bool>, locals: seq<string>, i: nat, unseen: set<string>)
    requires i <= |locals| && forall s | s in locals :: s in was && s in now
  {
    forall j | i <= j < |locals| :: locals[j] !in unseen && now[locals[j]] == was[locals[j]]
  }

  lemma OneMoreEnded(was: map<string, bool>, before: map<string, bool>, now: map<string, bool>, locals: seq<string>,
                     i: nat,
                     action: Action, unseen: set<string>, anew: set<string>, missed: bool, started: bool)
    requires i < |locals| && forall s | s in locals :: s in was && s in before && s in now
    requires forall i, j | 0 <= i < j < |locals| :: locals[i] != locals[j]
    requires Waiting(was, before, locals, i, unseen)
    requires forall u | u in now && u in before && u != locals[i] :: now[u] == before[u]
    ensures
      var unseen' := if missed then unseen + {locals[i]} else unseen;
      var anew' := if started then anew + {locals[i]} else anew;
      && Waiting(was, now, locals, i + 1, unseen')
      && (Ended(was, before, locals, i, action, unseen, anew) &&
          now[locals[i]] == Ends(action, was[locals[i]], missed) && (action == Restart ==> started || missed) ==>
            Ended(was, now, locals, i + 1, action, unseen', anew'))
  {
    hide Ends;
  }

  lemma AllEnded(was: map<string, bool>, now: map<string, bool>, locals: seq<string>, action: Action,
                 unseen: set<string>, anew: set<string>)
    requires forall s :: s in locals <==> s in was
    requires was.Keys == now.Keys && Ended(was, now, locals, |locals|, action, unseen, anew)
    ensures forall u | u in now :: now[u] == Ends(action, was[u], u in unseen)
    ensures action == Restart ==> now.Keys <= anew + unseen
  {
    hide Ends;
    forall u | u in now
      ensures now[u] == Ends(action, was[u], u in unseen) && (action == Restart ==> u in anew || u in unseen)
    {
      var j :| 0 <= j < |locals| && locals[j] == u;
    }
  }

  /** The loop. */
  method ApplyEach(a: Admin, action: Action, locals: seq<string>)
    returns (affected: nat, errors: nat, ghost already: nat, ghost unseen: set<string>, ghost anew: set<string>)
    requires forall s :: s in locals <==> s in a.units
    requires forall i, j | 0 <= i < j < |locals| :: locals[i] != locals[j]
    modifies a`units, a`faults
    ensures a.faults >= old(a.faults)
    ensures affected + errors + already == |locals|
    ensures a.units.Keys == old(a.units).Keys && unseen <= a.units.Keys
    ensures a.faults == old(a.faults) ==> errors == 0 && affected == Count(locals, old(a.units), action) && unseen == {}
    ensures errors == 0 ==> forall u | u in a.units :: a.units[u] == Ends(action, old(a.units)[u], u in unseen)
    ensures errors == 0 && action == Restart ==> anew + unseen == a.units.Keys
  {
    hide Ended, Waiting, Ends, Concerns, Count;
    affected, errors, already, unseen, anew := 0, 0, 0, {}, {};
    ghost var was := a.units;
    NothingEnded(was, locals, action);
    for i := 0 to |locals|
      invariant a.faults >= old(a.faults)
      invariant affected + errors + already == i
      invariant a.units.Keys == was.Keys && unseen <= was.Keys && anew <= was.Keys
      invariant Waiting(was, a.units, locals, i, unseen)
      invariant a.faults == old(a.faults) ==> errors == 0 && affected == Count(locals[..i], was, action) && unseen == {}
      invariant errors == 0 ==> Ended(was, a.units, locals, i, action, unseen, anew)
    {
      assert locals[i] in locals;
      CountStep(locals, i, was, action);
      StillAsBefore(was, a.units, locals, i, unseen);
      ghost var before := a.units;
      var e;
      ghost var missed, started;
      e, missed, started := Apply(a, action, locals[i]);
      OneMoreEnded(was, before, a.units, locals, i, action, unseen, anew, missed, started);
      affected := affected + if e == Affected then 1 else 0;
      already := already + if e == Already then 1 else 0;
      errors := errors + if e == Error then 1 else 0;
      unseen := if missed then unseen + {locals[i]} else unseen;
      anew := if started then anew + {locals[i]} else anew;
    }
    assert locals[..|locals|] == locals;
    if errors == 0 {
      AllEnded(was, a.units, locals, action, unseen, anew);
    }
  }

  lemma NothingEnded(was: map<string, bool>, locals: seq<string>, action: Action)
    requires forall s | s in locals :: s in was
    ensures Waiting(was, was, locals, 0, {}) && Ended(was, was, locals, 0, action, {}, {})
    ensures Count(locals[..0], was, action) == 0
  {
  }

  lemma StillAsBefore(was: map<string, bool>, now: map<string, bool>, locals: seq<string>, i: nat, unseen: set<string>)
    requires i < |locals| && (forall s | s in locals :: s in was && s in now) && Waiting(was, now, locals, i, unseen)
    ensures now[locals[i]] == was[locals[i]]
  {
  }

  /** Counting along a listing counts the set. */
  lemma {:induction false} CountIsSet(list: seq<string>, units: map<string, bool>, action: Action)
    requires forall s | s in list :: s in units
    requires forall i, j | 0 <= i < j < |list| :: list[i] != list[j]
    ensures Count(list, units, action) == |ConcernedIn(list, units, action)|
  {
    hide Concerns;
    if list != [] {
      var n := |list| - 1;
      var init, last := list[..n], list[n];
      assert list == init + [last] && last !in init;
      CountIsSet(init, units, action);
      forall s
        ensures s in list <==> s in init || s == last
      {
      }
      if Concerns(action, units[last]) {
        assert ConcernedIn(list, units, action) == ConcernedIn(init, units, action) + {last};
      } else {
        assert ConcernedIn(list, units, action) == ConcernedIn(init, units, action);
      }
    }
  }

  lemma CountIsConcerned(list: seq<string>, units: map<string, bool>, action: Action)
    requires forall s :: s in list <==> s in units
    requires forall i, j | 0 <= i < j < |list| :: list[i] != list[j]
    ensures Count(list, units, action) == |Concerned(units, action)|
  {
    hide Concerns;
    CountIsSet(list, units, action);
    assert ConcernedIn(list, units, action) == Concerned(units, action);
  }

  /** A repeated start or stop has nothing left to do. */
  lemma SecondTimeNothing(was: map<string, bool>, units: map<string, bool>, action: Action)
    requires action != Restart && units.Keys == was.Keys && forall u | u in units ::
      units[u] == Ends(action, was[u], false)
    ensures |Concerned(units, action)| == 0
  {
    assert Concerned(units, action) == {};
  }

  /** A restart concerns every service. */
  lemma RestartConcernsAll(units: map<string, bool>)
    ensures |Concerned(units, Restart)| == |units|
  {
    assert Concerned(units, Restart) == units.Keys;
  }

  /** StartStopMonitoring: the one service of this kind and alias. */
  method StartStopMonitoring(a: Admin, action: Action, kind: string)
    returns (affected: bool, r: Outcome, ghost unseen: bool, ghost anew: bool)
    modifies a`units, a`faults
    ensures a.faults >= old(a.faults)
    ensures a.units.Keys == old(a.units).Keys
    ensures r.Err? ==> !affected
    ensures kind !in SvcTypes ==> r == Err(Failed) && a.units == old(a.units)
    ensures
      var none := kind in SvcTypes && !Monitored(a.Services(), kind, a.serviceName);
      (r == Err(NoService) <==> a.faults == old(a.faults) && none) && (none ==> a.units == old(a.units))
    ensures kind in SvcTypes && Monitored(a.Services(), kind, a.serviceName) ==>
      exists id | id in a.Services() && Matches(a.Services()[id], kind, a.serviceName) ::
        Switched(old(a.units), a.units, UnitOfService(a.Services()[id]), action, affected, r.Ok?,
                 a.faults == old(a.faults), unseen)
    ensures r.Ok? && action != Stop ==> affected || a.faults == old(a.faults)
    ensures affected && action == Restart ==> anew || unseen
  {
    hide SvcTypes, UnitName, Matches, MetricsKind, QueriesKind;
    affected, unseen, anew := false, false, false;
    if kind !in SvcTypes { return false, Err(Failed), unseen, anew; }
    var found := GetConsulService(a, kind, a.serviceName);
    if found.Failure? {
      if Monitored(a.Services(), kind, a.serviceName) {
        ghost var id :| id in a.Services() && Matches(a.Services()[id], kind, a.serviceName);
        assert Switched(old(a.units), a.units, UnitOfService(a.Services()[id]), action, false, false, false, unseen);
      }
      return false, Err(Failed), unseen, anew;
    }
    if found.value.None? { return false, Err(NoService), unseen, anew; }
    var svc := found.value.value.svc;
    affected, r, unseen, anew := Switch(a, action, UnitOfService(svc));
    assert Switched(old(a.units), a.units, UnitOfService(svc), action, affected, r.Ok?, a.faults == old(a.faults),
                    unseen);
  }

  /** One service switched, or left as it was; only this one can have changed. */
  ghost predicate Switched(was: map<string, bool>, now: map<string, bool>, name: string, action: Action,
                           affected: bool, ok: bool, faultless: bool, unseen: bool)
  {
    && now.Keys == was.Keys
    && (forall u | u in was && u != name :: now[u] == was[u])
    && (ok && name in was ==> now[name] == Ends(action, was[name], unseen)) && (unseen ==> !faultless)
    && (faultless && name in was ==>
          ok && now[name] == Target(action) && (affected <==> Concerns(action, was[name])))
    && (faultless && name !in was ==> (ok <==> action == Stop) && !affected)
  }

  method Switch(a: Admin, action: Action, name: string)
    returns (affected: bool, r: Outcome, ghost unseen: bool, ghost anew: bool)
    modifies a`units, a`faults
    ensures a.faults >= old(a.faults)
    ensures r.Err? ==> !affected && r.error == Failed
    ensures r.Ok? && action != Stop ==> affected || a.faults == old(a.faults)
    ensures affected && action == Restart ==> anew || unseen
    ensures Switched(old(a.units), a.units, name, action, affected, r.Ok?, a.faults == old(a.faults), unseen)
  {
    unseen, anew := false, false;
    ghost var answered;
    match action {
      case Start =>
        var running := GetServiceStatus(a, name);
        if running { return false, Ok, unseen, anew; }
        var s;
        s, answered, anew := StartService(a, name);
        if s.Err? { return false, Err(Failed), unseen, anew; }
      case Stop =>
        var running := GetServiceStatus(a, name);
        unseen := a.faults > old(a.faults);
        if !running { return false, Ok, unseen, anew; }
        var s := StopService(a, name);
        unseen := s.Ok? && a.faults > old(a.faults);
        if s.Err? { return false, Err(Failed), unseen, anew; }
      case Restart =>
        var s := StopService(a, name);
        unseen := s.Ok? && a.faults > old(a.faults);
        if s.Err? { return false, Err(Failed), unseen, anew; }
        s, answered, anew := StartService(a, name);
        if s.Err? { return false, Err(Failed), unseen, anew; }
    }
    return true, Ok, unseen, anew;
  }
}
