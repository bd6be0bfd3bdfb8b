/** The convergence of one service (pkg/compose/convergence.go): ensureService
    reconciles the containers observed for a service with its desired scale and
    configuration. */
module Convergence {
  import opened Wrappers
  import opened Collections
  import opened Digraphs
  import opened Containers
  import opened ReplicaOrder
  import opened References
  import opened Engines

  // ---- the plan ----

  function NeedsStart(state: ContainerState): bool {
    state.Other? || state.Unreported?
  }

  /** What is planned for slot i: the arranged containers come first, new ones follow. */
  ghost function PlannedTask(env: Env, s: Service, policy: Policy, cs: seq<Container>, next: int, i: nat): Task {
    if i >= |cs| then Create(next + i - |cs|)
    else if i >= s.scale then Drop(cs[i])
    else if MustRecreate(env, s, cs[i], policy) == Some(true) then Recreate(cs[i])
    else Keep(cs[i], NeedsStart(cs[i].state))
  }

  /** A container that is kept is started in the few states in which it does not
      run and has not been created, stopped or is about to restart. */
  lemma StartsIff(env: Env, s: Service, policy: Policy, cs: seq<Container>, next: int, i: nat)
    ensures PlannedTask(env, s, policy, cs, next, i).Keep? ==>
              && i < |cs| && i < s.scale
              && (PlannedTask(env, s, policy, cs, next, i).start <==>
                  cs[i].state !in {Running, ContainerState.Created, Restarting, Exited})
  {
  }

  function Ids(cs: seq<Container>): set<string> {
    set c <- cs :: c.id
  }

  ghost predicate UniqueIds(cs: seq<Container>) {
    forall i, j :: 0 <= i < j < |cs| ==> cs[i].id != cs[j].id
  }

  /** next is one above the highest number, and at least one. */
  ghost predicate IsNext(cs: seq<Container>, next: int) {
    && next >= 1
    && (forall c <- cs :: c.Number().Some? ==> c.Number().value < next)
    && (next == 1 || exists c <- cs :: c.Number() == Some(next - 1))
  }

  // ---- the outcome ----

  /** What slot i holds afterwards: an up-to-date container itself, the
      replacement of an obsolete one created under the same number, or a new
      replica. */
  ghost predicate Settled(env: Env, s: Service, policy: Policy, cs: seq<Container>, next: int, i: nat, u: Container) {
    if i >= |cs| then CreatedFor(env, s, next + i - |cs|, u) && u.id !in Ids(cs)
    else
      match MustRecreate(env, s, cs[i], policy)
      case None => false
      case Some(false) => u == cs[i]
      case Some(true) => cs[i].Number().Some? && CreatedFor(env, s, cs[i].Number().value, u) && u.id !in Ids(cs)
  }

  ghost predicate Converges(env: Env, s: Service, policy: Policy, observed: seq<Container>, cs: seq<Container>,
                            next: int, updated: seq<Container>) {
    && multiset(cs) == multiset(observed) && Arranged(env, s, policy, LabelsOf(observed), cs)
    && IsNext(observed, next)
    && |updated| == s.scale && UniqueIds(updated)
    && forall i :: 0 <= i < |updated| ==> Settled(env, s, policy, cs, next, i, updated[i])
  }

  /** An error-free ensureService for a service with resolved references. */
  ghost predicate Converged(env: Env, s: Service, policy: Policy, observed: seq<Container>, updated: seq<Container>) {
    exists cs, next :: Converges(env, s, policy, observed, cs, next, updated)
  }

  lemma SameMembers(cs: seq<Container>, ds: seq<Container>)
    requires multiset(cs) == multiset(ds)
    ensures |cs| == |ds| && Ids(cs) == Ids(ds) && LabelsOf(cs) == LabelsOf(ds)
    ensures forall c :: c in cs <==> c in ds
    ensures UniqueIds(cs) ==> UniqueIds(ds)
  {
    assert |multiset(cs)| == |cs| && |multiset(ds)| == |ds|;
    assert forall c :: (c in cs <==> c in multiset(cs)) && (c in ds <==> c in multiset(ds));
    if UniqueIds(cs) {
      forall i, j | 0 <= i < j < |ds| ensures ds[i].id != ds[j].id {
        var a := IndexOf(cs, ds[i]);
        var b := IndexOf(cs, ds[j]);
        if ds[i] == ds[j] {
          OnceOnly(ds, i, j);
          TwoPlaces(cs, ds[i]);
        } else if a < b {
          assert cs[a].id != cs[b].id;
        } else {
          assert cs[b].id != cs[a].id;
        }
      }
    }
  }

  lemma IndexOf(cs: seq<Container>, c: Container) returns (i: nat)
    requires c in cs
    ensures i < |cs| && cs[i] == c
  {
    i :| i < |cs| && cs[i] == c;
  }

  /** Distinct IDs make every container occur once. */
  lemma {:induction false} TwoPlaces(cs: seq<Container>, c: Container)
    requires UniqueIds(cs)
    ensures multiset(cs)[c] <= 1
  {
    if cs != [] {
      var n := |cs| - 1;
      assert cs == cs[..n] + [cs[n]];
      TwoPlaces(cs[..n], c);
      if cs[n] == c {
        assert c !in cs[..n];
      }
    }
  }

  // ---- the program ----

  /** The containers of the dependents have been stopped: only states differ. */
  ghost predicate OnlyStates(before: Observed, after: Observed, dependents: seq<Name>) {
    forall n ::
      && (n !in dependents ==> Get(after, n) == Get(before, n))
      && |Get(after, n)| == |Get(before, n)|
      && forall i :: 0 <= i < |Get(before, n)| ==> SameButState(Get(before, n)[i], Get(after, n)[i])
  }

  ghost predicate AllExited(observed: Observed, names: seq<Name>) {
    forall n <- names, i | 0 <= i < |Get(observed, n)| :: Get(observed, n)[i].state == Exited
  }

  predicate SameButState(c: Container, d: Container) {
    d == c.(state := d.state)
  }

  function OfService(state: seq<Container>, n: Name): seq<Container> {
    if state == [] then []
    else
      var c := state[|state| - 1];
      OfService(state[..|state| - 1], n) + if c.service == n then [c] else []
  }

  /** Where the state has containers of service n. */
  ghost function PlacesOfService(state: seq<Container>, n: Name): set<nat> {
    set k: nat | k < |state| && state[k].service == n
  }

  /** They are listed in order, each once. */
  lemma {:induction false} OfServiceAre(state: seq<Container>, n: Name) returns (at: seq<nat>)
    ensures Places(at, PlacesOfService(state, n))
    ensures |OfService(state, n)| == |at|
    ensures forall i :: 0 <= i < |at| ==> at[i] < |state| && OfService(state, n)[i] == state[at[i]]
  {
    at := [];
    if state != [] {
      var last := |state| - 1;
      at := OfServiceAre(state[..last], n);
      LastPlace(state, n);
      if state[last].service == n {
        PlacesMore(at, PlacesOfService(state[..last], n), last);
        at := at + [last];
      }
    }
  }

  lemma LastPlace(state: seq<Container>, n: Name)
    requires state != []
    ensures var last := |state| - 1;
            PlacesOfService(state, n) ==
            PlacesOfService(state[..last], n) + if state[last].service == n then {last} else {}
  {
  }

  function Stopped(cs: seq<Container>): seq<Container> {
    seq(|cs|, i requires 0 <= i < |cs| => cs[i].(state := Exited))
  }

  /** Every service that is named or has containers is listed with them. */
  ghost predicate Groups(names: seq<Name>, state: seq<Container>, observed: Observed) {
    && (forall n :: Get(observed, n) == OfService(state, n))
    && forall n :: n in observed <==> n in names || OfService(state, n) != []
  }

  /** The containers that are not one-off, by service. */
  method GroupByService(names: seq<Name>, state: seq<Container>) returns (observed: Observed)
    ensures Groups(names, state, observed)
  {
    observed := map[];
    for i := 0 to |names|
      invariant Groups(names[..i], [], observed)
    {
      assert names[..i + 1] == names[..i] + [names[i]];
      assert Get(observed, names[i]) == OfService([], names[i]);
      observed := observed[names[i] := []];
    }
    assert names[..|names|] == names;
    for i := 0 to |state|
      invariant Groups(names, state[..i], observed)
    {
      var c := state[i];
      assert state[..i + 1][..i] == state[..i];
      observed := observed[c.service := Get(observed, c.service) + [c]];
    }
    assert state[..|state|] == state;
  }

  predicate CannotHash(env: Env, s: Service, policy: Policy) {
    policy.RecreateDiverged? && ServiceHash(env, s).None?
  }

  /** What an error of ensureService says. */
  ghost predicate Warranted(f: Failure, observed: Observed, env: Env, s: Service, policy: Policy) {
    match f
    case PluginFailed => s.provider
    case ScaleConflict => s.scale > 1 && s.hashed.containerName != ""
    case HashFailed => exists h :: Resolves(observed, s.hashed, h) && CannotHash(env, s.(hashed := h), policy)
    case StopFailed => true     // a call to the engine failed
    case EngineFailed => true
    case _ => Unresolvable(observed, s.hashed, f)
  }

  /** The observed state was set at the end: without error, or although a task
      failed. */
  predicate Saved(err: Option<Failure>) {
    err.None? || err.value == EngineFailed
  }

  /** Every slot holds a container that was there before and still is, or one
      created meanwhile, under an ID not used before; or it holds the zero value. */
  ghost predicate Sourced(before: seq<Container>, after: seq<Container>, engine: set<string>,
                          wasUsed: set<string>, used: set<string>) {
    forall id <- Ids(after) - {""} :: (id in Ids(before) && id in engine) || (id !in wasUsed && id in used)
  }

  class Convergence {
    var services: Observed
    const engine: Engine
    const env: Env
    const project: string

    /** newConvergence */
    constructor (names: seq<Name>, state: seq<Container>, engine: Engine, env: Env, project: string)
      ensures this.engine == engine && this.env == env && this.project == project
      ensures Groups(names, state, services)
    {
      var observed := GroupByService(names, state);
      services, this.engine, this.env, this.project := observed, engine, env, project;
    }

    /** Stops the containers of the services that want to be restarted with this
        one. */
    method StopDependentContainers(dependents: seq<Name>) returns (ok: bool)
      requires engine.Valid()
      modifies this`services, engine
      ensures engine.Valid() && engine.Kept()
      ensures OnlyStates(old(services), services, dependents)
      ensures if ok then AllExited(services, dependents) else services == old(services)
      ensures ok ==> forall n <- dependents, c <- Get(services, n) :: c.state == ContainerState.Exited
      ensures ok ==> forall id <- engine.containers :: engine.containers[id].service in dependents ==>
                                                         engine.containers[id].state == Exited
    {
      if |dependents| == 0 {
        return true;
      }
      ok := engine.StopServices(dependents);
      if !ok {
        return;
      }
      MarkExited(dependents);
    }

    /** The loop that notes it in the observed state. */
    method MarkExited(dependents: seq<Name>)
      modifies this`services
      ensures OnlyStates(old(services), services, dependents) && AllExited(services, dependents)
    {
      hide OnlyStates, AllExited, Get, Stopped;
      NoneMarked(services, dependents);
      for i := 0 to |dependents|
        invariant OnlyStates(old(services), services, dependents)
        invariant AllExited(services, dependents[..i])
      {
        var name := dependents[i];
        assert dependents[..i + 1] == dependents[..i] + [name];
        OneMarked(services, dependents[..i], name, dependents);
        OnlyStatesTransitive(old(services), services, services[name := Stopped(Get(services, name))], dependents);
        services := services[name := Stopped(Get(services, name))];
      }
      assert dependents[..|dependents|] == dependents;
    }

    /** The loop over the arranged containers. Before any is recreated, the
        containers of the dependents have been stopped. */
    method PlanObserved(s: Service, policy: Policy, cs: seq<Container>, dependents: seq<Name>)
      returns (tasks: seq<Task>, err: Option<Failure>)
      requires engine.Valid()
      modifies this`services, engine
      ensures engine.Valid() && engine.Kept()
      ensures OnlyStates(old(services), services, dependents)
      ensures (exists t <- tasks :: t.Recreate?) ==> AllExited(services, dependents)
      ensures |tasks| <= |cs| && (err.None? ==> |tasks| == |cs|)
      ensures forall i :: 0 <= i < |tasks| ==> tasks[i] == PlannedTask(env, s, policy, cs, 0, i)
      ensures err.None? ==> forall i :: 0 <= i < |cs| && i < s.scale ==> MustRecreate(env, s, cs[i], policy).Some?
      ensures err.Some? ==> err.value == StopFailed || (err.value == HashFailed && CannotHash(env, s, policy))
    {
      tasks, err := [], None;
      for i := 0 to |cs|
        invariant engine.Valid() && engine.Kept() && |tasks| == i
        invariant OnlyStates(old(services), services, dependents)
        invariant (exists t <- tasks :: t.Recreate?) ==> AllExited(services, dependents)
        invariant forall j :: 0 <= j < i ==> tasks[j] == PlannedTask(env, s, policy, cs, 0, j)
        invariant forall j :: 0 <= j < i && j < s.scale ==> MustRecreate(env, s, cs[j], policy).Some?
      {
        if i >= s.scale {
          tasks := tasks + [Drop(cs[i])];
          continue;
        }
        var must := DecideRecreate(env, s, cs[i], policy);
        if must.None? {
          return tasks, Some(HashFailed);
        }
        if must.value {
          ghost var before := services;
          var ok := StopDependentContainers(dependents);
          OnlyStatesTransitive(old(services), before, services, dependents);
          if !ok {
            return tasks, Some(StopFailed);
          }
          tasks := tasks + [Recreate(cs[i])];
        } else {
          tasks := tasks + [Keep(cs[i], NeedsStart(cs[i].state))];
        }
      }
    }

    /** The tasks for all slots, or those planned until an error was found. */
    method Plan(s: Service, policy: Policy, cs: seq<Container>, dependents: seq<Name>)
      returns (tasks: seq<Task>, next: int, err: Option<Failure>)
      requires engine.Valid() && UniqueIds(cs) && s.name !in dependents
      modifies this`services, engine
      ensures engine.Valid() && engine.Kept() && IsNext(cs, next)
      ensures forall n :: n != s.name ==> SameReplicas(Get(old(services), n), Get(services, n))
      ensures Get(services, s.name) == Get(old(services), s.name)
      ensures err.None? ==> |tasks| == if |cs| > s.scale then |cs| else s.scale
      ensures forall i :: 0 <= i < |tasks| ==> tasks[i] == PlannedTask(env, s, policy, cs, next, i)
      ensures err.None? ==> forall i :: 0 <= i < |cs| && i < s.scale ==> MustRecreate(env, s, cs[i], policy).Some?
      ensures err.Some? ==> err.value == StopFailed || (err.value == HashFailed && CannotHash(env, s, policy))
      ensures IndependentTasks(tasks) && AllVictims(tasks, All(tasks)) <= Ids(cs)
      ensures forall t <- tasks :: t.Victims() <= Ids(cs)
    {
      tasks, err := PlanObserved(s, policy, cs, dependents);
      next := NextContainerNumber(cs);
      if err.None? && s.scale > |cs| {
        tasks := tasks + seq(s.scale - |cs|, i => Create(next + i));
      }
      TasksIndependent(env, s, policy, cs, next, tasks);
    }

    /** ensureService. A provider service is left to its plugin. Otherwise, if no
        error is returned, the service has converged and the engine holds the new
        containers instead of the observed ones; nothing of another service has
        changed but the state of containers that depend on this one. */
    method EnsureService(service: Service, policy: Policy, dependents: seq<Name>) returns (err: Option<Failure>)
      requires engine.Valid() && service.name !in dependents
      requires UniqueIds(Get(services, service.name)) && Ids(Get(services, service.name)) <= engine.containers.Keys
      modifies this`services, engine
      ensures engine.Valid()
      ensures forall n :: n != service.name ==> SameReplicas(Get(old(services), n), Get(services, n))
      ensures service.provider ==> services == old(services) && unchanged(engine)
      ensures err.None? && !service.provider ==>
                exists h :: Resolves(old(services), service.hashed, h)
                         && Converged(env, service.(hashed := h), policy, Get(old(services), service.name),
                                      Get(services, service.name))
      ensures err.None? && !service.provider ==>
                engine.containers.Keys ==
                  old(engine.containers).Keys - Ids(Get(old(services), service.name)) + Ids(Get(services, service.name))
      ensures old(engine.containers).Keys - Ids(Get(old(services), service.name)) <= engine.containers.Keys
      ensures old(engine.containers).Keys - engine.containers.Keys <= engine.halted
      ensures err.Some? ==> Warranted(err.value, old(services), env, service, policy)
      ensures !service.provider ==>
                (err == Some(ScaleConflict) <==> service.scale > 1 && service.hashed.containerName != "")
      ensures Saved(err) && !service.provider ==>
                Sourced(Get(old(services), service.name), Get(services, service.name), engine.containers.Keys,
                        old(engine.used), engine.used)
      ensures err.None? && !service.provider && "" in Ids(Get(services, service.name)) ==>
                "" in Ids(Get(old(services), service.name))
    {
      if service.provider {
        var ok: bool := *;
        return if ok then None else Some(PluginFailed);
      }
      if GetScale(service).None? {
        return Some(ScaleConflict);
      }
      var observed := Get(services, service.name);
      var resolved := ResolveServiceReferences(services, service.hashed);
      if resolved.Err? {
        return Some(resolved.error);
      }
      var s := service.(hashed := resolved.value);
      var cs := Arrange(env, s, policy, observed);
      SameMembers(observed, cs);
      err := Reconcile(s, policy, observed, cs, dependents);
    }

    /** The rest of ensureService, for resolved references and arranged
        containers. */
    method Reconcile(s: Service, policy: Policy, observed: seq<Container>, cs: seq<Container>, dependents: seq<Name>)
      returns (err: Option<Failure>)
      requires engine.Valid() && s.name !in dependents && observed == Get(services, s.name)
      requires multiset(cs) == multiset(observed) && Arranged(env, s, policy, LabelsOf(observed), cs)
      requires UniqueIds(cs) && Ids(cs) <= engine.containers.Keys
      modifies this`services, engine
      ensures engine.Valid()
      ensures forall n :: n != s.name ==> SameReplicas(Get(old(services), n), Get(services, n))
      ensures err.None? ==> Converged(env, s, policy, observed, Get(services, s.name))
      ensures err.None? ==> engine.containers.Keys == old(engine.containers).Keys - Ids(cs) + Ids(Get(services, s.name))
      ensures old(engine.containers).Keys - Ids(cs) <= engine.containers.Keys
      ensures old(engine.containers).Keys - engine.containers.Keys <= engine.halted
      ensures err.Some? ==>
                err.value in {StopFailed, EngineFailed} || (err.value == HashFailed && CannotHash(env, s, policy))
      ensures Saved(err) ==> Sourced(cs, Get(services, s.name), engine.containers.Keys, old(engine.used), engine.used)
      ensures err.None? && "" in Ids(Get(services, s.name)) ==> "" in Ids(cs)
    {
      hide Sourced, Converged, Arranged, UniqueNumbers, CannotHash, IsNext, PlannedTask, Yields, Achieves, CreatedApart;
      hide IndependentTasks, MustRecreate, OnlyStates, Ids, UniqueIds;
      var tasks, next;
      tasks, next, err := Plan(s, policy, cs, dependents);
      var results, ok := RunAll(engine, env, project, s, tasks);
      if err.Some? {
        return;   // the goroutines that were started run on; the observed state stays as it is
      }
      services := services[s.name := Collect(results, s.scale)];
      SlotsSourced(env, s, policy, cs, next, tasks, results, old(engine.containers).Keys, engine.containers.Keys,
                   old(engine.used), engine.used, ok);
      if ok {
        SlotsConverged(env, s, policy, observed, cs, next, tasks, results);
      } else {
        err := Some(EngineFailed);
      }
    }
  }

  lemma SlotsConverged(env: Env, s: Service, policy: Policy, observed: seq<Container>, cs: seq<Container>, next: int,
                       tasks: seq<Task>, results: seq<Option<Container>>)
    requires multiset(cs) == multiset(observed) && Arranged(env, s, policy, LabelsOf(observed), cs)
    requires IsNext(cs, next)
    requires UniqueIds(cs) && |results| == |tasks| && |tasks| == (if |cs| > s.scale then |cs| else s.scale)
    requires forall i :: 0 <= i < |tasks| ==> tasks[i] == PlannedTask(env, s, policy, cs, next, i)
    requires forall i :: 0 <= i < |cs| && i < s.scale ==> MustRecreate(env, s, cs[i], policy).Some?
    requires forall i :: 0 <= i < |tasks| ==> Achieves(env, s, tasks[i], results[i])
    requires CreatedApart(tasks, results, All(tasks)) && AllCreated(tasks, results, All(tasks)) !! Ids(cs)
    ensures Converged(env, s, policy, observed, Collect(results, s.scale))
    ensures Ids(Collect(results, s.scale)) ==
              Ids(cs) - AllVictims(tasks, All(tasks)) + AllCreated(tasks, results, All(tasks))
  {
    var updated := Collect(results, s.scale);
    Settles(env, s, policy, cs, next, tasks, results, updated);
    SameMembers(cs, observed);
    assert Converges(env, s, policy, observed, cs, next, updated);
  }

  /** The slots of updated; a failed creation leaves the zero value there. */
  function Collect(results: seq<Option<Container>>, scale: nat): (updated: seq<Container>)
    requires |results| >= scale
    ensures |updated| == scale
    ensures forall i :: 0 <= i < scale && results[i].Some? ==> updated[i] == results[i].value
  {
    seq(scale, i requires 0 <= i < scale =>
      match results[i] case Some(c) => c case None => Container("", "", "", "", "", "", Unreported, {}, {}, 0))
  }

  lemma SlotsSourced(env: Env, s: Service, policy: Policy, cs: seq<Container>, next: int, tasks: seq<Task>,
                     results: seq<Option<Container>>, before: set<string>, after: set<string>,
                     wasUsed: set<string>, used: set<string>, ok: bool)
    requires UniqueIds(cs) && Ids(cs) <= before && s.scale <= |tasks| == |results|
    requires forall i :: 0 <= i < |tasks| ==> tasks[i] == PlannedTask(env, s, policy, cs, next, i)
    requires forall i :: 0 <= i < |tasks| ==> Yields(tasks[i], results[i])
    requires ok ==> forall i :: 0 <= i < |tasks| ==> Achieves(env, s, tasks[i], results[i])
    requires before - AllVictims(tasks, All(tasks)) <= after
    requires AllCreated(tasks, results, All(tasks)) !! wasUsed + {""} && AllCreated(tasks, results, All(tasks)) <= used
    ensures Sourced(cs, Collect(results, s.scale), after, wasUsed, used)
    ensures ok && "" in Ids(Collect(results, s.scale)) ==> "" in Ids(cs)
  {
    var updated := Collect(results, s.scale);
    forall i | 0 <= i < |updated| && updated[i].id != ""
      ensures (updated[i].id in Ids(cs) && updated[i].id in after) ||
              (updated[i].id !in wasUsed && updated[i].id in used)
    {
      SlotSourced(env, s, policy, cs, next, tasks, results, i);
    }
    forall i | 0 <= i < |updated| && ok && updated[i].id == "" ensures "" in Ids(cs) {
      SlotSourced(env, s, policy, cs, next, tasks, results, i);
      assert Achieves(env, s, tasks[i], results[i]);
    }
    hide PlannedTask, Achieves, Yields, Collect;
  }

  /** A slot is kept, and then no task takes its container away; or it is filled
      with what was created for it, or with the zero value. */
  lemma SlotSourced(env: Env, s: Service, policy: Policy, cs: seq<Container>, next: int, tasks: seq<Task>,
                    results: seq<Option<Container>>, i: nat)
    requires UniqueIds(cs) && i < s.scale <= |tasks| == |results|
    requires forall j :: 0 <= j < |tasks| ==> tasks[j] == PlannedTask(env, s, policy, cs, next, j)
    requires Yields(tasks[i], results[i])
    ensures results[i].Some? ==>
              (tasks[i].Creates() && results[i].value.id in AllCreated(tasks, results, All(tasks))) ||
              (results[i].value.id in Ids(cs) && results[i].value.id !in AllVictims(tasks, All(tasks)))
    ensures results[i].None? ==> Collect(results, s.scale)[i].id == "" && tasks[i].Creates()
  {
    assert i in All(tasks);
    if tasks[i].Keep? {
      forall j | j in All(tasks) ensures cs[i].id !in tasks[j].Victims() {
        assert tasks[j] == PlannedTask(env, s, policy, cs, next, j);
      }
    } else if results[i].Some? {
      assert results[i].value.id in IdOf(results[i]);
    }
  }

  /** The same containers up to their states. */
  ghost predicate SameReplicas(before: seq<Container>, after: seq<Container>) {
    |before| == |after| && forall i :: 0 <= i < |before| ==> SameButState(before[i], after[i])
  }

  lemma TasksIndependent(env: Env, s: Service, policy: Policy, cs: seq<Container>, next: int, tasks: seq<Task>)
    requires UniqueIds(cs)
    requires forall i :: 0 <= i < |tasks| ==> tasks[i] == PlannedTask(env, s, policy, cs, next, i)
    ensures IndependentTasks(tasks)
    ensures forall t <- tasks :: t.Victims() <= Ids(cs)
    ensures AllVictims(tasks, All(tasks)) <= Ids(cs)
  {
  }

  /** The outcome of the planned tasks. */
  lemma Settles(env: Env, s: Service, policy: Policy, cs: seq<Container>, next: int, tasks: seq<Task>,
                results: seq<Option<Container>>, updated: seq<Container>)
    requires UniqueIds(cs) && |results| == |tasks| && |tasks| == (if |cs| > s.scale then |cs| else s.scale)
    requires forall i :: 0 <= i < |tasks| ==> tasks[i] == PlannedTask(env, s, policy, cs, next, i)
    requires forall i :: 0 <= i < |cs| && i < s.scale ==> MustRecreate(env, s, cs[i], policy).Some?
    requires forall i :: 0 <= i < |tasks| ==> Achieves(env, s, tasks[i], results[i])
    requires CreatedApart(tasks, results, All(tasks)) && AllCreated(tasks, results, All(tasks)) !! Ids(cs)
    requires updated == Collect(results, s.scale)
    ensures forall i :: 0 <= i < |updated| ==> Settled(env, s, policy, cs, next, i, updated[i])
    ensures UniqueIds(updated)
    ensures Ids(updated) == Ids(cs) - AllVictims(tasks, All(tasks)) + AllCreated(tasks, results, All(tasks))
  {
    hide UniqueIds, AllCreated, CreatedApart, Settled, CreatedFor, MustRecreate;
    forall i | 0 <= i < |updated|
      ensures Settled(env, s, policy, cs, next, i, updated[i])
      ensures tasks[i].Creates() ==> IdOf(results[i]) == {updated[i].id} && updated[i].id !in Ids(cs)
      ensures !tasks[i].Creates() ==> i < |cs| && updated[i] == cs[i]
    {
      SlotSettles(env, s, policy, cs, next, tasks, results, i);
    }
    hide PlannedTask, Achieves, Collect;
    NewIdsUnique(cs, tasks, results, updated);
    NewIds(cs, tasks, results, updated, s.scale);
  }

  lemma SlotSettles(env: Env, s: Service, policy: Policy, cs: seq<Container>, next: int, tasks: seq<Task>,
                    results: seq<Option<Container>>, i: nat)
    requires i < s.scale <= |tasks| == |results| && tasks[i] == PlannedTask(env, s, policy, cs, next, i)
    requires (i < |cs| ==> MustRecreate(env, s, cs[i], policy).Some?) && Achieves(env, s, tasks[i], results[i])
    requires AllCreated(tasks, results, All(tasks)) !! Ids(cs)
    ensures results[i].Some? && Settled(env, s, policy, cs, next, i, results[i].value)
    ensures tasks[i].Creates() ==> IdOf(results[i]) == {results[i].value.id} && results[i].value.id !in Ids(cs)
    ensures !tasks[i].Creates() ==> i < |cs| && results[i].value == cs[i]
  {
    hide Ids, CreatedFor, MustRecreate;
    assert i in All(tasks);
    if tasks[i].Creates() {
      assert results[i].value.id in IdOf(results[i]);
      assert results[i].value.id in AllCreated(tasks, results, All(tasks));
    }
  }

  lemma NewIdsUnique(cs: seq<Container>, tasks: seq<Task>, results: seq<Option<Container>>, updated: seq<Container>)
    requires UniqueIds(cs) && |results| == |tasks| && |updated| <= |tasks| && CreatedApart(tasks, results, All(tasks))
    requires forall i :: 0 <= i < |updated| && tasks[i].Creates() ==>
               IdOf(results[i]) == {updated[i].id} && updated[i].id !in Ids(cs)
    requires forall i :: 0 <= i < |updated| && !tasks[i].Creates() ==> i < |cs| && updated[i] == cs[i]
    ensures UniqueIds(updated)
  {
  }

  /** A slot either keeps its container or gives it up for a new one. */
  lemma NewIds(cs: seq<Container>, tasks: seq<Task>, results: seq<Option<Container>>, updated: seq<Container>,
               scale: nat)
    requires UniqueIds(cs) && |results| == |tasks| && |updated| == scale <= |tasks| && |cs| <= |tasks|
    requires forall i :: 0 <= i < |tasks| ==> tasks[i].Creates() ==> i < scale
    requires forall i :: 0 <= i < |tasks| ==>
               tasks[i].Victims() == if i < |cs| && !tasks[i].Keep? then {cs[i].id} else {}
    requires forall i :: 0 <= i < scale && tasks[i].Creates() ==>
               IdOf(results[i]) == {updated[i].id} && updated[i].id !in Ids(cs)
    requires forall i :: 0 <= i < scale && !tasks[i].Creates() ==> tasks[i].Keep? && i < |cs| && updated[i] == cs[i]
    requires forall i :: scale <= i < |tasks| ==> !tasks[i].Keep?
    ensures Ids(updated) == Ids(cs) - AllVictims(tasks, All(tasks)) + AllCreated(tasks, results, All(tasks))
  {
  }

  lemma NoneMarked(observed: Observed, dependents: seq<Name>)
    ensures OnlyStates(observed, observed, dependents) && AllExited(observed, dependents[..0])
  {
  }

  lemma OneMarked(observed: Observed, done: seq<Name>, name: Name, dependents: seq<Name>)
    requires name in dependents && AllExited(observed, done)
    ensures OnlyStates(observed, observed[name := Stopped(Get(observed, name))], dependents)
    ensures AllExited(observed[name := Stopped(Get(observed, name))], done + [name])
  {
  }

  lemma OnlyStatesTransitive(a: Observed, b: Observed, c: Observed, dependents: seq<Name>)
    requires OnlyStates(a, b, dependents) && OnlyStates(b, c, dependents)
    ensures OnlyStates(a, c, dependents)
  {
  }
}
