/** The engine as seen by the convergence of one service
    (pkg/compose/convergence.go, pkg/compose/down.go): a set of containers that
    is changed by calls which may fail, and the goroutines of an errgroup, which
    run in an arbitrary order. */
module Engines {
  import opened Wrappers
  import opened Digraphs
  import opened Texts
  import opened Containers

  /** The image digest label of a created container: CustomLabels override the
      labels of the user. */
  function LabelDigest(s: Service): string {
    match s.digest
    case Some(d) => d
    case None => match s.hashed.labelDigest case Some(d) => d case None => ""
  }

  /** The number label of a created container: prepareLabels writes it for a
      positive number only, and else leaves a label of the user. */
  function NumberLabel(s: Service, number: int): string {
    if number > 0 then Itoa(number)
    else match s.hashed.labelNumber case Some(l) => l case None => ""
  }

  /** The container was created for replica number of the service. */
  ghost predicate CreatedFor(env: Env, s: Service, number: int, c: Container) {
    && ServiceHash(env, s) == Some(c.configHash)
    && c.service == s.name && c.numberLabel == NumberLabel(s, number) && c.imageDigest == LabelDigest(s)
  }

  /** d is what became of container c: its identity and labels are the same. */
  predicate SameLabels(c: Container, d: Container) {
    && d.id == c.id && d.service == c.service && d.numberLabel == c.numberLabel
    && d.configHash == c.configHash && d.imageDigest == c.imageDigest
  }

  /** The containers of the engine; every call may fail. */
  class Engine {
    var containers: map<string, Container>
    var used: set<string>     // every ID ever given out: none is given out twice
    var halted: set<string>   // history: the containers that were stopped one by one

    ghost predicate Valid()
      reads this
    {
      containers.Keys <= used && forall id <- containers :: containers[id].id == id
    }

    /** Containers may have changed, but not which ones exist or their labels. */
    twostate predicate Kept()
      reads this
    {
      && containers.Keys == old(containers).Keys && used == old(used) && old(halted) <= halted
      && forall id <- containers :: SameLabels(old(containers)[id], containers[id])
    }

    /** createMobyContainer: create, then inspect. The summary lacks the state
        and the mounts. */
    method Create(env: Env, s: Service, name: string, number: int) returns (c: Option<Container>)
      requires Valid()
      modifies this
      ensures Valid()
      ensures c.None? ==> Kept()
      ensures halted == old(halted)
      ensures c.Some? ==>
                && c.value.id != "" && c.value.id !in old(used) && used == old(used) + {c.value.id}
                && c.value.name == name && CreatedFor(env, s, number, c.value)
                && c.value.id in containers && SameLabels(c.value, containers[c.value.id])
                && containers == old(containers)[c.value.id := containers[c.value.id]]
    {
      var accepted: bool, id: string, networks: set<string>, volumes: set<string> := *, *, *, *;
      var hash := ServiceHash(env, s);
      if hash.None? || !accepted || id == "" || id in used {
        return None;
      }
      var summary := Container(id, name, s.name, NumberLabel(s, number), hash.value, LabelDigest(s), Unreported,
                               networks, {}, 0);
      containers := containers[id := summary.(state := ContainerState.Created, volumes := volumes)];
      used := used + {id};
      return Some(summary);
    }

    method Stop(id: string) returns (ok: bool)
      requires Valid()
      modifies this
      ensures Valid() && Kept()
      ensures ok && id in containers ==> containers == old(containers)[id := old(containers[id]).(state := Exited)]
      ensures !ok ==> containers == old(containers)
      ensures halted == old(halted) + if ok then {id} else {}
    {
      ok := *;
      if ok {
        halted := halted + {id};
        if id in containers {
          containers := containers[id := containers[id].(state := Exited)];
        }
      }
    }

    method Remove(id: string) returns (ok: bool)
      requires Valid()
      modifies this
      ensures Valid()
      ensures containers == (if ok then old(containers) - {id} else old(containers)) && used == old(used)
      ensures halted == old(halted)
    {
      ok := *;
      if ok {
        containers := containers - {id};
      }
    }

    method Rename(id: string, name: string) returns (ok: bool)
      requires Valid()
      modifies this
      ensures Valid() && Kept()
      ensures ok && id in containers ==> containers == old(containers)[id := old(containers[id]).(name := name)]
      ensures !ok ==> containers == old(containers)
    {
      ok := *;
      if ok && id in containers {
        containers := containers[id := containers[id].(name := name)];
      }
    }

    /** compose.stop for a list of services. */
    method StopServices(services: seq<Name>) returns (ok: bool)
      requires Valid()
      modifies this
      ensures Valid() && Kept()
      ensures ok ==> forall id <- containers ::
                (old(containers)[id].service in services ==> containers[id] == old(containers)[id].(state := Exited)) &&
                (old(containers)[id].service !in services ==> containers[id] == old(containers)[id])
    {
      ok := *;
      if ok {
        containers := map id | id in containers ::
          if containers[id].service in services then containers[id].(state := Exited) else containers[id];
      }
    }

    method Start(id: string) returns (ok: bool)
      requires Valid()
      modifies this
      ensures Valid() && Kept()
      ensures ok && id in containers ==> containers == old(containers)[id := old(containers[id]).(state := Running)]
      ensures !ok ==> containers == old(containers)
    {
      ok := *;
      if ok && id in containers {
        containers := containers[id := containers[id].(state := Running)];
      }
    }
  }

  /** Creating the replacement comes first, so a replica is never lost: when the
      old container is gone, the new one exists. */
  method RecreateContainer(engine: Engine, env: Env, project: string, s: Service, replaced: Container)
    returns (created: Option<Container>, ok: bool)
    requires engine.Valid() && replaced.id in engine.containers
    modifies engine
    ensures engine.Valid()
    ensures ok ==>
              && created.Some? && replaced.Number().Some? && created.value.id in engine.containers
              && CreatedFor(env, s, replaced.Number().value, created.value)
              && created.value.name == Short(replaced.id) + "_" + ContainerName(project, s, replaced.Number().value)
              && engine.containers[created.value.id].name == ContainerName(project, s, replaced.Number().value)
    ensures created.None? ==> !ok && engine.Kept()
    ensures created.Some? ==>
              && created.value.id != "" && created.value.id !in old(engine.used)
              && engine.used == old(engine.used) + {created.value.id}
              && created.value.id in engine.containers && SameLabels(created.value, engine.containers[created.value.id])
              && engine.containers.Keys - {replaced.id} ==
                   old(engine.containers).Keys - {replaced.id} + {created.value.id}
              && (ok ==> replaced.id !in engine.containers)
    ensures old(engine.halted) <= engine.halted && old(engine.containers).Keys - engine.containers.Keys <= engine.halted
    ensures forall id <- engine.containers :: id in old(engine.containers) ==>
              SameLabels(old(engine.containers)[id], engine.containers[id])
  {
    var number := replaced.Number();
    if number.None? {
      return None, false;
    }
    var name := ContainerName(project, s, number.value);
    var tmpName := Short(replaced.id) + "_" + name;
    created := engine.Create(env, s, tmpName, number.value);
    if created.None? {
      return None, false;
    }
    ok := engine.Stop(replaced.id);
    if !ok {
      return created, false;
    }
    ok := engine.Remove(replaced.id);
    if !ok {
      return created, false;
    }
    ok := engine.Rename(created.value.id, name);
  }

  /** The first twelve characters of an ID, which the engine makes longer. */
  function Short(id: string): (short: string)
    ensures |id| >= 12 ==> |short| == 12 && short + id[12..] == id
  {
    if |id| >= 12 then id[..12] else id
  }

  /** What the errgroup of ensureService runs for one slot. */
  datatype Task =
    | Drop(ctr: Container)                 // stop and remove
    | Recreate(ctr: Container)
    | Keep(ctr: Container, start: bool)
    | Create(number: int)
  {
    /** The container that is taken away. */
    function Victims(): set<string> {
      if Drop? || Recreate? then {ctr.id} else {}
    }

    predicate Creates() {
      Recreate? || Create?
    }
  }

  /** What a task without error leaves in its slot. */
  ghost predicate Achieves(env: Env, s: Service, t: Task, result: Option<Container>) {
    match t
    case Drop(_) => result.None?
    case Keep(c, _) => result == Some(c)
    case Recreate(c) => result.Some? && c.Number().Some? && CreatedFor(env, s, c.Number().value, result.value)
    case Create(n) => result.Some? && CreatedFor(env, s, n, result.value)
  }

  /** What a task leaves in its slot, with or without error. */
  predicate Yields(t: Task, result: Option<Container>) {
    (t.Keep? ==> result == Some(t.ctr)) && (t.Drop? ==> result.None?)
  }

  function IdOf(result: Option<Container>): set<string> {
    match result case Some(c) => {c.id} case None => {}
  }

  method RunTask(engine: Engine, env: Env, project: string, s: Service, t: Task)
    returns (result: Option<Container>, ok: bool)
    requires engine.Valid() && t.Victims() <= engine.containers.Keys
    modifies engine
    ensures engine.Valid()
    ensures Yields(t, result) && (t.Creates() ==> "" !in IdOf(result))
    ensures ok ==> Achieves(env, s, t, result)
    ensures ok && t.Keep? && t.start && t.ctr.id in engine.containers ==> engine.containers[t.ctr.id].state == Running
    ensures ok && t.Create? ==> result.value.name == ContainerName(project, s, t.number)
    ensures ok ==> engine.containers.Keys ==
                     old(engine.containers).Keys - t.Victims() + if t.Creates() then IdOf(result) else {}
    ensures old(engine.used) <= engine.used && engine.containers.Keys * old(engine.used) <= old(engine.containers).Keys
    ensures t.Creates() ==> IdOf(result) <= engine.used && IdOf(result) !! old(engine.used)
    ensures old(engine.containers).Keys - t.Victims() <= engine.containers.Keys
    ensures old(engine.halted) <= engine.halted && old(engine.containers).Keys - engine.containers.Keys <= engine.halted
    ensures forall id <- engine.containers :: id in old(engine.containers) ==>
              SameLabels(old(engine.containers)[id], engine.containers[id])
  {
    match t
    case Drop(c) =>
      result := None;
      ok := engine.Stop(c.id);
      if ok {
        ok := engine.Remove(c.id);
      }
    case Recreate(c) =>
      result, ok := RecreateContainer(engine, env, project, s, c);
    case Keep(c, start) =>
      result, ok := Some(c), true;
      if start {
        ok := engine.Start(c.id);
      }
    case Create(n) =>
      result := engine.Create(env, s, ContainerName(project, s, n), n);
      ok := result.Some?;
  }

  function AllVictims(tasks: seq<Task>, done: set<nat>): set<string> {
    set i, x | i in done && i < |tasks| && x in tasks[i].Victims() :: x
  }

  function AllCreated(tasks: seq<Task>, results: seq<Option<Container>>, done: set<nat>): set<string>
    requires |results| == |tasks|
  {
    set i, x | i in done && i < |tasks| && tasks[i].Creates() && x in IdOf(results[i]) :: x
  }

  ghost predicate IndependentTasks(tasks: seq<Task>) {
    forall i, j :: 0 <= i < j < |tasks| ==> tasks[i].Victims() !! tasks[j].Victims()
  }

  /** The goroutines of the errgroup, one after the other in an arbitrary order;
      a failure does not stop the others. Slot i is written by task i alone. */
  method RunAll(engine: Engine, env: Env, project: string, s: Service, tasks: seq<Task>)
    returns (results: seq<Option<Container>>, ok: bool)
    requires engine.Valid() && IndependentTasks(tasks)
    requires forall t <- tasks :: t.Victims() <= engine.containers.Keys
    modifies engine
    ensures engine.Valid() && |results| == |tasks|
    ensures ok ==> forall i :: 0 <= i < |tasks| ==> Achieves(env, s, tasks[i], results[i])
    ensures ok ==> engine.containers.Keys ==
                     old(engine.containers).Keys - AllVictims(tasks, All(tasks))
                     + AllCreated(tasks, results, All(tasks))
    ensures forall i :: 0 <= i < |tasks| ==> Yields(tasks[i], results[i])
    ensures AllCreated(tasks, results, All(tasks)) !! old(engine.used) + {""}
    ensures AllCreated(tasks, results, All(tasks)) <= engine.used
    ensures ok ==> CreatedApart(tasks, results, All(tasks))
    ensures old(engine.containers).Keys - AllVictims(tasks, All(tasks)) <= engine.containers.Keys
    ensures old(engine.halted) <= engine.halted && old(engine.containers).Keys - engine.containers.Keys <= engine.halted
    ensures forall id <- engine.containers :: id in old(engine.containers) ==>
              SameLabels(old(engine.containers)[id], engine.containers[id])
  {
    hide AllVictims, AllCreated, Achieves, IdOf, SameLabels, CreatedApart, Progressed;
    ghost var before, used := engine.containers, engine.used;
    results, ok := seq(|tasks|, _ => None), true;
    var todo := All(tasks);
    ghost var done: set<nat> := {};
    NothingDone(env, s, tasks, results, before);
    while todo != {}
      invariant todo !! done && todo + done == All(tasks) && |results| == |tasks| && engine.Valid()
      invariant Progressed(env, s, tasks, results, done, before, engine.containers, ok)
      invariant forall i <- done :: Yields(tasks[i], results[i])
      invariant CreatedApart(tasks, results, done) && AllCreated(tasks, results, done) !! used + {""}
      invariant AllCreated(tasks, results, done) <= engine.used && used <= engine.used
      invariant old(engine.halted) <= engine.halted && before.Keys - engine.containers.Keys <= engine.halted
    {
      var i :| i in todo;
      ProgressKeeps(env, s, tasks, results, done, before, engine.containers, ok);
      VictimsRemain(tasks, done, i, before.Keys, engine.containers.Keys);
      ghost var now := engine.containers;
      var result, fine := RunTask(engine, env, project, s, tasks[i]);
      TaskDone(env, s, tasks, results, done, before, now, ok, i, result, engine.containers, fine);
      CreatedMore(tasks, results, done, i, result);
      results, ok := results[i := result], ok && fine;
      todo, done := todo - {i}, done + {i};
    }
    assert done == All(tasks);
    ProgressKeeps(env, s, tasks, results, done, before, engine.containers, ok);
  }

  function All(tasks: seq<Task>): set<nat> {
    set i {:trigger tasks[i]} | 0 <= i < |tasks|
  }

  /** Different slots were given different new containers. */
  ghost predicate CreatedApart(tasks: seq<Task>, results: seq<Option<Container>>, done: set<nat>)
    requires |results| == |tasks|
  {
    forall i, j | i in done && j in done && i < j < |tasks| && tasks[i].Creates() && tasks[j].Creates() ::
      IdOf(results[i]) !! IdOf(results[j])
  }

  /** The engine after the tasks in done. */
  ghost predicate Progressed(env: Env, s: Service, tasks: seq<Task>, results: seq<Option<Container>>, done: set<nat>,
                             before: map<string, Container>, now: map<string, Container>, ok: bool)
    requires |results| == |tasks| && done <= All(tasks)
  {
    && (forall i <- done :: ok ==> Achieves(env, s, tasks[i], results[i]))
    && (ok ==> now.Keys == before.Keys - AllVictims(tasks, done) + AllCreated(tasks, results, done))
    && before.Keys - AllVictims(tasks, done) <= now.Keys
    && (forall id <- now :: id in before ==> SameLabels(before[id], now[id]))
  }

  lemma NothingDone(env: Env, s: Service, tasks: seq<Task>, results: seq<Option<Container>>,
                    before: map<string, Container>)
    requires |results| == |tasks|
    ensures Progressed(env, s, tasks, results, {}, before, before, true)
    ensures CreatedApart(tasks, results, {}) && AllCreated(tasks, results, {}) == {}
  {
  }

  /** What Progressed says. */
  lemma ProgressKeeps(env: Env, s: Service, tasks: seq<Task>, results: seq<Option<Container>>, done: set<nat>,
                      before: map<string, Container>, now: map<string, Container>, ok: bool)
    requires |results| == |tasks| && done <= All(tasks)
    requires Progressed(env, s, tasks, results, done, before, now, ok)
    ensures ok ==> forall i <- done :: Achieves(env, s, tasks[i], results[i])
    ensures ok ==> now.Keys == before.Keys - AllVictims(tasks, done) + AllCreated(tasks, results, done)
    ensures before.Keys - AllVictims(tasks, done) <= now.Keys
    ensures forall id <- now :: id in before ==> SameLabels(before[id], now[id])
  {
    hide AllVictims, AllCreated, Achieves, SameLabels;
  }

  lemma VictimsRemain(tasks: seq<Task>, done: set<nat>, i: nat, before: set<string>, now: set<string>)
    requires i < |tasks| && i !in done && IndependentTasks(tasks)
    requires tasks[i].Victims() <= before && before - AllVictims(tasks, done) <= now
    ensures tasks[i].Victims() <= now && tasks[i].Victims() !! AllVictims(tasks, done)
  {
  }

  lemma CreatedMore(tasks: seq<Task>, results: seq<Option<Container>>, done: set<nat>, i: nat,
                    result: Option<Container>)
    requires |results| == |tasks| && i < |tasks| && i !in done
    ensures AllVictims(tasks, done + {i}) == AllVictims(tasks, done) + tasks[i].Victims()
    ensures AllCreated(tasks, results[i := result], done + {i}) ==
              AllCreated(tasks, results, done) + if tasks[i].Creates() then IdOf(result) else {}
    ensures CreatedApart(tasks, results, done) &&
            (tasks[i].Creates() ==> IdOf(result) !! AllCreated(tasks, results, done)) ==>
              CreatedApart(tasks, results[i := result], done + {i})
  {
    var after := results[i := result];
    forall x ensures x in AllCreated(tasks, after, done + {i}) <==>
                       x in AllCreated(tasks, results, done) || (tasks[i].Creates() && x in IdOf(result)) {
      if x in AllCreated(tasks, results, done) {
        var j :| j in done && j < |tasks| && tasks[j].Creates() && x in IdOf(results[j]);
        assert x in IdOf(after[j]);
      }
      if tasks[i].Creates() && x in IdOf(result) {
        assert x in IdOf(after[i]);
      }
    }
    forall j | j in done && j < |tasks| && tasks[j].Creates()
      ensures IdOf(results[j]) <= AllCreated(tasks, results, done)
    {
    }
  }

  lemma TaskDone(env: Env, s: Service, tasks: seq<Task>, results: seq<Option<Container>>, done: set<nat>,
                 before: map<string, Container>, now: map<string, Container>, ok: bool,
                 i: nat, result: Option<Container>, later: map<string, Container>, fine: bool)
    requires |results| == |tasks| && done <= All(tasks) && i < |tasks| && i !in done
    requires Progressed(env, s, tasks, results, done, before, now, ok)
    requires tasks[i].Victims() <= before.Keys && tasks[i].Victims() !! AllVictims(tasks, done)
    requires AllCreated(tasks, results, done) !! before.Keys
    requires fine ==> Achieves(env, s, tasks[i], result)
    requires fine ==> later.Keys == now.Keys - tasks[i].Victims() + if tasks[i].Creates() then IdOf(result) else {}
    requires now.Keys - tasks[i].Victims() <= later.Keys
    requires forall id <- later :: id in now ==> SameLabels(now[id], later[id])
    requires forall id <- later :: id in before ==> id in now
    ensures Progressed(env, s, tasks, results[i := result], done + {i}, before, later, ok && fine)
  {
    CreatedMore(tasks, results, done, i, result);
    if ok && fine {
      var created := if tasks[i].Creates() then IdOf(result) else {};
      KeysAfter(before.Keys, AllVictims(tasks, done), AllCreated(tasks, results, done), tasks[i].Victims(), created,
                now.Keys, later.Keys);
      forall k | k in done + {i} ensures Achieves(env, s, tasks[k], results[i := result][k]) {
      }
    }
    hide AllVictims, AllCreated, Achieves, Task.Victims, Task.Creates, IdOf, SameLabels, CreatedApart;
    LabelsStay(before, now, later);
  }

  lemma LabelsStay(before: map<string, Container>, now: map<string, Container>, later: map<string, Container>)
    requires forall id <- now :: id in before ==> SameLabels(before[id], now[id])
    requires forall id <- later :: id in now ==> SameLabels(now[id], later[id])
    requires forall id <- later :: id in before ==> id in now
    ensures forall id <- later :: id in before ==> SameLabels(before[id], later[id])
  {
    forall id <- later | id in before ensures SameLabels(before[id], later[id]) {
      SameLabelsTransitive(before[id], now[id], later[id]);
    }
  }

  lemma KeysAfter(before: set<string>, victims: set<string>, created: set<string>,
                  victim: set<string>, added: set<string>, now: set<string>, later: set<string>)
    requires now == before - victims + created && later == now - victim + added
    requires victim <= before && created !! before
    ensures later == before - (victims + victim) + (created + added)
  {
  }

  lemma SameLabelsTransitive(c: Container, d: Container, e: Container)
    requires SameLabels(c, d) && SameLabels(d, e)
    ensures SameLabels(c, e)
  {
  }
}
