/** Starting a project (pkg/compose/start.go:61-68): startService runs as the
    visitor of the traversal in dependency order. The steps of the visitors
    interleave with those of the traversal; what a visitor may do is what
    StartService of module StartProtocol guarantees (VisitorAllowed). */
module StartRuns {
  import opened Wrappers
  import opened Digraphs
  import opened Scheduler
  import opened SchedulerInvariant
  import opened SchedulerTrace
  import opened StartProtocol
  import opened StartConditions

  datatype Plan = Plan(
    config: Config,
    dependsOn: Name -> map<Name, Dependency>,
    surroundings: Surroundings,
    noReplicas: set<Name>,   // deploy.replicas is zero: startService returns at once
    deadline: bool)          // a wait timeout was given
  {
    ghost predicate Valid() {
      config.Valid() && config.ignored == {}
    }

    function Required(s: Name): set<Name> {
      Awaited(dependsOn(s), surroundings)
    }
  }

  /** While starting a service, a poll of a dependency gave these answers. */
  datatype Observation = Observation(user: Name, dependency: Name, answers: seq<Inspection>)

  datatype World = World(
    traversal: State,
    observed: set<Observation>,
    lapsed: set<Name>,      // services whose waiting ended with its context
    launched: set<Name>)    // services of which a container was started

  datatype Step =
    | Traverse(action: Action)
    | Poll(observation: Observation)
    | Lapse(s: Name)
    | StartContainer(s: Name)

  ghost predicate Saw(p: Plan, w: World, s: Name, d: Name) {
    && d in p.dependsOn(s)
    && exists o <- w.observed ::
         o.user == s && o.dependency == d && Shows(ConditionOf(p.dependsOn(s)[d]), o.answers)
  }

  /** waitDependencies has returned without error for s. */
  ghost predicate Waited(p: Plan, w: World, s: Name) {
    s in w.lapsed || forall d <- p.Required(s) :: Saw(p, w, s, d)
  }

  predicate Inside(w: World, s: Name) {
    s in w.traversal.phase && w.traversal.phase[s].Visiting?
  }

  /** The wait is done with the caller's context, not with that of the
      traversal, which the failure of another service cancels. */
  ghost predicate CanStep(p: Plan, w: World, step: Step) {
    match step
    case Traverse(a) =>
      && Enabled(p.config, w.traversal, a)
      && (a.Return? && a.ok ==> a.v in p.noReplicas || Waited(p, w, a.v))
    case Poll(o) => Inside(w, o.user) && o.user !in p.noReplicas
    case Lapse(s) => Inside(w, s) && (w.traversal.interrupted || p.deadline)
    case StartContainer(s) => Inside(w, s) && s !in p.noReplicas && Waited(p, w, s)
  }

  /** w holds what was polled while s was being started. */
  ghost predicate Watched(p: Plan, w: World, s: Name, polls: Polls) {
    forall n <- p.Required(s), k | 0 <= k < |polls(n)| :: Observation(s, n, polls(n)[k]) in w.observed
  }

  /** A visitor that runs startService takes only steps that are possible here:
      if the polls and the end of the context were recorded, it may start what
      startService starts, and return as startService returns. */
  lemma VisitorAllowed(p: Plan, w: World, s: Name, scale: nat, polls: Polls, projectContainers: nat,
                       own: seq<Candidate>, err: Option<StartError>, started: seq<string>)
    requires Inside(w, s) && Watched(p, w, s, polls)
    requires StartOutcome(s in p.noReplicas, scale, p.dependsOn(s), p.surroundings, polls, projectContainers, own,
                          err, started)
    requires s !in w.lapsed ==>
               forall n <- p.Required(s) :: !Undecided(ConditionOf(p.dependsOn(s)[n]), polls(n), |polls(n)|)
    ensures started != [] ==> CanStep(p, w, StartContainer(s))
    ensures err.None? ==> CanStep(p, w, Traverse(Return(s, true)))
  {
    if s !in w.lapsed && s !in p.noReplicas && !Blamed(p.dependsOn(s), p.surroundings, polls) {
      RequiredMetIff(p.dependsOn(s), p.surroundings, polls);
      forall n <- p.Required(s) ensures Saw(p, w, s, n) {
        var k :| 0 <= k < |polls(n)| && Shows(ConditionOf(p.dependsOn(s)[n]), polls(n)[k]);
        assert Observation(s, n, polls(n)[k]) in w.observed;
      }
    }
  }

  ghost function DoStep(p: Plan, w: World, step: Step): World
    requires CanStep(p, w, step)
  {
    match step
    case Traverse(a) => w.(traversal := Next(p.config, w.traversal, a))
    case Poll(o) => w.(observed := w.observed + {o})
    case Lapse(s) => w.(lapsed := w.lapsed + {s})
    case StartContainer(s) => w.(launched := w.launched + {s})
  }

  /** The world after a sequence of steps, if each is possible in its turn. */
  ghost function Execute(p: Plan, steps: seq<Step>): Option<World> {
    if steps == [] then Some(World(Init(p.config), {}, {}, {}))
    else
      match Execute(p, steps[..|steps| - 1])
      case None => None
      case Some(w) =>
        var step := steps[|steps| - 1];
        if CanStep(p, w, step) then Some(DoStep(p, w, step)) else None
  }

  /** The steps of the traversal among them. */
  function Actions(steps: seq<Step>): seq<Action> {
    if steps == [] then []
    else
      var step := steps[|steps| - 1];
      Actions(steps[..|steps| - 1]) + if step.Traverse? then [step.action] else []
  }

  /** Seen alone, the traversal runs as in module Scheduler: its theorems hold. */
  lemma {:induction false} TraversalRuns(p: Plan, steps: seq<Step>)
    requires Execute(p, steps).Some?
    ensures Run(p.config, Actions(steps)) == Some(Execute(p, steps).value.traversal)
  {
    if steps != [] {
      var earlier, step := steps[..|steps| - 1], steps[|steps| - 1];
      TraversalRuns(p, earlier);
      if step.Traverse? {
        var actions := Actions(steps);
        assert actions[..|actions| - 1] == Actions(earlier);
        assert Run(p.config, actions) == Some(Next(p.config, Execute(p, earlier).value.traversal, step.action));
      } else {
        assert Actions(steps) == Actions(earlier);
      }
    }
  }

  /** A container was started only by a visitor; and whoever was started, or
      returned without error, had waited. */
  ghost predicate Justified(p: Plan, w: World) {
    && (forall s <- w.launched :: s in w.traversal.phase && Begun(w.traversal.phase[s]) && Waited(p, w, s))
    && (forall s <- w.traversal.phase | EndedWith(w.traversal.phase[s], true) && s !in p.noReplicas :: Waited(p, w, s))
    && (w.lapsed != {} ==> w.traversal.interrupted || p.deadline)
  }

  lemma KeepsJustified(p: Plan, w: World, step: Step)
    requires Inv(p.config, w.traversal) && p.config.ignored == {} && Justified(p, w) && CanStep(p, w, step)
    ensures Justified(p, DoStep(p, w, step))
  {
    if step.Traverse? {
      MovesOn(p.config, w.traversal, step.action);
      TraverseKeepsJustified(p, w, step.action);
    } else {
      forall s | Waited(p, w, s) ensures Waited(p, DoStep(p, w, step), s) {
        WaitedStays(p, w, step, s);
      }
    }
  }

  lemma WaitedStays(p: Plan, w: World, step: Step, s: Name)
    requires CanStep(p, w, step) && Waited(p, w, s)
    ensures Waited(p, DoStep(p, w, step), s)
  {
  }

  lemma TraverseKeepsJustified(p: Plan, w: World, a: Action)
    requires Justified(p, w) && CanStep(p, w, Traverse(a)) && p.config.ignored == {}
    requires var m := Mover(p.config, w.traversal, a);
             m.Move? ==> m.v in w.traversal.phase && Follows(w.traversal.phase[m.v], m.to)
    ensures Justified(p, DoStep(p, w, Traverse(a)))
  {
  }

  lemma {:induction false} RunJustified(p: Plan, steps: seq<Step>)
    requires p.Valid() && Execute(p, steps).Some?
    ensures var w := Execute(p, steps).value; Inv(p.config, w.traversal) && Justified(p, w)
  {
    TraversalRuns(p, steps);
    RunInv(p.config, Actions(steps));
    if steps != [] {
      var earlier, step := steps[..|steps| - 1], steps[|steps| - 1];
      RunJustified(p, earlier);
      KeepsJustified(p, Execute(p, earlier).value, step);
    }
  }

  /** The start protocol. In every run without timeout in which the caller's
      context has not been cancelled, when a container of s has been started,
      startService has returned without error for everything that s transitively
      depends on, and every condition that s or any of those requires was shown
      by an inspection. */
  lemma StartedAfterDependencies(p: Plan, steps: seq<Step>, s: Name)
    requires p.Valid() && Execute(p, steps).Some?
    requires var w := Execute(p, steps).value; s in w.launched && !w.traversal.interrupted && !p.deadline
    ensures var w := Execute(p, steps).value;
            && Start(s) in w.traversal.log
            && (forall d <- p.Required(s) :: Saw(p, w, s, d))
            && (forall d | Reaches(p.config.before, s, d) ::
                  && End(d, true) in w.traversal.log
                  && (d !in p.noReplicas ==> forall n <- p.Required(d) :: Saw(p, w, d, n)))
  {
    var w := Execute(p, steps).value;
    RunJustified(p, steps);
    TraversalRuns(p, steps);
    RunRecorded(p.config, Actions(steps));
    assert RecordedAt(p.config, w.traversal, s);
    forall d | Reaches(p.config.before, s, d)
      ensures End(d, true) in w.traversal.log
      ensures d !in p.noReplicas ==> forall n <- p.Required(d) :: Saw(p, w, d, n)
    {
      var path :| Connects(p.config.before, path, s, d);
      AllBeforeFinished(p.config, w.traversal, path);
      assert RecordedAt(p.config, w.traversal, d);
      assert EndedWith(w.traversal.phase[d], true);
    }
  }

  /** service d has to wait for n. */
  ghost predicate Depends(p: Plan, d: Name, n: Name) {
    && n in p.dependsOn(d) && p.dependsOn(d)[n].required && p.surroundings.containers(n) > 0
    && p.dependsOn(d)[n].condition in {"service_healthy", "running_or_healthy", "service_completed_successfully"}
    && match p.surroundings.known(n) case Declared(scale, provider) => scale > 0 && !provider case _ => false
  }

  /** What the conditions ask for was among the answers of the engine: for s, and
      for everything that s transitively depends on. */
  lemma StartedAfterAnswers(p: Plan, steps: seq<Step>, s: Name, d: Name, n: Name)
    requires p.Valid() && Execute(p, steps).Some?
    requires var w := Execute(p, steps).value; s in w.launched && !w.traversal.interrupted && !p.deadline
    requires d == s || (Reaches(p.config.before, s, d) && d !in p.noReplicas)
    requires Depends(p, d, n)
    ensures exists o <- Execute(p, steps).value.observed ::
              o.user == d && o.dependency == n && Ready(p.dependsOn(d)[n].condition, o.answers)
  {
    StartedAfterDependencies(p, steps, s);
    AwaitedIff(p.dependsOn(d), p.surroundings, n);
    var w := Execute(p, steps).value;
    assert Saw(p, w, d, n);
    var o :| o in w.observed && o.user == d && o.dependency == n && Shows(ConditionOf(p.dependsOn(d)[n]), o.answers);
    TickIs(p.dependsOn(d)[n], o.answers);
  }
}
