/** Waiting for dependencies and starting the containers of a service
    (pkg/compose/convergence.go:448-576, 806-908). What the engine answers to
    each inspection is an input: one list of answers per tick of the poll loop. */
module StartProtocol {
  import opened Wrappers
  import opened Digraphs
  import opened Collections
  import opened Containers
  import Projects

  datatype Health = Healthy | Unhealthy | Starting | OtherHealth

  /** The answer to ContainerInspect. healthcheck is the Test list, if any. */
  datatype Inspection =
    | Unavailable
    | Inspected(state: ContainerState, exitCode: int, healthcheck: Option<seq<string>>, health: Option<Health>)
  {
    predicate NoHealthcheck() {
      Inspected? && (healthcheck.None? || (healthcheck.value != [] && healthcheck.value[0] == "NONE"))
    }

    predicate IsHealthy() {
      Inspected? && state != Exited && health == Some(Healthy)
    }

    /** Running without a health check, or healthy. */
    predicate RunningOrHealthy() {
      Inspected? && state != Exited && if NoHealthcheck() then state == Running else health == Some(Healthy)
    }

    predicate HasExited() {
      Inspected? && state == Exited
    }
  }

  datatype Verdict = Yes | No | Broken

  /** isServiceHealthy: the containers are inspected in turn until one decides. */
  method IsServiceHealthy(answers: seq<Inspection>, fallbackRunning: bool) returns (v: Verdict)
    ensures v == HealthVerdict(answers, fallbackRunning)
  {
    for i := 0 to |answers|
      invariant HealthVerdict(answers, fallbackRunning) == HealthVerdict(answers[i..], fallbackRunning)
    {
      var ctr := answers[i];
      if ctr.Unavailable? || ctr.state == Exited {
        return Broken;
      }
      if ctr.NoHealthcheck() && fallbackRunning {
        return if ctr.state == Running then Yes else No;
      }
      if ctr.health.None? {
        return Broken;
      }
      match ctr.health.value {
        case Healthy =>
        case Unhealthy => return Broken;
        case Starting => return No;
        case OtherHealth => return Broken;
      }
      assert answers[i..][1..] == answers[i + 1..];
    }
    return Yes;
  }

  function HealthVerdict(answers: seq<Inspection>, fallbackRunning: bool): Verdict {
    if answers == [] then Yes
    else
      var a := answers[0];
      if !a.Inspected? || a.state == Exited then Broken
      else if a.NoHealthcheck() && fallbackRunning then (if a.state == Running then Yes else No)
      else if a.health == Some(Healthy) then HealthVerdict(answers[1..], fallbackRunning)
      else if a.health == Some(Starting) then No
      else Broken
  }

  /** The containers before the first that decides are healthy. */
  ghost predicate Decides(answers: seq<Inspection>, fallbackRunning: bool, i: int) {
    && 0 <= i < |answers| && !Passes(answers[i], fallbackRunning)
    && forall j :: 0 <= j < i ==> Passes(answers[j], fallbackRunning)
  }

  predicate Passes(a: Inspection, fallbackRunning: bool) {
    a.IsHealthy() && !(a.NoHealthcheck() && fallbackRunning)
  }

  /** It can be inspected and may still become healthy. */
  predicate Hopeful(a: Inspection, fallbackRunning: bool) {
    a.Inspected? && a.state != Exited && ((a.NoHealthcheck() && fallbackRunning) || a.health == Some(Starting))
  }

  /** The wait is given up exactly if the container that decides is exited,
      unhealthy, without the health check that is asked for, or not found. */
  lemma {:induction false} BrokenIff(answers: seq<Inspection>, fallbackRunning: bool)
    ensures HealthVerdict(answers, fallbackRunning) == Broken <==>
              exists i :: Decides(answers, fallbackRunning, i) && !Hopeful(answers[i], fallbackRunning)
  {
    if answers != [] {
      BrokenIff(answers[1..], fallbackRunning);
      if Passes(answers[0], fallbackRunning) {
        forall i ensures Decides(answers, fallbackRunning, i + 1) <==> Decides(answers[1..], fallbackRunning, i) {
          assert 0 <= i < |answers| - 1 ==> answers[1..][i] == answers[i + 1];
          assert forall j :: 0 < j <= i < |answers| - 1 ==> answers[j] == answers[1..][j - 1];
        }
        if i :| Decides(answers, fallbackRunning, i) && !Hopeful(answers[i], fallbackRunning) {
          assert Decides(answers[1..], fallbackRunning, i - 1);
        }
      } else {
        assert Decides(answers, fallbackRunning, 0);
      }
    }
  }

  /** The condition service_healthy: all containers are healthy. */
  lemma {:induction false} HealthyMeansAll(answers: seq<Inspection>)
    ensures HealthVerdict(answers, false) == Yes <==> forall a <- answers :: a.IsHealthy()
  {
    if answers != [] {
      assert answers[0] in answers && forall a <- answers[1..] :: a in answers;
      assert forall a <- answers :: a == answers[0] || a in answers[1..];
      HealthyMeansAll(answers[1..]);
    }
  }

  /** No container before j lacks a health check: the verdict looks at j. */
  ghost predicate LookedAt(answers: seq<Inspection>, j: int) {
    0 <= j < |answers| && forall i :: 0 <= i < j ==> !answers[i].NoHealthcheck()
  }

  /** The condition running_or_healthy: the first container without a health
      check decides for all that come after it. */
  lemma {:induction false} FallbackIff(answers: seq<Inspection>)
    ensures HealthVerdict(answers, true) == Yes <==>
              forall j :: LookedAt(answers, j) ==> answers[j].RunningOrHealthy()
  {
    if answers != [] {
      FallbackIff(answers[1..]);
      assert LookedAt(answers, 0);
      if !answers[0].NoHealthcheck() {
        forall j | j >= 0 ensures LookedAt(answers, j + 1) <==> LookedAt(answers[1..], j) {
          assert forall i :: 0 < i <= j < |answers| - 1 ==> answers[i] == answers[1..][i - 1];
          assert 0 <= j < |answers| - 1 ==> forall i :: 0 <= i < j ==> answers[1..][i] == answers[i + 1];
        }
        forall j | LookedAt(answers, j) && j > 0 ensures LookedAt(answers[1..], j - 1) {
          assert LookedAt(answers, (j - 1) + 1);
        }
      }
    }
  }

  /** lacks says which containers of a service have no health check, for those
      that could be inspected. */
  ghost predicate FitsChecks(answers: seq<Inspection>, lacks: seq<bool>) {
    |answers| == |lacks| && forall i :: 0 <= i < |lacks| && answers[i].Inspected? ==>
      answers[i].NoHealthcheck() == lacks[i]
  }

  /** A yes means that all containers are running or healthy. */
  ghost predicate Trustworthy(lacks: seq<bool>) {
    forall answers: seq<Inspection> | FitsChecks(answers, lacks) && HealthVerdict(answers, true) == Yes ::
      forall a <- answers :: a.RunningOrHealthy()
  }

  /** The check running_or_healthy can be trusted exactly for services none of
      whose containers, but for the last, lacks a health check. */
  lemma TrustworthyIff(lacks: seq<bool>)
    ensures Trustworthy(lacks) <==> forall i :: 0 <= i < |lacks| - 1 ==> !lacks[i]
  {
    if forall i :: 0 <= i < |lacks| - 1 ==> !lacks[i] {
      forall answers: seq<Inspection> | FitsChecks(answers, lacks) && HealthVerdict(answers, true) == Yes
        ensures forall a <- answers :: a.RunningOrHealthy()
      {
        FallbackIff(answers);
        AllLookedAt(answers, lacks);
      }
    } else {
      var i :| 0 <= i < |lacks| - 1 && lacks[i];
      var answers := OneExited(lacks, i);
      assert answers[|lacks| - 1] in answers && !answers[|lacks| - 1].RunningOrHealthy();
    }
  }

  lemma {:induction false} AllLookedAt(answers: seq<Inspection>, lacks: seq<bool>)
    requires FitsChecks(answers, lacks) && forall i :: 0 <= i < |lacks| - 1 ==> !lacks[i]
    ensures forall j :: 0 <= j < |answers| ==> LookedAt(answers, j)
  {
    forall j | 0 <= j < |answers| ensures LookedAt(answers, j) {
      assert forall i :: 0 <= i < j ==> !lacks[i];
    }
  }

  /** If container i, not the last, lacks a health check, the verdict may be yes
      although the last container has exited. */
  lemma OneExited(lacks: seq<bool>, i: nat) returns (answers: seq<Inspection>)
    requires i < |lacks| - 1 && lacks[i]
    ensures FitsChecks(answers, lacks) && HealthVerdict(answers, true) == Yes && answers[|lacks| - 1].HasExited()
  {
    answers := seq(|lacks|, j requires 0 <= j < |lacks| =>
      Inspected(if j < |lacks| - 1 then Running else Exited, 0, if lacks[j] then None else Some(["CMD"]),
                if lacks[j] then None else Some(Healthy)));
    FallbackIff(answers);
    assert answers[i].NoHealthcheck();
    assert forall j :: LookedAt(answers, j) ==> j <= i;
  }

  /** isServiceCompleted: the first container found exited, if any. */
  method IsServiceCompleted(answers: seq<Inspection>) returns (v: Verdict, exitCode: int)
    ensures v == Yes <==> exists i :: FirstExited(answers, i)
    ensures v == Yes ==> exists i :: FirstExited(answers, i) && answers[i].exitCode == exitCode
    ensures v == No ==> forall a <- answers :: a.Inspected? && a.state != Exited
    ensures v == Broken <==> exists i :: FirstUnavailable(answers, i)
  {
    for i := 0 to |answers|
      invariant forall j :: 0 <= j < i ==> answers[j].Inspected? && answers[j].state != Exited
    {
      if answers[i].Unavailable? {
        assert FirstUnavailable(answers, i);
        return Broken, 0;
      }
      if answers[i].state == Exited {
        assert FirstExited(answers, i);
        return Yes, answers[i].exitCode;
      }
    }
    return No, 0;
  }

  ghost predicate FirstExited(answers: seq<Inspection>, i: int) {
    && 0 <= i < |answers| && answers[i].HasExited()
    && forall j :: 0 <= j < i ==> answers[j].Inspected? && !answers[j].HasExited()
  }

  datatype Condition = ServiceStarted | ServiceHealthy | ServiceCompleted | RunningOrHealthy | Unsupported

  type Dependency = Projects.Dependency

  function ConditionOf(d: Dependency): Condition {
    if d.condition == "service_started" then ServiceStarted
    else if d.condition == "service_healthy" then ServiceHealthy
    else if d.condition == "service_completed_successfully" then ServiceCompleted
    else if d.condition == "running_or_healthy" then RunningOrHealthy
    else Unsupported
  }

  /** One inspection of all containers showed what the condition asks for. */
  ghost predicate Shows(c: Condition, answers: seq<Inspection>) {
    match c
    case ServiceHealthy => forall a <- answers :: a.IsHealthy()
    case RunningOrHealthy => HealthVerdict(answers, true) == Yes
    case ServiceCompleted => exists i :: FirstExited(answers, i) && answers[i].exitCode == 0
    case _ => false
  }

  /** One inspection of the containers, in turn, failed or showed that the
      condition cannot be met any more. */
  ghost predicate Breaks(c: Condition, answers: seq<Inspection>) {
    match c
    case ServiceHealthy => HealthVerdict(answers, false) == Broken
    case RunningOrHealthy => HealthVerdict(answers, true) == Broken
    case ServiceCompleted =>
      || (exists i :: FirstExited(answers, i) && answers[i].exitCode != 0)
      || exists i :: FirstUnavailable(answers, i)
    case _ => false
  }

  ghost predicate FirstUnavailable(answers: seq<Inspection>, i: int) {
    && 0 <= i < |answers| && answers[i].Unavailable?
    && forall j :: 0 <= j < i ==> answers[j].Inspected? && !answers[j].HasExited()
  }

  /** An optional dependency is skipped when its condition is broken; only that
      an exited container cannot be looked for is always an error. */
  ghost predicate Fatal(d: Dependency, answers: seq<Inspection>) {
    && Breaks(ConditionOf(d), answers)
    && (d.required || (ConditionOf(d) == ServiceCompleted && exists i :: FirstUnavailable(answers, i)))
  }

  lemma ShownIsNotBroken(c: Condition, answers: seq<Inspection>)
    ensures !(Shows(c, answers) && Breaks(c, answers))
  {
    HealthyMeansAll(answers);
    forall i, j | FirstExited(answers, i) && (FirstExited(answers, j) || FirstUnavailable(answers, j))
      ensures FirstExited(answers, j) && i == j
    {
    }
  }

  datatype WaitOutcome =
    | Met
    | Skipped      // an optional dependency that failed
    | NotChecked   // an unsupported condition
    | Failed
    | Lapsed       // the context was done first: not an error

  /** Before tick k the condition was neither shown nor broken. */
  ghost predicate Undecided(c: Condition, polls: seq<seq<Inspection>>, k: nat)
    requires k <= |polls|
  {
    forall j :: 0 <= j < k ==> !Shows(c, polls[j]) && !Breaks(c, polls[j])
  }

  /** Tick k is the first that shows or breaks the condition. */
  ghost predicate Decisive(c: Condition, polls: seq<seq<Inspection>>, k: int) {
    0 <= k < |polls| && (Shows(c, polls[k]) || Breaks(c, polls[k])) && Undecided(c, polls, k)
  }

  /** The condition is shown before it is broken. */
  ghost predicate Meets(d: Dependency, polls: seq<seq<Inspection>>) {
    exists k :: Decisive(ConditionOf(d), polls, k) && Shows(ConditionOf(d), polls[k])
  }

  ghost predicate Fails(d: Dependency, polls: seq<seq<Inspection>>) {
    exists k :: Decisive(ConditionOf(d), polls, k) && Fatal(d, polls[k])
  }

  /** The context of the wait is done before any tick decides. */
  ghost predicate Lapses(d: Dependency, polls: seq<seq<Inspection>>) {
    && Undecided(ConditionOf(d), polls, |polls|)
    && (polls == [] || ConditionOf(d) !in {ServiceStarted, Unsupported})
  }

  /** What the ticks amount to. */
  ghost function OutcomeOf(d: Dependency, polls: seq<seq<Inspection>>): WaitOutcome {
    if Meets(d, polls) then Met
    else if Fails(d, polls) then Failed
    else if Lapses(d, polls) then Lapsed
    else if ConditionOf(d) in {ServiceStarted, Unsupported} then NotChecked
    else Skipped
  }

  /** Only one tick is decisive. */
  lemma OneDecides(d: Dependency, polls: seq<seq<Inspection>>, k: nat)
    requires Decisive(ConditionOf(d), polls, k)
    ensures OutcomeOf(d, polls) ==
              if Shows(ConditionOf(d), polls[k]) then Met else if Fatal(d, polls[k]) then Failed else Skipped
  {
    ShownIsNotBroken(ConditionOf(d), polls[k]);
    forall j | Decisive(ConditionOf(d), polls, j) ensures j == k {
    }
    hide ConditionOf, Fatal;
  }

  /** The poll loop for one dependency: the first decisive tick. */
  method WaitFor(d: Dependency, polls: seq<seq<Inspection>>) returns (outcome: WaitOutcome)
    ensures outcome == OutcomeOf(d, polls)
  {
    for k := 0 to |polls|
      invariant Undecided(ConditionOf(d), polls, k)
      invariant k > 0 ==> ConditionOf(d) !in {ServiceStarted, Unsupported}
    {
      if ConditionOf(d) in {ServiceStarted, Unsupported} {
        return NotChecked;
      }
      var tick := Check(d, polls[k]);
      if tick != Lapsed {
        OneDecides(d, polls, k);
        return tick;
      }
    }
    return Lapsed;
  }

  /** One tick under a supported condition; Lapsed means that the loop goes on. */
  method Check(d: Dependency, answers: seq<Inspection>) returns (tick: WaitOutcome)
    requires ConditionOf(d) !in {ServiceStarted, Unsupported}
    ensures tick == if Shows(ConditionOf(d), answers) then Met
                    else if Fatal(d, answers) then Failed
                    else if Breaks(ConditionOf(d), answers) then Skipped else Lapsed
  {
    ShownIsNotBroken(ConditionOf(d), answers);
    HealthyMeansAll(answers);
    if ConditionOf(d) == ServiceCompleted {
      var v, code := IsServiceCompleted(answers);
      if v == Broken {
        return Failed;
      }
      if v == No {
        return Lapsed;
      }
      return if code == 0 then Met else if d.required then Failed else Skipped;
    }
    var v := IsServiceHealthy(answers, ConditionOf(d) == RunningOrHealthy);
    return match v case Yes => Met case No => Lapsed case Broken => if d.required then Failed else Skipped;
  }

  // ---- waitDependencies ----

  /** What the project says about a service. */
  datatype Known =
    | Undeclared
    | Disabled
    | Declared(scale: nat, provider: bool)

  datatype StartError =
    | NoSuchService(name: Name)
    | MissingDependency(name: Name)
    | DependencyFailed(name: Name)
    | NothingToStart
    | EngineError
    | HookError

  /** shouldWaitForDependency */
  function ShouldWait(name: Name, d: Dependency, known: Known): Result<bool, StartError> {
    if ConditionOf(d) == ServiceStarted then Ok(false)   // left to the order of the traversal
    else
      match known
      case Undeclared => Err(NoSuchService(name))
      case Disabled => Ok(false)
      case Declared(scale, provider) => Ok(scale != 0 && !provider)
  }

  /** What waitDependencies is given: the project and the containers of each
      service, listed once for the whole run. */
  datatype Surroundings = Surroundings(known: Name -> Known, containers: Name -> nat)

  /** The answers of the engine about a service, tick by tick, until the context
      of the wait is done. */
  type Polls = Name -> seq<seq<Inspection>>

  /** The dependency is polled: it has to be waited for and has containers. */
  predicate Polled(e: Surroundings, name: Name, d: Dependency) {
    ShouldWait(name, d, e.known(name)) == Ok(true) && e.containers(name) > 0
  }

  /** A reason for waitDependencies to fail. That the context was done before a
      condition was shown is none. */
  ghost predicate Blames(name: Name, d: Dependency, e: Surroundings, polls: Polls) {
    || ShouldWait(name, d, e.known(name)).Err?
    || (d.required && ShouldWait(name, d, e.known(name)) == Ok(true) && e.containers(name) == 0)
    || (Polled(e, name, d) && Fails(d, polls(name)))
  }

  ghost predicate Blamed(dependencies: map<Name, Dependency>, e: Surroundings, polls: Polls) {
    exists n <- dependencies :: Blames(n, dependencies[n], e, polls)
  }

  /** The error names a dependency that is to blame, and says why. */
  ghost predicate Accuses(err: StartError, dependencies: map<Name, Dependency>, e: Surroundings, polls: Polls) {
    match err
    case NoSuchService(n) => n in dependencies && ShouldWait(n, dependencies[n], e.known(n)) == Err(err)
    case MissingDependency(n) =>
      && n in dependencies && dependencies[n].required
      && ShouldWait(n, dependencies[n], e.known(n)) == Ok(true) && e.containers(n) == 0
    case DependencyFailed(n) => n in dependencies && Polled(e, n, dependencies[n]) && Fails(dependencies[n], polls(n))
    case _ => false
  }

  /** Every dependency, in an arbitrary order; the poll loops run to their end.
      outcomes holds the result of each loop that was started. */
  method WaitDependencies(dependencies: map<Name, Dependency>, e: Surroundings, polls: Polls)
    returns (err: Option<StartError>, outcomes: map<Name, WaitOutcome>)
    ensures err.Some? <==> Blamed(dependencies, e, polls)
    ensures err.Some? ==> Accuses(err.value, dependencies, e, polls)
    ensures forall n <- outcomes :: n in dependencies && outcomes[n] == OutcomeOf(dependencies[n], polls(n))
    ensures err.None? ==> outcomes.Keys == set n | n in dependencies && Polled(e, n, dependencies[n])
  {
    hide ConditionOf, Meets, Fails, Lapses;
    err, outcomes := None, map[];
    var todo := dependencies.Keys;
    var failed: Option<Name> := None;
    ghost var done := {};
    while todo != {}
      invariant todo !! done && todo + done == dependencies.Keys
      invariant outcomes.Keys == set n | n in done && Polled(e, n, dependencies[n])
      invariant forall n <- outcomes :: outcomes[n] == OutcomeOf(dependencies[n], polls(n))
      invariant failed.Some? <==> exists n <- done :: Blames(n, dependencies[n], e, polls)
      invariant failed.Some? ==> Accuses(DependencyFailed(failed.value), dependencies, e, polls)
    {
      var n :| n in todo;
      todo, done := todo - {n}, done + {n};
      var d := dependencies[n];
      match ShouldWait(n, d, e.known(n)) {
        case Err(problem) =>
          assert Blames(n, d, e, polls);
          return Some(problem), outcomes;
        case Ok(false) => continue;
        case Ok(true) =>
      }
      if e.containers(n) == 0 {
        if d.required {
          assert Blames(n, d, e, polls);
          return Some(MissingDependency(n)), outcomes;
        }
        continue;
      }
      FailedIff(d, polls(n));
      var outcome := WaitFor(d, polls(n));
      outcomes := outcomes[n := outcome];
      if outcome == Failed {
        failed := Some(n);
      }
    }
    if failed.Some? {
      err := Some(DependencyFailed(failed.value));
    }
  }

  lemma FailedIff(d: Dependency, polls: seq<seq<Inspection>>)
    ensures OutcomeOf(d, polls) == Failed <==> Fails(d, polls)
    ensures OutcomeOf(d, polls) == Met <==> Meets(d, polls)
  {
    if Fails(d, polls) {
      var k: nat :| Decisive(ConditionOf(d), polls, k) && Fatal(d, polls[k]);
      OneDecides(d, polls, k);
      ShownIsNotBroken(ConditionOf(d), polls[k]);
    }
  }

  /** The dependencies that the service requires, if they are polled under a
      supported condition. */
  function Awaited(dependencies: map<Name, Dependency>, e: Surroundings): set<Name> {
    set n | n in dependencies && dependencies[n].required && Polled(e, n, dependencies[n])
            && ConditionOf(dependencies[n]) != Unsupported
  }

  /** Each of them was seen to meet its condition. */
  ghost predicate RequiredMet(dependencies: map<Name, Dependency>, e: Surroundings, polls: Polls) {
    forall n <- Awaited(dependencies, e) ::
      exists k :: 0 <= k < |polls(n)| && Shows(ConditionOf(dependencies[n]), polls(n)[k])
  }

  /** When a wait that ends without error is worth its name: every awaited
      condition was shown if and only if for none of them the context was done
      while it was still undecided. A timeout is no error. */
  lemma RequiredMetIff(dependencies: map<Name, Dependency>, e: Surroundings, polls: Polls)
    requires !Blamed(dependencies, e, polls)
    ensures RequiredMet(dependencies, e, polls) <==>
              forall n <- Awaited(dependencies, e) :: !Undecided(ConditionOf(dependencies[n]), polls(n), |polls(n)|)
    ensures RequiredMet(dependencies, e, polls) <==>
              forall n <- Awaited(dependencies, e) :: Meets(dependencies[n], polls(n))
  {
    forall n <- Awaited(dependencies, e)
      ensures Meets(dependencies[n], polls(n)) <==> !Undecided(ConditionOf(dependencies[n]), polls(n), |polls(n)|)
      ensures Meets(dependencies[n], polls(n)) <==>
                exists k :: 0 <= k < |polls(n)| && Shows(ConditionOf(dependencies[n]), polls(n)[k])
    {
      assert !Blames(n, dependencies[n], e, polls);
      MeetsIff(dependencies[n], polls(n));
    }
  }

  lemma MeetsIff(d: Dependency, polls: seq<seq<Inspection>>)
    requires d.required && !Fails(d, polls)
    ensures Meets(d, polls) <==> !Undecided(ConditionOf(d), polls, |polls|)
    ensures Meets(d, polls) <==> exists k :: 0 <= k < |polls| && Shows(ConditionOf(d), polls[k])
  {
    if !Undecided(ConditionOf(d), polls, |polls|) {
      var k := FirstDecisive(ConditionOf(d), polls, |polls|);
    }
  }

  lemma {:induction false} FirstDecisive(c: Condition, polls: seq<seq<Inspection>>, n: nat) returns (k: nat)
    requires n <= |polls| && !Undecided(c, polls, n)
    ensures Decisive(c, polls, k)
    decreases n
  {
    if Undecided(c, polls, n - 1) {
      k := n - 1;
    } else {
      k := FirstDecisive(c, polls, n - 1);
    }
  }

  /** For instance, a required dependency that is still starting at every tick. */
  lemma SilentTimeout(name: Name, ticks: nat)
    returns (dependencies: map<Name, Dependency>, e: Surroundings, polls: Polls)
    ensures |polls(name)| == ticks && dependencies == map[name := Projects.Dependency("service_healthy", false, true)]
    ensures Awaited(dependencies, e) == {name} && !RequiredMet(dependencies, e, polls)
    ensures !Blamed(dependencies, e, polls)
  {
    var answer := Inspected(Running, 0, Some(["CMD"]), Some(Starting));
    dependencies := map[name := Projects.Dependency("service_healthy", false, true)];
    e := Surroundings(_ => Declared(1, false), _ => 1);
    polls := _ => seq(ticks, _ => [answer]);
    assert HealthVerdict([answer], false) == No;
    HealthyMeansAll([answer]);
  }

  /** What comes of starting a container: secrets, configs or the start itself
      fail; it was started, but a hook after that fails; or all is well. */
  datatype Attempt = Refused | HookFailed | Completed

  /** A container of the service: its ID, whether it is running already, and what
      comes of starting it. */
  datatype Candidate = Candidate(id: string, running: bool, attempt: Attempt)

  predicate Troubled(c: Candidate) {
    !c.running && !c.attempt.Completed?
  }

  ghost predicate FirstTroubled(own: seq<Candidate>, i: int) {
    0 <= i < |own| && Troubled(own[i]) && forall j :: 0 <= j < i ==> !Troubled(own[j])
  }

  /** All that was not running was started, up to the first trouble, which is the
      error; a container whose hook fails has been started. */
  ghost predicate AllStarted(own: seq<Candidate>, err: Option<StartError>, started: seq<string>) {
    if forall c <- own :: !Troubled(c) then err.None? && started == ToStart(own)
    else
      exists i :: FirstTroubled(own, i) &&
        if own[i].attempt.HookFailed? then err == Some(HookError) && started == ToStart(own[..i]) + [own[i].id]
        else err == Some(EngineError) && started == ToStart(own[..i])
  }

  /** What startService returns. started lists the containers that were started,
      in order. */
  ghost predicate StartOutcome(noReplicas: bool, scale: nat, dependencies: map<Name, Dependency>, e: Surroundings,
                               polls: Polls, projectContainers: nat, own: seq<Candidate>,
                               err: Option<StartError>, started: seq<string>)
  {
    if noReplicas then err.None? && started == []
    else if Blamed(dependencies, e, polls) then err.Some? && Accuses(err.value, dependencies, e, polls) && started == []
    else if projectContainers == 0 then started == [] && err == if scale == 0 then None else Some(NothingToStart)
    else AllStarted(own, err, started)
  }

  /** startService. Containers are started only if no dependency is to blame; by
      RequiredMetIff all awaited conditions were shown then, unless the context
      was done before. */
  method StartService(noReplicas: bool, scale: nat, dependencies: map<Name, Dependency>, e: Surroundings,
                      polls: Polls, projectContainers: nat, own: seq<Candidate>)
    returns (err: Option<StartError>, started: seq<string>)
    ensures StartOutcome(noReplicas, scale, dependencies, e, polls, projectContainers, own, err, started)
  {
    hide Blamed, Accuses, AllStarted;
    err, started := None, [];
    if noReplicas {
      return;
    }
    var outcomes;
    err, outcomes := WaitDependencies(dependencies, e, polls);
    if err.Some? {
      return;
    }
    if projectContainers == 0 {
      return if scale == 0 then None else Some(NothingToStart), started;
    }
    err, started := StartContainers(own);
  }

  method StartContainers(own: seq<Candidate>) returns (err: Option<StartError>, started: seq<string>)
    ensures AllStarted(own, err, started)
  {
    started := [];
    for i := 0 to |own|
      invariant started == ToStart(own[..i]) && forall j :: 0 <= j < i ==> !Troubled(own[j])
    {
      var ctr := own[i];
      assert own[..i + 1][..i] == own[..i];
      if ctr.running {
        continue;
      }
      assert Troubled(ctr) ==> FirstTroubled(own, i);
      if ctr.attempt.Refused? {
        return Some(EngineError), started;
      }
      started := started + [ctr.id];
      if ctr.attempt.HookFailed? {
        return Some(HookError), started;
      }
    }
    assert own[..|own|] == own;
    return None, started;
  }

  /** The containers that are not running. */
  function ToStart(own: seq<Candidate>): seq<string> {
    if own == [] then []
    else
      var last := own[|own| - 1];
      ToStart(own[..|own| - 1]) + if last.running then [] else [last.id]
  }

  /** They are listed in order, each once. */
  lemma {:induction false} ToStartAre(own: seq<Candidate>) returns (at: seq<nat>)
    ensures Places(at, set k: nat | k < |own| && !own[k].running)
    ensures |ToStart(own)| == |at| && forall i :: 0 <= i < |at| ==> at[i] < |own| && ToStart(own)[i] == own[at[i]].id
  {
    at := [];
    if own != [] {
      var n := |own| - 1;
      at := ToStartAre(own[..n]);
      var earlier := set k: nat | k < n && !own[..n][k].running;
      assert (set k: nat | k < |own| && !own[k].running) == if own[n].running then earlier else earlier + {n};
      if !own[n].running {
        PlacesMore(at, earlier, n);
        at := at + [n];
      }
    }
  }
}
