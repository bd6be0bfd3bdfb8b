/** What waiting for a dependency comes to, in terms of the text of its condition
    and of what the engine answered (pkg/compose/convergence.go:448-576, 806-853). */
module StartConditions {
  import opened Wrappers
  import opened Digraphs
  import opened Containers
  import opened StartProtocol
  import Projects

  // ---- one tick ----

  predicate Alive(a: Inspection) {
    a.Inspected? && a.state != Exited
  }

  predicate WellChecked(a: Inspection) {
    Alive(a) && a.health == Some(Healthy)
  }

  /** It has no health check, or a disabled one. */
  predicate Unchecked(a: Inspection) {
    a.Inspected? && match a.healthcheck case None => true case Some(test) => test != [] && test[0] == "NONE"
  }

  /** The containers before n are healthy; with the fallback they have to be
      checked for that. */
  ghost predicate HealthyBefore(answers: seq<Inspection>, fallback: bool, n: int) {
    0 <= n <= |answers| && forall i :: 0 <= i < n ==> WellChecked(answers[i]) && !(fallback && Unchecked(answers[i]))
  }

  /** The containers before n were found, none of them exited. */
  ghost predicate AliveBefore(answers: seq<Inspection>, n: int) {
    0 <= n <= |answers| && forall i :: 0 <= i < n ==> Alive(answers[i])
  }

  /** All are healthy, or with the fallback all up to one that runs unchecked. */
  ghost predicate ReadyAt(answers: seq<Inspection>, fallback: bool, n: int) {
    && HealthyBefore(answers, fallback, n)
    && (n < |answers| ==> fallback && Alive(answers[n]) && Unchecked(answers[n]) && answers[n].state == Running)
  }

  /** The first that is not healthy is starting, or with the fallback is unchecked
      and does not run yet. */
  ghost predicate PendingAt(answers: seq<Inspection>, fallback: bool, n: int) {
    && HealthyBefore(answers, fallback, n) && n < |answers| && Alive(answers[n])
    && if fallback && Unchecked(answers[n]) then answers[n].state != Running else answers[n].health == Some(Starting)
  }

  ghost predicate CompletedAt(answers: seq<Inspection>, n: int) {
    AliveBefore(answers, n) && n < |answers| && answers[n].Inspected? && answers[n].state == Exited
  }

  /** The wait ends well. */
  ghost predicate Ready(condition: string, answers: seq<Inspection>) {
    if condition == "service_healthy" then forall a <- answers :: WellChecked(a)
    else if condition == "running_or_healthy" then exists n :: ReadyAt(answers, true, n)
    else condition == "service_completed_successfully" &&
         exists n :: CompletedAt(answers, n) && answers[n].exitCode == 0
  }

  /** The wait goes on. */
  ghost predicate Pending(condition: string, answers: seq<Inspection>) {
    if condition == "service_healthy" then exists n :: PendingAt(answers, false, n)
    else if condition == "running_or_healthy" then exists n :: PendingAt(answers, true, n)
    else condition == "service_completed_successfully" && forall a <- answers :: Alive(a)
  }

  /** The container at which the wait breaks could not be inspected. */
  ghost predicate Unanswered(answers: seq<Inspection>) {
    exists n :: AliveBefore(answers, n) && n < |answers| && answers[n] == Unavailable
  }

  lemma {:induction false} VerdictIs(answers: seq<Inspection>, fallback: bool)
    ensures HealthVerdict(answers, fallback) == Yes <==> exists n :: ReadyAt(answers, fallback, n)
    ensures HealthVerdict(answers, fallback) == No <==> exists n :: PendingAt(answers, fallback, n)
  {
    if answers == [] {
      assert ReadyAt(answers, fallback, 0);
    } else if WellChecked(answers[0]) && !(fallback && Unchecked(answers[0])) {
      VerdictIs(answers[1..], fallback);
      forall n ensures ReadyAt(answers, fallback, n) <==> ReadyAt(answers[1..], fallback, n - 1)
        ensures PendingAt(answers, fallback, n) <==> PendingAt(answers[1..], fallback, n - 1)
      {
        TailAt(answers, fallback, n);
      }
      if n :| ReadyAt(answers[1..], fallback, n) {
        assert ReadyAt(answers, fallback, n + 1);
      }
      if n :| PendingAt(answers[1..], fallback, n) {
        assert PendingAt(answers, fallback, n + 1);
      }
    } else {
      assert HealthyBefore(answers, fallback, 0);
      assert ReadyAt(answers, fallback, 0) <==> HealthVerdict(answers, fallback) == Yes;
      assert PendingAt(answers, fallback, 0) <==> HealthVerdict(answers, fallback) == No;
    }
  }

  lemma TailAt(answers: seq<Inspection>, fallback: bool, n: int)
    requires answers != [] && WellChecked(answers[0]) && !(fallback && Unchecked(answers[0]))
    ensures ReadyAt(answers, fallback, n) <==> ReadyAt(answers[1..], fallback, n - 1)
    ensures PendingAt(answers, fallback, n) <==> PendingAt(answers[1..], fallback, n - 1)
  {
    assert HealthyBefore(answers, fallback, n) ==> HealthyBefore(answers[1..], fallback, n - 1) || n == 0;
    if HealthyBefore(answers[1..], fallback, n - 1) {
      forall i | 0 <= i < n ensures WellChecked(answers[i]) && !(fallback && Unchecked(answers[i])) {
        assert i > 0 ==> answers[i] == answers[1..][i - 1];
      }
    }
  }

  const HEALTHY := "service_healthy"
  const RUNNING_OR_HEALTHY := "running_or_healthy"
  const COMPLETED := "service_completed_successfully"

  lemma TickIs(d: Dependency, answers: seq<Inspection>)
    ensures Shows(ConditionOf(d), answers) <==> Ready(d.condition, answers)
    ensures d.condition in {HEALTHY, RUNNING_OR_HEALTHY, COMPLETED} ==>
              (Pending(d.condition, answers) <==>
               !Shows(ConditionOf(d), answers) && !Breaks(ConditionOf(d), answers))
    ensures d.condition !in {HEALTHY, RUNNING_OR_HEALTHY, COMPLETED} ==> !Breaks(ConditionOf(d), answers)
    ensures Fatal(d, answers) <==>
              Breaks(ConditionOf(d), answers) && (d.required || (d.condition == COMPLETED && Unanswered(answers)))
  {
    VerdictIs(answers, false);
    VerdictIs(answers, true);
    HealthyMeansAll(answers);
    CompletedIs(answers);
  }

  lemma CompletedIs(answers: seq<Inspection>)
    ensures forall i :: CompletedAt(answers, i) <==> FirstExited(answers, i)
    ensures Unanswered(answers) <==> exists i :: FirstUnavailable(answers, i)
    ensures (forall a <- answers :: Alive(a)) <==>
              (forall i :: !FirstExited(answers, i)) && forall i :: !FirstUnavailable(answers, i)
  {
    forall i ensures FirstUnavailable(answers, i) <==>
                       AliveBefore(answers, i) && i < |answers| && answers[i] == Unavailable {
    }
    if a :| a in answers && !Alive(a) {
      var n := FirstGone(answers, |answers|);
      assert FirstExited(answers, n) || FirstUnavailable(answers, n);
    } else {
      assert forall i :: 0 <= i < |answers| ==> answers[i] in answers && Alive(answers[i]);
    }
  }

  lemma {:induction false} FirstGone(answers: seq<Inspection>, m: nat) returns (n: nat)
    requires m <= |answers| && !AliveBefore(answers, m)
    ensures n < m && AliveBefore(answers, n) && !Alive(answers[n])
  {
    if AliveBefore(answers, m - 1) {
      n := m - 1;
    } else {
      n := FirstGone(answers, m - 1);
    }
  }

  // ---- all ticks ----

  /** Tick k is the first after which the wait does not go on. */
  ghost predicate EndsAt(condition: string, polls: seq<seq<Inspection>>, k: int) {
    0 <= k < |polls| && !Pending(condition, polls[k]) && forall j :: 0 <= j < k ==> Pending(condition, polls[j])
  }

  /** What an optional dependency is not forgiven. */
  ghost predicate Unforgiven(d: Dependency, answers: seq<Inspection>) {
    d.required || (d.condition == "service_completed_successfully" && Unanswered(answers))
  }

  /** The outcome is decided by the first tick that is not pending: the condition
      is met if that one is ready, and else it is a failure, or skipped. */
  lemma OutcomeIs(d: Dependency, polls: seq<seq<Inspection>>)
    requires d.condition in {"service_healthy", "running_or_healthy", "service_completed_successfully"}
    ensures OutcomeOf(d, polls) == Lapsed <==> forall k :: 0 <= k < |polls| ==> Pending(d.condition, polls[k])
    ensures forall k :: EndsAt(d.condition, polls, k) ==>
              OutcomeOf(d, polls) == if Ready(d.condition, polls[k]) then Met
                                     else if Unforgiven(d, polls[k]) then Failed else Skipped
  {
    forall k | 0 <= k < |polls|
      ensures Shows(ConditionOf(d), polls[k]) <==> Ready(d.condition, polls[k])
      ensures Pending(d.condition, polls[k]) <==>
                !Shows(ConditionOf(d), polls[k]) && !Breaks(ConditionOf(d), polls[k])
      ensures Fatal(d, polls[k]) <==> Breaks(ConditionOf(d), polls[k]) && Unforgiven(d, polls[k])
    {
      TickIs(d, polls[k]);
    }
    forall k | EndsAt(d.condition, polls, k) ensures Decisive(ConditionOf(d), polls, k) {
    }
    forall k: nat | EndsAt(d.condition, polls, k)
      ensures OutcomeOf(d, polls) ==
                if Shows(ConditionOf(d), polls[k]) then Met else if Fatal(d, polls[k]) then Failed else Skipped
    {
      OneDecides(d, polls, k);
    }
    if !forall k :: 0 <= k < |polls| ==> Pending(d.condition, polls[k]) {
      var k := FirstEnd(d.condition, polls, |polls|);
    }
  }

  lemma {:induction false} FirstEnd(condition: string, polls: seq<seq<Inspection>>, n: nat) returns (k: nat)
    requires n <= |polls| && !forall j :: 0 <= j < n ==> Pending(condition, polls[j])
    ensures EndsAt(condition, polls, k)
  {
    if forall j :: 0 <= j < n - 1 ==> Pending(condition, polls[j]) {
      k := n - 1;
    } else {
      k := FirstEnd(condition, polls, n - 1);
    }
  }

  /** Under any other condition the wait is given up at the first tick. */
  lemma UnsupportedIsNotChecked(d: Dependency, polls: seq<seq<Inspection>>)
    requires d.condition !in {"service_healthy", "running_or_healthy", "service_completed_successfully"}
    ensures OutcomeOf(d, polls) == if polls == [] then Lapsed else NotChecked
  {
    forall k | 0 <= k < |polls|
      ensures !Shows(ConditionOf(d), polls[k]) && !Breaks(ConditionOf(d), polls[k])
    {
      TickIs(d, polls[k]);
    }
  }

  /** Why waiting for dependencies fails: each of them is passed over if it only
      has to be started, or is disabled, not scaled, or run by a plugin. */
  lemma BlamesIff(name: Name, d: Dependency, e: Surroundings, polls: Polls)
    ensures Blames(name, d, e, polls) <==>
              && d.condition != "service_started"
              && match e.known(name)
                 case Undeclared => true
                 case Disabled => false
                 case Declared(scale, provider) =>
                   scale > 0 && !provider &&
                   if e.containers(name) == 0 then d.required else OutcomeOf(d, polls(name)) == Failed
  {
    hide OutcomeOf, Fails;
    FailedIff(d, polls(name));
  }

  /** Which dependencies are waited for. */
  lemma AwaitedIff(dependencies: map<Name, Dependency>, e: Surroundings, n: Name)
    ensures n in Awaited(dependencies, e) <==>
              && n in dependencies && dependencies[n].required
              && dependencies[n].condition in
                   {"service_healthy", "running_or_healthy", "service_completed_successfully"}
              && e.containers(n) > 0
              && (match e.known(n) case Declared(scale, provider) => scale > 0 && !provider case _ => false)
  {
  }

  /** For instance, at the first tick: a healthy container meets service_healthy, an
      exited one breaks it; one that exited with code 0 meets
      service_completed_successfully, which a running one leaves open; and a
      running one without a health check meets running_or_healthy. */
  lemma OneTick(d: Dependency, answer: Inspection)
    requires answer.Inspected? && d.required
    ensures d.condition == "service_healthy" && answer.state == Running && answer.health == Some(Healthy) ==>
              OutcomeOf(d, [[answer]]) == Met
    ensures d.condition == "service_healthy" && answer.state == Exited ==> OutcomeOf(d, [[answer]]) == Failed
    ensures d.condition == "service_completed_successfully" && answer.state == Exited ==>
              OutcomeOf(d, [[answer]]) == if answer.exitCode == 0 then Met else Failed
    ensures d.condition == "service_completed_successfully" && answer.state == Running ==>
              OutcomeOf(d, [[answer]]) == Lapsed
    ensures d.condition == "running_or_healthy" && answer.state == Running && answer.healthcheck.None? ==>
              OutcomeOf(d, [[answer]]) == Met
  {
    var polls := [[answer]];
    assert polls[0] == [answer] && answer in polls[0] && polls[0][0] == answer;
    if d.condition in {"service_healthy", "running_or_healthy", "service_completed_successfully"} {
      OutcomeIs(d, polls);
      assert CompletedAt(polls[0], 0) <==> answer.state == Exited;
      assert ReadyAt(polls[0], true, 0) <==> Alive(answer) && Unchecked(answer) && answer.state == Running;
      assert EndsAt(d.condition, polls, 0) <==> !Pending(d.condition, [answer]);
    }
  }

  /** Starting the containers of a service: up to the first that is not running
      and cannot be started, or whose hook fails; only the latter counts as
      started. */
  lemma StartsUntil(own: seq<Candidate>, err: Option<StartError>, started: seq<string>)
    requires AllStarted(own, err, started)
    ensures err.None? <==> forall c <- own :: c.running || c.attempt == Completed
    ensures err.None? ==> started == ToStart(own)
    ensures err.Some? ==>
              exists i :: 0 <= i < |own| && !own[i].running && own[i].attempt != Completed &&
                (forall j :: 0 <= j < i ==> own[j].running || own[j].attempt == Completed) &&
                started == ToStart(own[..i]) + if own[i].attempt == HookFailed then [own[i].id] else []
  {
    if err.Some? {
      var i :| FirstTroubled(own, i) &&
        if own[i].attempt.HookFailed? then err == Some(HookError) && started == ToStart(own[..i]) + [own[i].id]
        else err == Some(EngineError) && started == ToStart(own[..i]);
      assert own[i] in own;
    }
  }

  /** The error names a dependency that is to blame, and the reason. */
  lemma AccusesRightly(err: StartError, dependencies: map<Name, Dependency>, e: Surroundings, polls: Polls)
    requires Accuses(err, dependencies, e, polls)
    ensures match err
            case NoSuchService(n) =>
              n in dependencies && dependencies[n].condition != "service_started" && e.known(n) == Undeclared
            case MissingDependency(n) =>
              && n in dependencies && dependencies[n].condition != "service_started" && dependencies[n].required
              && e.known(n).Declared? && e.containers(n) == 0
            case DependencyFailed(n) =>
              n in dependencies && e.containers(n) > 0 && OutcomeOf(dependencies[n], polls(n)) == Failed
            case _ => false
  {
    if err.DependencyFailed? {
      FailedIff(dependencies[err.name], polls(err.name));
    }
  }
}
