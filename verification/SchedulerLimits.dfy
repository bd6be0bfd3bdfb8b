/** What the traversal does not guarantee once the context of its caller is
    cancelled, and for which graphs. */
module SchedulerLimits {
  import opened Wrappers
  import opened Collections
  import opened Digraphs
  import opened Dependencies
  import opened Scheduler
  import opened SchedulerInvariant
  import opened SchedulerTrace

  lemma Then(c: Config, actions: seq<Action>, s: State, a: Action)
    requires Run(c, actions) == Some(s) && Enabled(c, s, a)
    ensures Run(c, actions + [a]) == Some(Next(c, s, a))
  {
  }

  /** The caller cancels the context and the coordinator leaves at once. */
  lemma Abandon(c: Config, actions: seq<Action>, s: State) returns (actions': seq<Action>, s': State)
    requires Run(c, actions) == Some(s) && s.coordinator.Idle? && !s.interrupted
    ensures Run(c, actions') == Some(s')
    ensures s' == s.(cancelled := true, interrupted := true, coordinator := Stopped)
  {
    hide Run;
    Then(c, actions, s, Interrupt);
    var s1 := Next(c, s, Interrupt);
    Then(c, actions + [Interrupt], s1, SeeDone);
    actions', s' := actions + [Interrupt] + [SeeDone], Next(c, s1, SeeDone);
  }

  /** run(), in the goroutine main, tests v and consumes it. */
  lemma MainClaims(c: Config, actions: seq<Action>, s: State, v: Name) returns (actions': seq<Action>, s': State)
    requires Run(c, actions) == Some(s)
    requires s.main.Scanning? && v in s.main.todo && v in s.phase && s.phase[v].Unseen?
    requires WithStatus(s.status, c.Before(v), c.skip) == {}
    ensures Run(c, actions') == Some(s')
    ensures s' == s.(phase := s.phase[v := Seen], main := Launching(v, s.main.todo - {v}))
  {
    hide Run;
    Then(c, actions, s, Look(Main, v));
    var s1 := Next(c, s, Look(Main, v));
    Then(c, actions + [Look(Main, v)], s1, Claim(Main));
    actions', s' := actions + [Look(Main, v)] + [Claim(Main)], Next(c, s1, Claim(Main));
  }

  /** Then it launches the goroutine of v, which calls the visitor. */
  lemma MainStarts(c: Config, actions: seq<Action>, s: State, v: Name) returns (actions': seq<Action>, s': State)
    requires Run(c, actions) == Some(s)
    requires s.main.Scanning? && v in s.main.todo && v in s.phase && s.phase[v].Unseen? && v !in c.ignored
    requires WithStatus(s.status, c.Before(v), c.skip) == {}
    requires c.maxConcurrency > 0 ==> s.Slots() < c.maxConcurrency + 1
    ensures Run(c, actions') == Some(s')
    ensures s' == s.(phase := s.phase[v := Visiting], main := Scanning(s.main.todo - {v}), log := s.log + [Start(v)])
  {
    hide Run;
    var actions1, s1 := MainClaims(c, actions, s, v);
    assert s1.Workers() == s.Workers();
    Then(c, actions1, s1, Launch(Main));
    var s2 := Next(c, s1, Launch(Main));
    Then(c, actions1 + [Launch(Main)], s2, Begin(v));
    actions', s' := actions1 + [Launch(Main)] + [Begin(v)], Next(c, s2, Begin(v));
    assert s'.phase == s.phase[v := Visiting];
  }

  /** The visitor of v succeeds and its goroutine runs to its end. */
  lemma WorkerEnds(c: Config, actions: seq<Action>, s: State, v: Name) returns (actions': seq<Action>, s': State)
    requires Run(c, actions) == Some(s) && v in s.phase && s.phase[v].Visiting? && |s.queue| < |c.Nodes()| && !s.closed
    ensures Run(c, actions') == Some(s')
    ensures s' == s.(phase := s.phase[v := Gone(true)], status := s.status[v := c.target],
                     queue := s.queue + [v], log := s.log + [End(v, true)])
  {
    hide Run;
    Then(c, actions, s, Return(v, true));
    actions', s' := WorkerSends(c, actions + [Return(v, true)], Next(c, s, Return(v, true)), v);
    assert s'.phase == s.phase[v := Gone(true)];
  }

  lemma WorkerSends(c: Config, actions: seq<Action>, s: State, v: Name) returns (actions': seq<Action>, s': State)
    requires Run(c, actions) == Some(s) && v in s.phase && s.phase[v] == Returned(true)
    requires |s.queue| < |c.Nodes()| && !s.closed
    ensures Run(c, actions') == Some(s')
    ensures s' == s.(phase := s.phase[v := Gone(true)], status := s.status[v := c.target], queue := s.queue + [v])
  {
    hide Run;
    Then(c, actions, s, Update(v));
    var s1 := Next(c, s, Update(v));
    Then(c, actions + [Update(v)], s1, Send(v));
    var s2 := Next(c, s1, Send(v));
    Then(c, actions + [Update(v)] + [Send(v)], s2, Exit(v));
    s' := Next(c, s2, Exit(v));
    assert s'.phase == s.phase[v := Gone(true)];
    actions' := actions + [Update(v)] + [Send(v)] + [Exit(v)];
  }

  /** With nothing left to launch and nobody running, main returns. */
  lemma MainReturns(c: Config, actions: seq<Action>, s: State) returns (actions': seq<Action>, s': State)
    requires Run(c, actions) == Some(s) && s.main == Scanning({}) && s.coordinator.Stopped? && s.Quiet()
    ensures Run(c, actions') == Some(s') && s' == s.(main := Stopped, closed := true)
  {
    hide Run;
    var s1 := Next(c, s, Leave(Main));
    Then(c, actions, s, Leave(Main));
    Then(c, actions + [Leave(Main)], s1, Finish);
    actions', s' := actions + [Leave(Main)] + [Finish], Next(c, s1, Finish);
  }

  /** A vertex that has not been sent leaves room in the channel. */
  lemma RoomFor(c: Config, s: State, v: Name)
    requires Inv(c, s) && v in s.phase && !s.phase[v].Delivered() && !s.main.Stopped?
    ensures |s.queue| < |c.Nodes()| && !s.closed
  {
    var others := c.Nodes() - {v};
    forall u <- s.queue ensures u in others {
    }
    DistinctFits(s.queue, others);
  }

  /** main takes v, an ignored sink, through all its steps. */
  lemma MainSkips(c: Config, actions: seq<Action>, s: State, v: Name) returns (actions': seq<Action>, s': State)
    requires Run(c, actions) == Some(s) && |s.queue| < |c.Nodes()| && !s.closed
    requires s.main.Scanning? && v in s.main.todo && v in s.phase && s.phase[v].Unseen? && v in c.ignored
    requires WithStatus(s.status, c.Before(v), c.skip) == {}
    requires c.maxConcurrency > 0 ==> s.Slots() < c.maxConcurrency + 1
    ensures Run(c, actions') == Some(s')
    ensures s' == s.(phase := s.phase[v := Gone(true)], status := s.status[v := c.target],
                     queue := s.queue + [v], main := Scanning(s.main.todo - {v}))
  {
    hide Run;
    var actions1, s1 := MainClaims(c, actions, s, v);
    assert s1.Workers() == s.Workers();
    Then(c, actions1, s1, Launch(Main));
    var s2 := Next(c, s1, Launch(Main));
    Then(c, actions1 + [Launch(Main)], s2, Begin(v));
    var s3 := Next(c, s2, Begin(v));
    actions', s' := WorkerSends(c, actions1 + [Launch(Main)] + [Begin(v)], s3, v);
    assert s'.phase == s.phase[v := Gone(true)];
  }

  /** The coordinator is gone, and main has only sinks left that were not run. */
  ghost predicate MainLeft(c: Config, s: State) {
    && s.main.Scanning? && s.coordinator.Stopped? && s.Quiet() && s.failure.None?
    && forall v <- s.main.todo :: v in s.phase && s.phase[v].Unseen? && c.Before(v) == {}
  }

  /** With the coordinator gone, main runs the remaining sinks one by one. */
  lemma {:induction false} MainRunsAll(c: Config, actions: seq<Action>, s: State)
    returns (actions': seq<Action>, s': State)
    requires c.Valid() && Run(c, actions) == Some(s) && MainLeft(c, s)
    ensures Run(c, actions') == Some(s') && s'.main.Stopped? && s'.failure.None? && s'.interrupted == s.interrupted
    ensures forall v :: Start(v) in s'.log ==> Start(v) in s.log || v in s.main.todo
    decreases |s.main.todo|
  {
    hide Run, Config.Valid, State.Quiet;
    if s.main.todo == {} {
      actions', s' := MainReturns(c, actions, s);
    } else {
      var v :| v in s.main.todo;
      var actions1, s1 := MainRunsOne(c, actions, s, v);
      actions', s' := MainRunsAll(c, actions1, s1);
    }
  }

  lemma MainRunsOne(c: Config, actions: seq<Action>, s: State, v: Name) returns (actions': seq<Action>, s': State)
    requires c.Valid() && Run(c, actions) == Some(s) && MainLeft(c, s) && v in s.main.todo
    ensures Run(c, actions') == Some(s') && MainLeft(c, s')
    ensures s'.main.todo == s.main.todo - {v} && s'.interrupted == s.interrupted
    ensures s'.log == s.log + if v in c.ignored then [] else [Start(v), End(v, true)]
  {
    RunInv(c, actions);
    RoomFor(c, s, v);
    assert s.Workers() == {};
    hide Inv, Run, Config.Valid;
    actions', s' := MainRuns(c, actions, s, v);
  }

  lemma MainRuns(c: Config, actions: seq<Action>, s: State, v: Name) returns (actions': seq<Action>, s': State)
    requires Run(c, actions) == Some(s) && |s.queue| < |c.Nodes()| && !s.closed
    requires s.main.Scanning? && v in s.main.todo && v in s.phase && s.phase[v].Unseen? && c.Before(v) == {}
    requires s.Workers() == {} && s.coordinator.Stopped?
    ensures Run(c, actions') == Some(s')
    ensures s' == s.(phase := s.phase[v := Gone(true)], status := s.status[v := c.target], queue := s.queue + [v],
                     main := Scanning(s.main.todo - {v}),
                     log := s.log + if v in c.ignored then [] else [Start(v), End(v, true)])
  {
    hide Run;
    if v in c.ignored {
      actions', s' := MainSkips(c, actions, s, v);
    } else {
      actions', s' := MainStarts(c, actions, s, v);
      actions', s' := WorkerEnds(c, actions', s', v);
      assert s'.phase == s.phase[v := Gone(true)];
      assert s'.log == s.log + [Start(v), End(v, true)];
    }
  }

  // ---- a caller who cancels ----

  ghost predicate ReturnsNil(c: Config, actions: seq<Action>) {
    Run(c, actions).Some? && Run(c, actions).value.main.Stopped? && Outcome(Run(c, actions).value).None?
  }

  ghost predicate VisitedAll(c: Config, s: State) {
    forall v <- c.Nodes() - c.ignored :: Start(v) in s.log && End(v, true) in s.log
  }

  /** After a cancellation by its caller, visit may return nil although v was
      never visited: for every v that comes after another vertex. */
  lemma SilentInterruption(c: Config, v: Name) returns (actions: seq<Action>)
    requires c.Valid() && v in c.Nodes() - c.ignored && c.Before(v) != {}
    ensures ReturnsNil(c, actions) && Run(c, actions).value.interrupted && Start(v) !in Run(c, actions).value.log
  {
    var s;
    actions, s := Abandon(c, [], Init(c));
    assert s.Quiet() && s.log == [];
    actions, s := MainRunsAll(c, actions, s);
  }

  /** main launches the vertices that come after none, and forgets none of them. */
  ghost predicate MainOnSinks(c: Config, s: State) {
    && s.main.Pending() <= Sinks(c.before)
    && (s.main.Launching? ==> s.main.node in Sinks(c.before))
    && forall v <- s.phase | v in Sinks(c.before) && s.phase[v].Unseen? :: v in s.main.Pending()
  }

  lemma KeepsMainOnSinks(c: Config, s: State, a: Action)
    requires c.Valid() && Shape(c, s) && Working(c, s) && Claims(s) && MainOnSinks(c, s) && Enabled(c, s, a)
    ensures MainOnSinks(c, Next(c, s, a))
  {
    MovesOn(c, s, a);
    hide Working, Claims, Follows, MainOnSinks, Next, Enabled;
    MainOnSinksAfter(c, s, a);
  }

  lemma MainOnSinksAfter(c: Config, s: State, a: Action)
    requires MainOnSinks(c, s) && Enabled(c, s, a) && s.phase.Keys == c.Nodes()
    requires var m := Mover(c, s, a); m.Move? ==> m.v in s.phase && Follows(s.phase[m.v], m.to)
    ensures MainOnSinks(c, Next(c, s, a))
  {
    hide NextStatus, NextQueue, NextReceived, NextFailure, NextLog;
  }

  lemma {:induction false} RunMainOnSinks(c: Config, actions: seq<Action>)
    requires c.Valid() && Run(c, actions).Some?
    ensures MainOnSinks(c, Run(c, actions).value)
  {
    if actions != [] {
      var earlier := actions[..|actions| - 1];
      RunMainOnSinks(c, earlier);
      RunInv(c, earlier);
      KeepsMainOnSinks(c, Run(c, earlier).value, actions[|actions| - 1]);
    }
  }

  /** The visits that a nil result promises, whoever cancels: those of the
      vertices that come after none. */
  lemma NilVisitsSinks(c: Config, actions: seq<Action>, v: Name)
    requires c.Valid() && ReturnsNil(c, actions) && v in c.Nodes() - c.ignored && c.Before(v) == {}
    ensures Start(v) in Run(c, actions).value.log && End(v, true) in Run(c, actions).value.log
  {
    RunRecorded(c, actions);
    RunMainOnSinks(c, actions);
    var s := Run(c, actions).value;
    assert !s.phase[v].Unseen? && !s.phase[v].Running();
    assert RecordedAt(c, s, v);
  }

  /** A nil result means that all was visited, even if the caller may cancel,
      exactly if no vertex that is to be visited comes after another. */
  lemma NilMeansAllIff(c: Config)
    requires c.Valid()
    ensures (forall actions | ReturnsNil(c, actions) :: VisitedAll(c, Run(c, actions).value)) <==>
              forall v <- c.Nodes() - c.ignored :: c.Before(v) == {}
  {
    if v :| v in c.Nodes() - c.ignored && c.Before(v) != {} {
      var actions := SilentInterruption(c, v);
    } else {
      forall actions | ReturnsNil(c, actions) ensures VisitedAll(c, Run(c, actions).value) {
        forall v <- c.Nodes() - c.ignored
          ensures Start(v) in Run(c, actions).value.log && End(v, true) in Run(c, actions).value.log
        {
          NilVisitsSinks(c, actions, v);
        }
      }
    }
  }
}
