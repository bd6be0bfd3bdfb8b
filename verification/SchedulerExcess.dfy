/** How many visitors run at once when the context is cancelled
    (pkg/compose/dependencies.go:138-163). The limit of k visitors is one of
    k + 1 goroutines, of which the coordinator is one; once it has left, main may
    launch another worker, but main launches only vertices that come after none. */
module SchedulerExcess {
  import opened Wrappers
  import opened Collections
  import opened Digraphs
  import opened Dependencies
  import opened Scheduler
  import opened SchedulerInvariant
  import opened SchedulerTrace
  import opened SchedulerProgress
  import opened SchedulerLimits

  /** None of the vertices comes after another, at any distance. */
  ghost predicate Apart(g: Digraph, vs: set<Name>) {
    forall u, v | u in vs && v in vs :: !Reaches(g, u, v)
  }

  /** One vertex more than the limit; all may be visited at once, and one can be
      launched by main. */
  ghost predicate Crowd(c: Config, vs: set<Name>) {
    && |vs| == c.maxConcurrency + 1 && vs <= c.Nodes() - c.ignored
    && Apart(c.before, vs) && vs * Sinks(c.before) != {}
  }

  // ---- an excess is a crowd ----

  /** The worker that uses the slot of the coordinator was launched by main. */
  ghost predicate ExtraIsSink(c: Config, s: State) {
    c.maxConcurrency > 0 && s.coordinator.Stopped? && |s.Workers()| > c.maxConcurrency ==>
      s.Workers() * Sinks(c.before) != {}
  }

  lemma KeepsExtraIsSink(c: Config, s: State, a: Action)
    requires Inv(c, s) && MainOnSinks(c, s) && ExtraIsSink(c, s) && Enabled(c, s, a)
    ensures ExtraIsSink(c, Next(c, s, a))
  {
    if a.Launch? {
      LaunchKeepsExtra(c, s, a);
    } else {
      WorkersAfter(c, s, a);
      CoordinatorHears(c, s, a);
      hide NextPhase, NextLauncher, NextStatus, NextQueue, NextReceived, NextFailure, NextLog, State.Workers, Enabled;
      hide Shape, Working, StatusAgrees, Ordered, Claims, Delivery, Awake, CoordinatorEnds, MainEnds, Errors;
      SubsetSize(Next(c, s, a).Workers(), s.Workers());
    }
  }

  lemma LaunchKeepsExtra(c: Config, s: State, a: Action)
    requires Inv(c, s) && MainOnSinks(c, s) && Enabled(c, s, a) && a.Launch?
    ensures ExtraIsSink(c, Next(c, s, a))
  {
    hide NextStatus, NextQueue, NextReceived, NextFailure, NextLog, StatusAgrees, Ordered, Claims, Delivery, Awake;
    assert s.At(a.who).node in Next(c, s, a).Workers();
    assert a.who.Main? ==> s.main.node in Next(c, s, a).Workers() * Sinks(c.before);
  }

  lemma {:induction false} RunExtraIsSink(c: Config, actions: seq<Action>)
    requires c.Valid() && Run(c, actions).Some?
    ensures ExtraIsSink(c, Run(c, actions).value)
  {
    if actions == [] {
      assert Init(c).Workers() == {};
    } else {
      var earlier := actions[..|actions| - 1];
      RunExtraIsSink(c, earlier);
      RunInv(c, earlier);
      RunMainOnSinks(c, earlier);
      KeepsExtraIsSink(c, Run(c, earlier).value, actions[|actions| - 1]);
    }
  }

  lemma VisitorsApart(c: Config, s: State)
    requires Inv(c, s)
    ensures Apart(c.before, Visitors(s))
  {
    forall u, v | u in Visitors(s) && v in Visitors(s) ensures !Reaches(c.before, u, v) {
      if Reaches(c.before, u, v) {
        var p :| Connects(c.before, p, u, v);
        AllBeforeFinished(c, s, p);
        assert false;
      }
    }
  }

  lemma ExcessIsCrowd(c: Config, actions: seq<Action>)
    requires c.Valid() && c.maxConcurrency > 0 && Run(c, actions).Some?
    requires |Visitors(Run(c, actions).value)| > c.maxConcurrency
    ensures Crowd(c, Visitors(Run(c, actions).value))
  {
    var s := Run(c, actions).value;
    RunRecorded(c, actions);
    RunExtraIsSink(c, actions);
    VisitorsApart(c, s);
    SubsetSize(Visitors(s), s.Workers());
    forall v <- Visitors(s) ensures v in c.Nodes() - c.ignored {
      assert RecordedAt(c, s, v);
    }
  }

  // ---- a crowd can gather ----

  predicate Held(l: Launcher) {
    l.Claiming? || l.Launching?
  }

  ghost predicate AllTaken(s: State, others: set<Name>) {
    forall v <- others :: v in s.phase && !s.phase[v].Unseen?
  }

  /** The others are on their way, while main has put off x. */
  ghost predicate Gathering(c: Config, s: State, others: set<Name>, x: Name) {
    Calm(s) && PutOff(c, s, x) && OnTheirWay(s, others) && Polite(s, others)
  }

  ghost predicate Calm(s: State) {
    !s.cancelled && forall v <- s.phase :: !s.phase[v].Failed()
  }

  /** main keeps x to the end, and the coordinator never comes across it. */
  ghost predicate PutOff(c: Config, s: State, x: Name) {
    && x in s.phase && s.phase[x].Unseen? && x in s.main.Pending() && !s.main.Holds(x)
    && s.coordinator.Pending() !! Sinks(c.before) && (Held(s.coordinator) ==> s.coordinator.node !in Sinks(c.before))
  }

  ghost predicate OnTheirWay(s: State, others: set<Name>) {
    forall v <- others :: v in s.phase && Waiting(s.phase[v])
  }

  /** Whoever launches a vertex that is not one of them leaves a slot for one of
      them, and the coordinator turns to them last. */
  ghost predicate Polite(s: State, others: set<Name>) {
    && (Held(s.main) ==> s.coordinator.Idle?)
    && (Held(s.main) && s.main.node !in others ==> !AllTaken(s, others))
    && (Held(s.coordinator) && s.coordinator.node !in others ==> !AllTaken(s, others))
    && (Held(s.coordinator) && s.coordinator.node in others ==> s.coordinator.Pending() <= others)
    && (AllTaken(s, others) ==> s.coordinator.Pending() <= others)
  }

  predicate Waiting(p: Phase) {
    p.Unseen? || p.Seen? || p.Launched? || p.Visiting?
  }

  /** Which steps are taken on the way. */
  ghost predicate Allowed(c: Config, s: State, others: set<Name>, x: Name, a: Action) {
    match a
    case Look(who, v) =>
      && !Held(s.main)
      && if who.Main? then v != x && s.coordinator.Idle? && !AllTaken(s, others)
         else v in others ==> s.coordinator.Pending() <= others
    case Receive => !Held(s.main) && !AllTaken(s, others)
    case Return(v, ok) => ok && v !in others
    case Leave(who) => who.Coordinator?
    case Claim(_) => true
    case Launch(_) => true
    case Begin(_) => true
    case Update(_) => true
    case Send(_) => true
    case Exit(_) => true
    case _ => false
  }

  lemma KeepsGathering(c: Config, s: State, others: set<Name>, x: Name, a: Action)
    requires c.Valid() && Inv(c, s) && others <= c.Nodes() - c.ignored - {x} && c.Before(x) == {}
    requires Gathering(c, s, others, x) && Enabled(c, s, a) && Allowed(c, s, others, x, a)
    ensures Gathering(c, Next(c, s, a), others, x)
  {
    MovesOn(c, s, a);
    if a.Receive? {
      MoreToReceive(c, s, x);
    }
    assert x in Sinks(c.before);
    hide Next, Enabled, Allowed, Mover, Follows, Calm, PutOff, OnTheirWay, Polite, Config.Valid;
    KeepsCalm(c, s, others, x, a);
    KeepsPutOff(c, s, others, x, a);
    KeepsOnTheirWay(c, s, others, x, a);
    KeepsPolite(c, s, others, x, a);
  }

  ghost predicate Moved(c: Config, s: State, a: Action)
    requires Enabled(c, s, a)
  {
    var m := Mover(c, s, a); m.Move? ==> m.v in s.phase && Follows(s.phase[m.v], m.to)
  }

  lemma KeepsCalm(c: Config, s: State, others: set<Name>, x: Name, a: Action)
    requires Calm(s) && Enabled(c, s, a) && Allowed(c, s, others, x, a) && Moved(c, s, a)
    ensures Calm(Next(c, s, a))
  {
    hide NextStatus, NextQueue, NextReceived, NextFailure, NextLog, NextLauncher;
  }

  lemma KeepsPutOff(c: Config, s: State, others: set<Name>, x: Name, a: Action)
    requires PutOff(c, s, x) && x in Sinks(c.before)
    requires Enabled(c, s, a) && Allowed(c, s, others, x, a) && Moved(c, s, a)
    ensures PutOff(c, Next(c, s, a), x)
  {
    hide NextStatus, NextQueue, NextReceived, NextFailure, NextLog;
  }

  lemma KeepsOnTheirWay(c: Config, s: State, others: set<Name>, x: Name, a: Action)
    requires OnTheirWay(s, others) && others !! c.ignored
    requires Enabled(c, s, a) && Allowed(c, s, others, x, a) && Moved(c, s, a)
    ensures OnTheirWay(Next(c, s, a), others)
  {
    hide NextStatus, NextQueue, NextReceived, NextFailure, NextLog, NextLauncher;
  }

  lemma KeepsPolite(c: Config, s: State, others: set<Name>, x: Name, a: Action)
    requires Polite(s, others) && OnTheirWay(s, others) && (a.Receive? ==> s.remaining > 1)
    requires Enabled(c, s, a) && Allowed(c, s, others, x, a) && Moved(c, s, a)
    ensures Polite(Next(c, s, a), others)
  {
    hide NextStatus, NextQueue, NextReceived, NextFailure, NextLog;
  }

  lemma MoreToReceive(c: Config, s: State, x: Name)
    requires Inv(c, s) && x in s.phase && s.phase[x].Unseen? && s.queue != []
    ensures s.remaining > 1
  {
    var q := s.queue[0];
    assert q in s.queue && q != x;
    SubsetSize(s.received, c.Nodes() - {x} - {q});
  }

  ghost predicate Gathered(s: State, others: set<Name>) {
    && s.main.Scanning? && s.coordinator.Idle?
    && (forall v <- others :: v in s.phase && s.phase[v].Visiting?)
    && s.Workers() <= others
  }

  /** Launching finds a slot while one of the others has none. */
  lemma SlotLeft(c: Config, s: State, others: set<Name>, y: Name)
    requires s.Workers() <= others && y in others && y in s.phase && !s.phase[y].Running()
    requires |others| == c.maxConcurrency
    ensures s.Slots() < c.maxConcurrency + 1
  {
    SubsetSize(s.Workers(), others - {y});
  }

  /** With nothing in the channel and another vertex missing, main has more to do
      than x: no vertex has been forgotten. */
  lemma NoneForgotten(c: Config, s: State, others: set<Name>, x: Name, y: Name)
    requires c.Valid() && Inv(c, s) && Gathering(c, s, others, x) && Apart(c.before, others + {x})
    requires s.Workers() <= others && s.main.Scanning? && s.coordinator.Idle? && s.queue == []
    requires y in others && y in s.phase && s.phase[y].Unseen? && y != x
    ensures s.main.todo - {x} != {}
  {
    var unseen := set u | u in s.phase && s.phase[u].Unseen? && (u == y || Reaches(c.before, y, u));
    assert y in unseen;
    var w := MinimalNode(c.before, unseen);
    assert AwakeAt(c, s, w) && w != x;
    if u :| Awaits(c, s, w, u) {
      EdgeReaches(c.before, w, u);
      if w != y {
        ReachesTransitive(c.before, y, w, u);
      }
      AlreadyHeard(c, s, others, y, u);
    }
    assert w in s.main.todo;
  }

  /** A vertex before one of the others is not under way any more. */
  lemma AlreadyHeard(c: Config, s: State, others: set<Name>, y: Name, u: Name)
    requires Inv(c, s) && Calm(s) && Apart(c.before, others) && y in others && Reaches(c.before, y, u)
    requires s.Workers() <= others && s.main.Scanning? && s.coordinator.Idle? && s.queue == []
    requires u in s.phase && !s.phase[u].Unseen?
    ensures u in s.received && !s.phase[u].Failed()
  {
    assert u !in others;
    assert !s.phase[u].Seen? && (s.phase[u].Running() ==> u in s.Workers());
  }

  /** The next step on the way. */
  lemma Proceeds(c: Config, s: State, others: set<Name>, x: Name) returns (a: Action)
    requires c.Valid() && Inv(c, s) && Gathering(c, s, others, x) && !Gathered(s, others)
    requires Apart(c.before, others + {x}) && others <= c.Nodes() - {x} && |others| == c.maxConcurrency
    ensures Enabled(c, s, a) && Allowed(c, s, others, x, a)
  {
    hide Inv, Gathering, Gathered, Apart, Config.Valid, Enabled, Allowed;
    if v :| v in s.phase && s.phase[v].Running() && !(v in others && s.phase[v].Visiting?) {
      a := WorkerProceeds(c, s, others, x, v);
    } else if Held(s.main) {
      a := HolderProceeds(c, s, others, x, Main);
    } else if Held(s.coordinator) {
      a := HolderProceeds(c, s, others, x, Coordinator);
    } else {
      a := ScanProceeds(c, s, others, x);
    }
  }

  lemma WorkerProceeds(c: Config, s: State, others: set<Name>, x: Name, v: Name) returns (a: Action)
    requires Inv(c, s) && Gathering(c, s, others, x)
    requires v in s.phase && s.phase[v].Running() && !(v in others && s.phase[v].Visiting?)
    ensures Enabled(c, s, a) && Allowed(c, s, others, x, a)
  {
    WorkerMoves(c, s, v);
    hide Inv, Enabled, Calm, PutOff, Polite;
    a := WorkerStep(s, v);
  }

  lemma HolderProceeds(c: Config, s: State, others: set<Name>, x: Name, who: Who) returns (a: Action)
    requires Inv(c, s) && Gathering(c, s, others, x) && Held(s.At(who))
    requires |others| == c.maxConcurrency && others <= c.Nodes()
    requires forall v <- s.phase | s.phase[v].Running() :: v in others && s.phase[v].Visiting?
    ensures Enabled(c, s, a) && Allowed(c, s, others, x, a)
  {
    var node := s.At(who).node;
    assert s.At(who).Holds(node);
    if s.At(who).Claiming? {
      a := Claim(who);
    } else {
      a := Launch(who);
      if node in others {
        SlotLeft(c, s, others, node);
      } else {
        var y :| y in others && !(y in s.phase && !s.phase[y].Unseen?);
        SlotLeft(c, s, others, y);
      }
    }
  }

  lemma ScanProceeds(c: Config, s: State, others: set<Name>, x: Name) returns (a: Action)
    requires c.Valid() && Inv(c, s) && Gathering(c, s, others, x) && !Gathered(s, others)
    requires Apart(c.before, others + {x}) && others <= c.Nodes() - {x}
    requires !Held(s.main) && !Held(s.coordinator)
    requires forall v <- s.phase | s.phase[v].Running() :: v in others && s.phase[v].Visiting?
    ensures Enabled(c, s, a) && Allowed(c, s, others, x, a)
  {
    hide Inv, Gathering, Gathered, Apart, Config.Valid, State.Workers, AllTaken;
    StillThere(c, s, others, x);
    if s.coordinator.Scanning? {
      if s.coordinator.todo == {} {
        a := Leave(Coordinator);
      } else if v :| v in s.coordinator.todo - others {
        a := Look(Coordinator, v);
      } else {
        assert forall v <- s.coordinator.todo :: v in s.coordinator.todo - others || v in others;
        var v :| v in s.coordinator.todo;
        a := Look(Coordinator, v);
      }
    } else {
      var y := OneMissing(c, s, others, x);
      if s.queue != [] {
        a := Receive;
      } else {
        NoneForgotten(c, s, others, x, y);
        var v :| v in s.main.todo - {x};
        a := Look(Main, v);
      }
    }
  }

  lemma StillThere(c: Config, s: State, others: set<Name>, x: Name)
    requires Inv(c, s) && Gathering(c, s, others, x) && !Held(s.main) && !Held(s.coordinator)
    ensures s.main.Scanning? && x in s.main.todo && (s.coordinator.Scanning? || s.coordinator.Idle?)
    ensures AllTaken(s, others) ==> s.coordinator.Pending() <= others
  {
    assert x !in s.received;
  }

  lemma OneMissing(c: Config, s: State, others: set<Name>, x: Name) returns (y: Name)
    requires Inv(c, s) && Gathering(c, s, others, x) && !Gathered(s, others) && others <= c.Nodes() - {x}
    requires !Held(s.main) && !Held(s.coordinator) && s.main.Scanning? && s.coordinator.Idle?
    requires forall v <- s.phase | s.phase[v].Running() :: v in others && s.phase[v].Visiting?
    ensures y in others && y in s.phase && s.phase[y].Unseen? && y != x && !AllTaken(s, others) && s.Workers() <= others
  {
    y :| y in others && !(y in s.phase && s.phase[y].Visiting?);
    assert !s.phase[y].Running() && !s.phase[y].Seen?;
  }

  lemma {:induction false} Gather(c: Config, actions: seq<Action>, s: State, others: set<Name>, x: Name)
    returns (actions': seq<Action>, s': State)
    requires c.Valid() && Run(c, actions) == Some(s) && Gathering(c, s, others, x)
    requires Apart(c.before, others + {x}) && others <= c.Nodes() - c.ignored - {x} && |others| == c.maxConcurrency
    requires c.Before(x) == {}
    ensures Run(c, actions') == Some(s') && Gathering(c, s', others, x) && Gathered(s', others)
    decreases Bound(|c.Nodes()|) - |actions|
  {
    if Gathered(s, others) {
      actions', s' := actions, s;
    } else {
      RunInv(c, actions);
      var a := Proceeds(c, s, others, x);
      KeepsGathering(c, s, others, x, a);
      Then(c, actions, s, a);
      Terminates(c, actions + [a]);
      actions', s' := Gather(c, actions + [a], Next(c, s, a), others, x);
    }
  }

  /** The others gather, the caller cancels, the coordinator leaves, and main
      launches x. */
  lemma CrowdExceeds(c: Config, vs: set<Name>) returns (actions: seq<Action>)
    requires c.Valid() && c.maxConcurrency > 0 && Crowd(c, vs)
    ensures Run(c, actions).Some? && vs <= Visitors(Run(c, actions).value)
  {
    var x :| x in vs * Sinks(c.before);
    var others := vs - {x};
    assert others + {x} == vs;
    var s := Init(c);
    actions, s := Gather(c, [], s, others, x);
    actions, s := MainUsesSlot(c, actions, s, others, x);
  }

  /** The last steps: after the cancellation main finds the slot of the
      coordinator free. */
  lemma MainUsesSlot(c: Config, actions0: seq<Action>, s0: State, others: set<Name>, x: Name)
    returns (actions: seq<Action>, s: State)
    requires c.Valid() && Run(c, actions0) == Some(s0) && Gathering(c, s0, others, x) && Gathered(s0, others)
    requires |others| == c.maxConcurrency && x in Sinks(c.before) && x !in c.ignored
    ensures Run(c, actions) == Some(s) && others + {x} <= Visitors(s)
  {
    hide Inv, Gathering, Next, Run, Enabled, Config.Valid, Gathered;
    RunInv(c, actions0);
    ReadyForMain(c, s0, others, x);
    actions, s := Abandon(c, actions0, s0);
    assert s.Workers() == s0.Workers();
    actions, s := MainStarts(c, actions, s, x);
  }

  lemma ReadyForMain(c: Config, s: State, others: set<Name>, x: Name)
    requires Inv(c, s) && Gathering(c, s, others, x) && Gathered(s, others) && |others| == c.maxConcurrency
    requires x in Sinks(c.before)
    ensures !s.interrupted && s.coordinator.Idle? && s.main.Scanning? && x in s.main.todo && c.Before(x) == {}
    ensures x in s.phase && s.phase[x].Unseen? && others <= Visitors(s) && |s.Workers()| <= c.maxConcurrency
  {
    SubsetSize(s.Workers(), others);
  }

  /** More than k vertices are visited at once in some run. */
  ghost predicate MoreThan(c: Config, k: int) {
    exists actions :: Run(c, actions).Some? && |Visitors(Run(c, actions).value)| > k
  }

  /** More visitors than the limit can run at once exactly if there is a crowd. */
  lemma LimitExceededIff(c: Config)
    requires c.Valid() && c.maxConcurrency > 0
    ensures MoreThan(c, c.maxConcurrency) <==> exists vs :: Crowd(c, vs)
  {
    if vs :| Crowd(c, vs) {
      var actions := CrowdExceeds(c, vs);
      SubsetSize(vs, Visitors(Run(c, actions).value));
    }
    if actions :| Run(c, actions).Some? && |Visitors(Run(c, actions).value)| > c.maxConcurrency {
      ExcessIsCrowd(c, actions);
    }
  }

  /** For instance, any vertices that come after none. */
  lemma SinksAreApart(c: Config, vs: set<Name>)
    requires vs <= Sinks(c.before) - c.ignored && |vs| == c.maxConcurrency + 1 && c.maxConcurrency > 0
    ensures Crowd(c, vs)
  {
    forall u, v | u in vs && v in vs ensures !Reaches(c.before, u, v) {
      if Reaches(c.before, u, v) {
        ReachesFirst(c.before, u, v);
      }
    }
    assert vs * Sinks(c.before) == vs;
  }
}
