/** Which visitors may run at once while nobody cancels
    (pkg/compose/dependencies.go:78-101, 138-141), for the traversals of
    InDependencyOrder and InReverseDependencyOrder. */
module SchedulerTogether {
  import opened Wrappers
  import opened Collections
  import opened Digraphs
  import opened Dependencies
  import opened Scheduler
  import opened SchedulerInvariant
  import opened SchedulerTrace
  import opened SchedulerProgress
  import opened SchedulerLimits
  import opened SchedulerExcess

  ghost predicate AllVisiting(s: State, vs: set<Name>) {
    forall v <- vs :: v in s.phase && s.phase[v].Visiting?
  }

  /** The steps taken on the way: no visitor fails, and those of vs go on. */
  predicate Patient(vs: set<Name>, a: Action) {
    match a
    case Return(v, ok) => ok && v !in vs
    case Interrupt => false
    case SeeDone => false
    case _ => true
  }

  lemma PatientKeeps(c: Config, s: State, vs: set<Name>, a: Action)
    requires Calm(s) && OnTheirWay(s, vs) && vs !! c.ignored
    requires Enabled(c, s, a) && Patient(vs, a) && Moved(c, s, a)
    ensures Calm(Next(c, s, a)) && OnTheirWay(Next(c, s, a), vs)
  {
    hide NextStatus, NextQueue, NextReceived, NextFailure, NextLog, NextLauncher;
  }

  /** There is a slot to launch in, as long as one of vs has none. */
  lemma SlotFor(c: Config, s: State, vs: set<Name>, y: Name)
    requires s.Workers() <= vs && y in vs && y in s.phase && !s.phase[y].Running()
    requires c.maxConcurrency > 0 ==> |vs| <= c.maxConcurrency
    ensures c.maxConcurrency > 0 ==> s.Slots() < c.maxConcurrency + 1
  {
    SubsetSize(s.Workers(), vs - {y});
  }

  lemma LauncherAdvances(c: Config, s: State, vs: set<Name>, y: Name, who: Who) returns (a: Action)
    requires Inv(c, s) && !s.At(who).Idle? && !s.At(who).Stopped?
    requires s.Workers() <= vs && y in vs && y in s.phase && !s.phase[y].Running()
    requires c.maxConcurrency > 0 ==> |vs| <= c.maxConcurrency
    ensures Enabled(c, s, a) && Patient(vs, a)
  {
    match s.At(who)
    case Scanning(todo) =>
      if todo == {} {
        a := Leave(who);
      } else {
        var v :| v in todo;
        a := Look(who, v);
      }
    case Claiming(_, _) =>
      assert s.At(who).Holds(s.At(who).node);
      a := Claim(who);
    case Launching(_, _) =>
      SlotFor(c, s, vs, y);
      a := Launch(who);
  }

  /** With no launcher at work, what has not been launched waits for a message:
      it was not forgotten. */
  lemma QueueHolds(c: Config, s: State, vs: set<Name>, y: Name)
    requires c.Valid() && Inv(c, s) && Calm(s) && Apart(c.before, vs) && s.Workers() <= vs
    requires s.main.Idle? && s.coordinator.Idle? && y in vs && y in s.phase && s.phase[y].Unseen?
    ensures s.queue != []
  {
    var u := WaitsFor(c, s, y);
    HeardOrQueued(c, s, vs, y, u);
  }

  /** It comes after one that was consumed and is still to be heard of. */
  lemma WaitsFor(c: Config, s: State, y: Name) returns (u: Name)
    requires c.Valid() && Inv(c, s) && !s.coordinator.Stopped? && y in s.phase && s.phase[y].Unseen?
    requires s.main.Pending() == {} && s.coordinator.Pending() == {}
    ensures Reaches(c.before, y, u) && u in s.phase && !s.phase[u].Unseen?
    ensures u !in s.received || s.phase[u].Failed()
  {
    var unseen := set u | u in s.phase && s.phase[u].Unseen? && (u == y || Reaches(c.before, y, u));
    assert y in unseen;
    hide Shape, Working, StatusAgrees, Ordered, Claims, Delivery, CoordinatorEnds, MainEnds, Errors;
    hide WithinLimit, Reaches, Acyclic;
    var w := MinimalNode(c.before, unseen);
    assert AwakeAt(c, s, w);
    u :| Awaits(c, s, w, u);
    EdgeReaches(c.before, w, u);
    if w != y {
      ReachesTransitive(c.before, y, w, u);
    }
    assert Reaches(c.before, y, u) && u !in unseen;
  }

  /** What one of vs comes after is not under way any more, and was delivered if
      it was consumed. */
  lemma HeardOrQueued(c: Config, s: State, vs: set<Name>, y: Name, u: Name)
    requires Inv(c, s) && Apart(c.before, vs) && s.Workers() <= vs && s.main.Idle? && s.coordinator.Idle?
    requires y in vs && Reaches(c.before, y, u) && u in s.phase && !s.phase[u].Unseen?
    ensures u in s.received || u in s.queue
  {
    assert u !in vs && !s.phase[u].Seen?;
    assert s.phase[u].Running() ==> u in s.Workers();
  }

  lemma BothIdle(c: Config, s: State, y: Name)
    requires Inv(c, s) && !s.cancelled && y in s.phase && !s.phase[y].Delivered()
    ensures !s.coordinator.Stopped? && !s.main.Stopped?
  {
    assert y !in s.received;
  }

  /** The next step on the way. */
  lemma Advances(c: Config, s: State, vs: set<Name>) returns (a: Action)
    requires c.Valid() && Inv(c, s) && Calm(s) && OnTheirWay(s, vs) && Apart(c.before, vs)
    requires (c.maxConcurrency > 0 ==> |vs| <= c.maxConcurrency) && !AllVisiting(s, vs)
    ensures Enabled(c, s, a) && Patient(vs, a)
  {
    hide Inv, Calm, Apart, Config.Valid, Enabled;
    if v :| v in s.phase && s.phase[v].Running() && !(v in vs && s.phase[v].Visiting?) {
      WorkerMoves(c, s, v);
      a := WorkerStep(s, v);
    } else {
      var y :| y in vs && !(y in s.phase && s.phase[y].Visiting?);
      a := OthersAdvance(c, s, vs, y);
    }
  }

  lemma OthersAdvance(c: Config, s: State, vs: set<Name>, y: Name) returns (a: Action)
    requires c.Valid() && Inv(c, s) && Calm(s) && OnTheirWay(s, vs) && Apart(c.before, vs)
    requires (c.maxConcurrency > 0 ==> |vs| <= c.maxConcurrency) && y in vs && !s.phase[y].Running()
    requires s.Workers() <= vs
    ensures Enabled(c, s, a) && Patient(vs, a)
  {
    BothIdle(c, s, y);
    if !s.main.Idle? {
      a := LauncherAdvances(c, s, vs, y, Main);
    } else if !s.coordinator.Idle? {
      a := LauncherAdvances(c, s, vs, y, Coordinator);
    } else {
      assert s.phase[y].Unseen?;
      QueueHolds(c, s, vs, y);
      a := Receive;
    }
  }

  lemma {:induction false} Meet(c: Config, actions: seq<Action>, s: State, vs: set<Name>)
    returns (actions': seq<Action>, s': State)
    requires c.Valid() && Run(c, actions) == Some(s) && Calm(s) && OnTheirWay(s, vs) && Apart(c.before, vs)
    requires vs !! c.ignored && (c.maxConcurrency > 0 ==> |vs| <= c.maxConcurrency)
    ensures Run(c, actions') == Some(s') && !s'.cancelled && AllVisiting(s', vs)
    decreases Bound(|c.Nodes()|) - |actions|
  {
    if AllVisiting(s, vs) {
      actions', s' := actions, s;
    } else {
      RunInv(c, actions);
      var a := Advances(c, s, vs);
      MovesOn(c, s, a);
      PatientKeeps(c, s, vs, a);
      Then(c, actions, s, a);
      Terminates(c, actions + [a]);
      actions', s' := Meet(c, actions + [a], Next(c, s, a), vs);
    }
  }

  /** All of vs are visited at once in some run that is not cancelled. */
  ghost predicate Together(c: Config, vs: set<Name>) {
    exists actions :: Run(c, actions).Some? && !Run(c, actions).value.cancelled
                      && vs <= Visitors(Run(c, actions).value)
  }

  /** Vertices can be visited at once if and only if none of them comes after
      another and the limit admits them. */
  lemma TogetherIff(c: Config, vs: set<Name>)
    requires c.Valid()
    ensures Together(c, vs) <==>
              && vs <= c.Nodes() - c.ignored && Apart(c.before, vs)
              && (c.maxConcurrency > 0 ==> |vs| <= c.maxConcurrency)
  {
    if actions :| Run(c, actions).Some? && !Run(c, actions).value.cancelled
                  && vs <= Visitors(Run(c, actions).value) {
      TogetherOnlyIf(c, actions, vs);
    }
    if vs <= c.Nodes() - c.ignored && Apart(c.before, vs) && (c.maxConcurrency > 0 ==> |vs| <= c.maxConcurrency) {
      var actions, s := Meet(c, [], Init(c), vs);
      assert vs <= Visitors(s);
    }
  }

  lemma TogetherOnlyIf(c: Config, actions: seq<Action>, vs: set<Name>)
    requires c.Valid() && Run(c, actions).Some? && !Run(c, actions).value.cancelled
    requires vs <= Visitors(Run(c, actions).value)
    ensures vs <= c.Nodes() - c.ignored && Apart(c.before, vs)
    ensures c.maxConcurrency > 0 ==> |vs| <= c.maxConcurrency
  {
    var s := Run(c, actions).value;
    RunRecorded(c, actions);
    VisitorsApart(c, s);
    forall v <- vs ensures v in c.Nodes() - c.ignored {
      assert RecordedAt(c, s, v);
    }
    SubsetSize(vs, Visitors(s));
    if c.maxConcurrency > 0 {
      BoundedConcurrency(c, actions);
    }
  }

  // ---- the two traversals ----

  /** InDependencyOrder with a limit of k: services can be visited at once if and
      only if none depends on another, at any distance, and there are at most k of
      them; a k of zero or less is no limit. */
  lemma UpTogetherIff(g: Digraph, k: int, vs: set<Name>)
    requires g.WellFormed() && Acyclic(g)
    ensures Together(UpTraversal(g, k), vs) <==>
              && vs <= g.Nodes() && (forall u, v | u in vs && v in vs :: !Reaches(g, u, v)) && (k > 0 ==> |vs| <= k)
  {
    TogetherIff(UpTraversal(g, k), vs);
    hide Together, Reaches, Acyclic;
  }

  /** Once the context is cancelled there may be one more. */
  lemma UpLimit(g: Digraph, k: int, actions: seq<Action>)
    requires g.WellFormed() && Acyclic(g) && k > 0 && Run(UpTraversal(g, k), actions).Some?
    ensures var s := Run(UpTraversal(g, k), actions).value;
      |Visitors(s)| <= k + if s.cancelled then 1 else 0
  {
    BoundedConcurrency(UpTraversal(g, k), actions);
  }

  /** But only if none of those depends on another, and one of them on none. */
  lemma UpExceedsIff(g: Digraph, k: int)
    requires g.WellFormed() && Acyclic(g) && k > 0
    ensures MoreThan(UpTraversal(g, k), k) <==>
              exists vs :: |vs| == k + 1 && vs <= g.Nodes() && Apart(g, vs) && exists v <- vs :: g.Out(v) == {}
  {
    var c := UpTraversal(g, k);
    LimitExceededIff(c);
    forall vs: set<Name>
      ensures Crowd(c, vs) <==> |vs| == k + 1 && vs <= g.Nodes() && Apart(g, vs) && exists v <- vs :: g.Out(v) == {}
    {
      CrowdIff(g, k, vs);
    }
  }

  lemma CrowdIff(g: Digraph, k: int, vs: set<Name>)
    ensures Crowd(UpTraversal(g, k), vs) <==>
              |vs| == k + 1 && vs <= g.Nodes() && Apart(g, vs) && exists v <- vs :: g.Out(v) == {}
  {
    if v :| v in vs && g.Out(v) == {} && vs <= g.Nodes() {
      assert v in vs * Sinks(g);
    }
    if v :| v in vs * Sinks(g) {
      assert g.Out(v) == {};
    }
  }

  /** InReverseDependencyOrder has no limit. */
  lemma DownTogetherIff(g: Digraph, ignored: set<Name>, vs: set<Name>)
    requires g.WellFormed() && Acyclic(g) && ignored <= g.Nodes()
    ensures Together(DownTraversal(g, ignored), vs) <==>
              vs <= g.Nodes() - ignored && forall u, v | u in vs && v in vs :: !Reaches(g, u, v)
  {
    ReverseAcyclic(g);
    forall u, v | u in vs && v in vs ensures Reaches(g.Reverse(), u, v) <==> Reaches(g, v, u) {
      ReverseReaches(g, v, u);
    }
    TogetherIff(DownTraversal(g, ignored), vs);
  }
}
