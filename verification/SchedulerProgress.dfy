/** Termination, freedom from deadlock and lost wake-ups, and what is true when
    the traversal returns. */
module SchedulerProgress {
  import opened Wrappers
  import opened Collections
  import opened Digraphs
  import opened Dependencies
  import opened Scheduler
  import opened SchedulerInvariant
  import opened SchedulerTrace

  // ---- termination ----

  ghost function Ranks(phase: map<Name, Phase>, vs: set<Name>): nat
    requires vs <= phase.Keys
  {
    if vs == {} then 0
    else
      var v :| v in vs;
      phase[v].Rank() + Ranks(phase, vs - {v})
  }

  lemma {:induction false} RanksSplit(phase: map<Name, Phase>, vs: set<Name>, v: Name)
    requires vs <= phase.Keys && v in vs
    ensures Ranks(phase, vs) == phase[v].Rank() + Ranks(phase, vs - {v})
  {
    var w :| w in vs && Ranks(phase, vs) == phase[w].Rank() + Ranks(phase, vs - {w});
    if w != v {
      RanksSplit(phase, vs - {w}, v);
      RanksSplit(phase, vs - {v}, w);
      assert vs - {w} - {v} == vs - {v} - {w};
    }
  }

  lemma {:induction false} RanksAgree(phase: map<Name, Phase>, phase': map<Name, Phase>, vs: set<Name>)
    requires vs <= phase.Keys && vs <= phase'.Keys
    requires forall v <- vs :: phase[v] == phase'[v]
    ensures Ranks(phase, vs) == Ranks(phase', vs)
  {
    if vs != {} {
      var v :| v in vs;
      RanksSplit(phase, vs, v);
      RanksSplit(phase', vs, v);
      RanksAgree(phase, phase', vs - {v});
    }
  }

  lemma RanksMove(phase: map<Name, Phase>, vs: set<Name>, v: Name, to: Phase)
    requires vs <= phase.Keys && v in vs
    ensures Ranks(phase[v := to], vs) == Ranks(phase, vs) - phase[v].Rank() + to.Rank()
  {
    RanksSplit(phase, vs, v);
    RanksSplit(phase[v := to], vs, v);
    RanksAgree(phase, phase[v := to], vs - {v});
  }

  lemma {:induction false} RanksBound(phase: map<Name, Phase>, vs: set<Name>)
    requires vs <= phase.Keys
    ensures Ranks(phase, vs) <= 7 * |vs|
  {
    if vs != {} {
      var v :| v in vs;
      RanksSplit(phase, vs, v);
      RanksBound(phase, vs - {v});
    }
  }

  /** What one message can make the coordinator do, and one more. */
  function Round(c: Config): nat {
    3 * |c.Nodes()| + 2
  }

  ghost function Measure(c: Config, s: State): int
    requires Shape(c, s)
  {
    Round(c) * s.remaining + s.main.Work() + s.coordinator.Work()
    + Ranks(s.phase, c.Nodes()) + if s.interrupted then 0 else 1
  }

  lemma LauncherWorks(c: Config, s: State, a: Action, who: Who)
    requires Enabled(c, s, a) && c.Valid()
    ensures NextLauncher(c, s, a, who).Work() <= s.At(who).Work() +
                if a.Receive? && who.Coordinator? then Round(c) - 1 else 0
    ensures (a.Look? || a.Claim? || a.Launch? || a.Leave?) && a.who == who ==>
              NextLauncher(c, s, a, who).Work() < s.At(who).Work()
    ensures a.SeeDone? && who.Coordinator? ==> NextLauncher(c, s, a, who).Work() < s.At(who).Work()
    ensures a.Finish? && who.Main? ==> NextLauncher(c, s, a, who).Work() < s.At(who).Work()
  {
    if a.Receive? {
      SubsetSize(c.After(s.queue[0]), c.Nodes());
    }
  }

  lemma RanksDrop(c: Config, s: State, a: Action)
    requires Shape(c, s) && Working(c, s) && Claims(s) && Enabled(c, s, a) && Shape(c, Next(c, s, a))
    ensures Ranks(NextPhase(c, s, a), c.Nodes()) <= Ranks(s.phase, c.Nodes()) - if Mover(c, s, a).Move? then 1 else 0
  {
    MovesOn(c, s, a);
    var m := Mover(c, s, a);
    if m.Move? {
      RanksMove(s.phase, c.Nodes(), m.v, m.to);
    }
  }

  /** Every step brings the traversal closer to its end. */
  lemma MeasureDrops(c: Config, s: State, a: Action)
    requires c.Valid() && Shape(c, s) && Working(c, s) && Claims(s) && Delivery(c, s) && Enabled(c, s, a)
    ensures Shape(c, Next(c, s, a)) && Measure(c, Next(c, s, a)) < Measure(c, s)
  {
    hide Config.Valid, Working, Claims, Delivery, NextLauncher, NextPhase, NextStatus, NextQueue, NextReceived;
    hide NextFailure;
    hide NextLog, Launcher.Work, Round, Ranks;
    KeepsShape(c, s, a);
    RanksDrop(c, s, a);
    LauncherWorks(c, s, a, Main);
    LauncherWorks(c, s, a, Coordinator);
    OneLess(Round(c), s.remaining);
  }

  lemma OneLess(x: int, y: int)
    ensures x * (y - 1) == x * y - x
  {
  }

  /** The number of steps of any run on a graph of n vertices. */
  function Bound(n: nat): nat {
    3 * n * n + 12 * n + 4
  }

  lemma {:induction false} RunMeasure(c: Config, actions: seq<Action>)
    requires c.Valid() && Run(c, actions).Some?
    ensures Inv(c, Run(c, actions).value)
    ensures Measure(c, Run(c, actions).value) + |actions| <= Bound(|c.Nodes()|)
    ensures Run(c, actions).value.remaining >= 0
  {
    RunInv(c, actions);
    SubsetSize(Run(c, actions).value.received, c.Nodes());
    if actions == [] {
      InitialMeasure(c);
    } else {
      var earlier, a := actions[..|actions| - 1], actions[|actions| - 1];
      RunMeasure(c, earlier);
      MeasureDrops(c, Run(c, earlier).value, a);
    }
    hide Measure, Bound, Next, Enabled;
  }

  lemma InitialMeasure(c: Config)
    requires c.Valid() && Shape(c, Init(c))
    ensures Measure(c, Init(c)) <= Bound(|c.Nodes()|)
  {
    var s := Init(c);
    var n := |c.Nodes()|;
    SubsetSize(Sinks(c.before), c.Nodes());
    RanksBound(s.phase, c.Nodes());
    Squared(n);
    hide Ranks, Acyclic, Digraph.WellFormed;
  }

  lemma Squared(n: nat)
    ensures (3 * n + 2) * n == 3 * n * n + 2 * n
  {
  }

  /** Termination. No interleaving, fair or not, has more steps than Bound. */
  lemma Terminates(c: Config, actions: seq<Action>)
    requires c.Valid() && Run(c, actions).Some?
    ensures |actions| <= Bound(|c.Nodes()|) == 3 * |c.Nodes()| * |c.Nodes()| + 12 * |c.Nodes()| + 4
  {
    RunMeasure(c, actions);
    NotNegative(Round(c), Run(c, actions).value.remaining);
    hide Inv, Run, Round, Bound, Ranks, Launcher.Work;
  }

  lemma NotNegative(x: nat, y: nat)
    ensures x * y >= 0
  {
  }

  // ---- no deadlock ----

  /** A step that a worker past its launch can always take. */
  function WorkerStep(s: State, v: Name): Action
    requires v in s.phase && s.phase[v].Running()
  {
    match s.phase[v]
    case Launched => Begin(v)
    case Visiting => Return(v, true)
    case Returned(_) => Update(v)
    case Updated(_) => Send(v)
    case Sent(_) => Exit(v)
  }

  /** The channel has room for every vertex, and stays open while one may send. */
  lemma SendNeverBlocks(c: Config, s: State, v: Name)
    requires Inv(c, s) && v in s.phase && s.phase[v].Updated?
    ensures Enabled(c, s, Send(v))
  {
    var others := c.Nodes() - {v};
    assert v !in s.queue;
    forall u <- s.queue ensures u in others {
    }
    DistinctFits(s.queue, others);
    assert s.closed ==> s.Quiet();
  }

  lemma WorkerMoves(c: Config, s: State, v: Name)
    requires Inv(c, s) && v in s.phase && s.phase[v].Running()
    ensures Enabled(c, s, WorkerStep(s, v))
  {
    if s.phase[v].Updated? {
      SendNeverBlocks(c, s, v);
    }
  }

  /** A launcher inside run can step when no worker runs; in particular
      eg.Go finds a slot. */
  lemma LauncherMoves(c: Config, s: State, who: Who) returns (a: Action)
    requires Inv(c, s) && s.Quiet() && !s.At(who).Idle? && !s.At(who).Stopped?
    ensures Enabled(c, s, a) && !a.Interrupt?
  {
    assert s.Workers() == {};
    match s.At(who)
    case Scanning(todo) =>
      if todo == {} {
        a := Leave(who);
      } else {
        var v :| v in todo;
        a := Look(who, v);
      }
    case Claiming(_, _) =>
      assert s.At(who).Holds(s.At(who).node);
      a := Claim(who);
    case Launching(_, _) =>
      a := Launch(who);
  }

  /** With every goroutine but the coordinator idle and the channel empty, an
      unconsumed vertex waits for another unconsumed one. */
  lemma WaitsForUnseen(c: Config, s: State, v: Name)
    requires Inv(c, s) && s.Quiet() && s.main.Idle? && s.coordinator.Idle? && s.queue == [] && !s.cancelled
    requires v in Unconsumed(s)
    ensures c.Before(v) * Unconsumed(s) != {}
  {
    assert AwakeAt(c, s, v);
    var u :| Awaits(c, s, v, u);
    assert !s.phase[u].Running() && !s.phase[u].Seen?;
    assert u in Unconsumed(s);
  }

  function Unconsumed(s: State): set<Name> {
    set v | v in s.phase && s.phase[v].Unseen?
  }

  /** No lost wake-up: on an acyclic graph they cannot all wait for each other,
      so the coordinator is only left waiting when it can see the cancellation. */
  lemma NothingForgotten(c: Config, s: State)
    requires c.Valid() && Inv(c, s) && s.Quiet() && s.main.Idle? && s.coordinator.Idle? && s.queue == []
    ensures s.cancelled
  {
    if !s.cancelled {
      forall v <- s.phase ensures v in s.received || v in Unconsumed(s) {
        assert !s.phase[v].Running() && !s.phase[v].Seen?;
      }
      assert Unconsumed(s) != {};
      var v := MinimalNode(c.before, Unconsumed(s));
      WaitsForUnseen(c, s, v);
      assert false;
    }
  }

  /** Deadlock freedom. Until main has returned, some goroutine can step,
      whatever the limit on concurrency. */
  lemma NeverStuck(c: Config, s: State) returns (a: Action)
    requires c.Valid() && Inv(c, s) && !s.main.Stopped?
    ensures Enabled(c, s, a) && !a.Interrupt?
  {
    if !s.Quiet() {
      var v :| v in s.phase && s.phase[v].Running();
      WorkerMoves(c, s, v);
      a := WorkerStep(s, v);
    } else if !s.main.Idle? {
      a := LauncherMoves(c, s, Main);
    } else if s.coordinator.Stopped? {
      a := Finish;
    } else if !s.coordinator.Idle? {
      a := LauncherMoves(c, s, Coordinator);
    } else if s.queue != [] {
      a := Receive;
    } else {
      NothingForgotten(c, s);
      a := SeeDone;
    }
  }

  /** A run that cannot go on has returned. */
  lemma MaximalRunReturns(c: Config, actions: seq<Action>)
    requires c.Valid() && Run(c, actions).Some?
    requires forall a :: Enabled(c, Run(c, actions).value, a) ==> a.Interrupt?
    ensures Run(c, actions).value.main.Stopped?
  {
    RunInv(c, actions);
    if !Run(c, actions).value.main.Stopped? {
      var a := NeverStuck(c, Run(c, actions).value);
    }
  }

  // ---- the result ----

  /** When visit returns, every vertex has either not been consumed or its
      goroutine has ended, and the error is that of a failed visitor. */
  lemma ReturnsError(c: Config, actions: seq<Action>)
    requires c.Valid() && Run(c, actions).Some? && Run(c, actions).value.main.Stopped?
    ensures var s := Run(c, actions).value;
      && (Outcome(s).Some? ==> End(Outcome(s).value, false) in s.log)
      && (Outcome(s).None? ==> forall v :: End(v, false) !in s.log)
      && (forall v :: Start(v) in s.log ==> End(v, true) in s.log || End(v, false) in s.log)
  {
    RunRecorded(c, actions);
    var s := Run(c, actions).value;
    forall v ensures Outcome(s).None? ==> End(v, false) !in s.log
      ensures Start(v) in s.log ==> End(v, true) in s.log || End(v, false) in s.log
    {
      assert RecordedAt(c, s, v);
    }
    if Outcome(s).Some? {
      assert RecordedAt(c, s, Outcome(s).value);
    }
  }

  /** The first error recorded is the one that stays, and it has cancelled the
      context. */
  lemma {:induction false} FirstErrorStays(c: Config, actions: seq<Action>, n: nat)
    requires c.Valid() && Run(c, actions).Some? && n <= |actions|
    ensures Run(c, actions[..n]).Some?
    ensures var error := Run(c, actions[..n]).value.failure;
            error.Some? ==> Run(c, actions).value.failure == error && Run(c, actions).value.cancelled
    decreases |actions|
  {
    RunInv(c, actions);
    if n == |actions| {
      assert actions[..n] == actions;
    } else {
      var earlier := actions[..|actions| - 1];
      FirstErrorStays(c, earlier, n);
      assert earlier[..n] == actions[..n];
    }
    hide Shape, Working, StatusAgrees, Ordered, Claims, Delivery, Awake, CoordinatorEnds, MainEnds, WithinLimit;
  }

  /** Without an error and without cancellation by the caller, every vertex that
      is not ignored was visited, successfully; all vertices were received, and
      the channel is empty. */
  lemma VisitsEverything(c: Config, actions: seq<Action>)
    requires c.Valid() && Run(c, actions).Some? && Run(c, actions).value.main.Stopped?
    requires !Run(c, actions).value.interrupted && Outcome(Run(c, actions).value).None?
    ensures var s := Run(c, actions).value;
      && (forall v <- c.Nodes() - c.ignored :: Start(v) in s.log && End(v, true) in s.log)
      && s.received == c.Nodes() && s.remaining == 0 && s.queue == []
      && (forall v <- c.Nodes() :: v in s.status && s.status[v] == c.target)
  {
    RunRecorded(c, actions);
    var s := Run(c, actions).value;
    assert s.received == c.Nodes();
    forall v <- c.Nodes() ensures s.phase[v] == Gone(true) && v !in s.queue {
      assert !s.phase[v].Running() && s.phase[v].Delivered();
    }
    forall v <- c.Nodes() - c.ignored ensures Start(v) in s.log && End(v, true) in s.log {
      assert RecordedAt(c, s, v);
    }
    EmptyOrMember(s.queue);
  }

  /** InDependencyOrder: in every run the visitor of a service is called only after
      those of all its transitive dependencies have returned without error; and
      an undisturbed run visits every service and leaves all started. */
  lemma DependencyOrder(g: Digraph, maxConcurrency: int, actions: seq<Action>)
    requires g.WellFormed() && Acyclic(g) && Run(UpTraversal(g, maxConcurrency), actions).Some?
    ensures var s := Run(UpTraversal(g, maxConcurrency), actions).value;
      && (forall i, v, d | 0 <= i < |s.log| && s.log[i] == Start(v) && Reaches(g, v, d) :: End(d, true) in s.log[..i])
      && (s.main.Stopped? && !s.interrupted && s.failure.None? ==>
            forall v <- g.Nodes() :: End(v, true) in s.log && v in s.status && s.status[v] == ServiceStarted)
  {
    var c := UpTraversal(g, maxConcurrency);
    var s := Run(c, actions).value;
    OrderSafety(c, actions);
    forall i, v, d | 0 <= i < |s.log| && s.log[i] == Start(v) && Reaches(g, v, d) ensures End(d, true) in s.log[..i] {
      assert Cleared(c, s.log[..i], v);
    }
    if s.main.Stopped? && !s.interrupted && s.failure.None? {
      VisitsEverything(c, actions);
    }
  }

  // ---- bounded concurrency ----

  function Visitors(s: State): set<Name> {
    set v | v in s.phase && s.phase[v].Visiting?
  }

  /** At most maxConcurrency visitors run at once until the context is
      cancelled; afterwards the slot of the coordinator may be used as well. */
  lemma BoundedConcurrency(c: Config, actions: seq<Action>)
    requires c.Valid() && Run(c, actions).Some? && c.maxConcurrency > 0
    ensures var s := Run(c, actions).value;
      |Visitors(s)| <= c.maxConcurrency + if s.cancelled then 1 else 0
  {
    RunInv(c, actions);
    var s := Run(c, actions).value;
    SubsetSize(Visitors(s), s.Workers());
    if s.coordinator.Stopped? && !s.cancelled {
      forall v <- s.phase ensures !s.phase[v].Visiting? {
        assert v in s.received;
      }
      assert Visitors(s) == {};
    }
  }
}
