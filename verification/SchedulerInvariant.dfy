/** What every step of the traversal keeps, in every interleaving, including
    those with failing visitors and a cancelled context. */
module SchedulerInvariant {
  import opened Wrappers
  import opened Collections
  import opened Digraphs
  import opened Dependencies
  import opened Scheduler

  ghost predicate Shape(c: Config, s: State) {
    s.phase.Keys == c.Nodes() && s.status.Keys == c.Nodes() && s.received <= c.Nodes()
  }

  /** The launchers work on vertices of the graph. */
  ghost predicate Working(c: Config, s: State) {
    && s.main.Pending() <= c.Nodes() && s.coordinator.Pending() <= c.Nodes()
    && (forall v :: s.main.Holds(v) || s.coordinator.Holds(v) ==> v in c.Nodes())
  }

  /** The status of a vertex is the target exactly once its visitor succeeded
      and the status was updated. */
  ghost predicate StatusAgrees(c: Config, s: State) {
    forall v <- s.phase :: v in s.status && s.status[v] == if s.phase[v].Finished() then c.target else c.skip
  }

  /** A vertex is consumed only after everything before it has finished. */
  ghost predicate Ordered(c: Config, s: State) {
    forall v, u | v in s.phase && u in c.Before(v) && Committed(s, v) :: u in s.phase && s.phase[u].Finished()
  }

  predicate Committed(s: State, v: Name) {
    v in s.phase && (!s.phase[v].Unseen? || s.main.Holds(v) || s.coordinator.Holds(v))
  }

  /** A consumed vertex without a goroutine is at the eg.Go of one launcher. */
  ghost predicate Claims(s: State) {
    && (forall v <- s.phase :: s.phase[v].Seen? <==> LaunchedBy(s.main, v) || LaunchedBy(s.coordinator, v))
    && (forall v :: !(LaunchedBy(s.main, v) && LaunchedBy(s.coordinator, v)))
  }

  predicate LaunchedBy(l: Launcher, v: Name) {
    l.Launching? && l.node == v
  }

  /** Each vertex passes through the channel once. */
  ghost predicate Delivery(c: Config, s: State) {
    && Distinct(s.queue)
    && (forall v <- s.phase :: s.phase[v].Delivered() <==> v in s.received || v in s.queue)
    && (forall v <- s.queue :: v in s.phase && v !in s.received)
    && s.remaining == |c.Nodes()| - |s.received|
  }

  /** u still has to reach the coordinator before v can be launched, or u failed. */
  ghost predicate Awaits(c: Config, s: State, v: Name, u: Name) {
    u in c.Before(v) && u in s.phase && (u !in s.received || s.phase[u].Failed())
  }

  /** No lost wake-up: while the coordinator lives, every vertex not consumed is
      about to be tested, or the coordinator will hear of a vertex before it. */
  ghost predicate Awake(c: Config, s: State) {
    forall v <- s.phase :: AwakeAt(c, s, v)
  }

  ghost predicate AwakeAt(c: Config, s: State, v: Name) {
    !s.coordinator.Stopped? && v in s.phase && s.phase[v].Unseen? ==>
      v in s.main.Pending() || v in s.coordinator.Pending() || exists u :: Awaits(c, s, v, u)
  }

  /** The coordinator stops on cancellation or when it has heard of every vertex. */
  ghost predicate CoordinatorEnds(c: Config, s: State) {
    && (s.coordinator.Stopped? ==> s.cancelled || s.received == c.Nodes())
    && (!s.coordinator.Stopped? ==> s.received != c.Nodes())
  }

  /** The channel is closed when nobody can use it any more. */
  ghost predicate MainEnds(s: State) {
    && (s.main.Stopped? <==> s.closed)
    && (s.main.Stopped? ==> s.coordinator.Stopped? && s.Quiet())
  }

  /** The context is cancelled by the caller or by a first error, and only so. */
  ghost predicate Errors(s: State) {
    && (s.cancelled <==> s.interrupted || s.failure.Some?)
    && (s.failure.Some? ==> s.failure.value in s.phase && s.phase[s.failure.value] == Gone(false))
    && (forall v <- s.phase :: s.phase[v] == Gone(false) ==> s.failure.Some?)
  }

  ghost predicate WithinLimit(c: Config, s: State) {
    c.maxConcurrency > 0 ==> s.Slots() <= c.maxConcurrency + 1
  }

  ghost predicate Inv(c: Config, s: State) {
    && Shape(c, s) && Working(c, s) && StatusAgrees(c, s) && Ordered(c, s) && Claims(s) && Delivery(c, s)
    && Awake(c, s) && CoordinatorEnds(c, s) && MainEnds(s) && Errors(s) && WithinLimit(c, s)
  }

  lemma InitInv(c: Config)
    requires c.Valid()
    ensures Inv(c, Init(c))
  {
    var s := Init(c);
    assert s.Workers() == {};
    InitAwake(c);
    hide Awake, Acyclic;
  }

  lemma InitAwake(c: Config)
    requires c.Valid()
    ensures Awake(c, Init(c))
  {
    var s := Init(c);
    forall v | v in s.phase && v !in s.main.Pending()
      ensures exists u :: Awaits(c, s, v, u)
    {
      assert c.Before(v) != {};
      var u :| u in c.Before(v);
      assert Awaits(c, s, v, u);
    }
  }

  /** A step moves at most one worker, to the phase that comes next. */
  lemma MovesOn(c: Config, s: State, a: Action)
    requires Shape(c, s) && Working(c, s) && Claims(s) && Enabled(c, s, a)
    ensures var m := Mover(c, s, a); m.Move? ==> m.v in s.phase && Follows(s.phase[m.v], m.to)
  {
  }

  lemma KeepsShape(c: Config, s: State, a: Action)
    requires Shape(c, s) && Working(c, s) && Delivery(c, s) && Enabled(c, s, a)
    ensures Shape(c, Next(c, s, a))
  {
  }

  lemma KeepsWorking(c: Config, s: State, a: Action)
    requires c.Valid() && Working(c, s) && Enabled(c, s, a)
    ensures Working(c, Next(c, s, a))
  {
  }

  lemma KeepsStatus(c: Config, s: State, a: Action)
    requires Shape(c, s) && StatusAgrees(c, s) && Working(c, s) && Claims(s) && Enabled(c, s, a)
    ensures StatusAgrees(c, Next(c, s, a))
  {
    MovesOn(c, s, a);
    hide Claims, Working, NextQueue, NextReceived, NextLauncher, NextFailure, NextLog, NextStatus, NextPhase;
    StatusAfter(c, s, a);
  }

  lemma StatusAfter(c: Config, s: State, a: Action)
    requires Shape(c, s) && StatusAgrees(c, s) && Enabled(c, s, a)
    requires var m := Mover(c, s, a); m.Move? ==> m.v in s.phase && Follows(s.phase[m.v], m.to)
    ensures StatusAgrees(c, Next(c, s, a))
  {
    hide NextQueue, NextReceived, NextLauncher, NextFailure, NextLog;
  }

  /** Finishing and failing are never undone. */
  lemma FinishedStays(c: Config, s: State, a: Action)
    requires Shape(c, s) && Working(c, s) && Claims(s) && Enabled(c, s, a)
    ensures forall v <- s.phase :: v in NextPhase(c, s, a)
    ensures forall v <- s.phase :: s.phase[v].Finished() ==> NextPhase(c, s, a)[v].Finished()
    ensures forall v <- s.phase :: s.phase[v].Failed() ==> NextPhase(c, s, a)[v].Failed()
    ensures forall v <- s.phase :: NextPhase(c, s, a)[v].Unseen? ==> s.phase[v].Unseen?
  {
    hide Claims, Working, Mover, Enabled;
    MovesOn(c, s, a);
  }

  lemma KeepsOrder(c: Config, s: State, a: Action)
    requires c.Valid() && Shape(c, s) && StatusAgrees(c, s) && Working(c, s) && Claims(s) && Ordered(c, s)
    requires Enabled(c, s, a)
    ensures Ordered(c, Next(c, s, a))
  {
    FinishedStays(c, s, a);
    hide NextQueue, NextReceived, NextFailure, NextLog, NextStatus, NextPhase, NextLauncher, Claims, Working, Committed;
    var t := Next(c, s, a);
    forall v, u | v in t.phase && u in c.Before(v) && Committed(t, v)
      ensures u in t.phase && t.phase[u].Finished()
    {
      if !Committed(s, v) {
        CommitsTested(c, s, a, v);
        assert u !in WithStatus(s.status, c.Before(v), c.skip);
      }
    }
  }

  /** A vertex is committed when it has just passed the status test. */
  lemma CommitsTested(c: Config, s: State, a: Action, v: Name)
    requires Enabled(c, s, a) && Committed(Next(c, s, a), v) && !Committed(s, v) && v in s.phase
    requires Working(c, s) && Claims(s) && Shape(c, s)
    ensures a.Look? && a.v == v && WithStatus(s.status, c.Before(v), c.skip) == {}
  {
    hide NextQueue, NextReceived, NextFailure, NextLog, NextStatus, WithStatus, Config.Before, Config.After, Working;
  }

  lemma KeepsClaims(c: Config, s: State, a: Action)
    requires Claims(s) && Enabled(c, s, a)
    ensures Claims(Next(c, s, a))
  {
    hide NextQueue, NextReceived, NextFailure, NextLog, NextStatus, WithStatus, Config.Before, Config.After;
  }

  lemma KeepsDelivery(c: Config, s: State, a: Action)
    requires Shape(c, s) && Working(c, s) && Claims(s) && Delivery(c, s) && Enabled(c, s, a)
    ensures Delivery(c, Next(c, s, a))
  {
    hide Next;
    if a.Receive? {
      ReceiveKeepsDelivery(c, s);
    } else if a.Send? {
      SendKeepsDelivery(c, s, a.v);
    } else {
      OthersKeepDelivery(c, s, a);
    }
  }

  lemma OthersKeepDelivery(c: Config, s: State, a: Action)
    requires Shape(c, s) && Working(c, s) && Claims(s) && Delivery(c, s) && Enabled(c, s, a)
    requires !a.Receive? && !a.Send?
    ensures Delivery(c, Next(c, s, a))
  {
    hide NextLauncher, NextFailure, NextLog, NextStatus, Delivery, Claims, Working;
    MovesOn(c, s, a);
    var m := Mover(c, s, a);
    assert m.Move? ==> (m.to.Delivered() <==> s.phase[m.v].Delivered());
    hide Mover, Enabled;
    DeliveryStays(c, s, Next(c, s, a));
  }

  lemma DeliveryStays(c: Config, s: State, t: State)
    requires Delivery(c, s) && t.phase.Keys == s.phase.Keys
    requires t.queue == s.queue && t.received == s.received && t.remaining == s.remaining
    requires forall v <- s.phase :: t.phase[v].Delivered() <==> s.phase[v].Delivered()
    ensures Delivery(c, t)
  {
  }

  lemma ReceiveKeepsDelivery(c: Config, s: State)
    requires Delivery(c, s) && Enabled(c, s, Receive)
    ensures Delivery(c, Next(c, s, Receive))
  {
  }

  lemma SendKeepsDelivery(c: Config, s: State, v: Name)
    requires Delivery(c, s) && Enabled(c, s, Send(v))
    ensures Delivery(c, Next(c, s, Send(v)))
  {
  }

  lemma StaysAt(c: Config, s: State, a: Action, v: Name)
    requires Shape(c, s) && Working(c, s) && Claims(s) && Enabled(c, s, a)
    ensures v in NextPhase(c, s, a) <==> v in s.phase
    ensures v in s.phase && s.phase[v].Failed() ==> NextPhase(c, s, a)[v].Failed()
    ensures v in s.phase && NextPhase(c, s, a)[v].Unseen? ==> s.phase[v].Unseen?
  {
  }

  /** A vertex keeps waiting for u until the coordinator hears of u. */
  lemma AwaitsStays(c: Config, s: State, a: Action, v: Name, u: Name)
    requires Shape(c, s) && Working(c, s) && Claims(s) && Enabled(c, s, a)
    requires Awaits(c, s, v, u) && (a.Receive? ==> v !in c.After(s.queue[0])) && v in c.Nodes()
    ensures Awaits(c, Next(c, s, a), v, u)
  {
  }

  /** A vertex leaves the pending ones when it is consumed or fails the test. */
  lemma PendingStays(c: Config, s: State, a: Action, who: Who, v: Name)
    requires Enabled(c, s, a) && v in s.At(who).Pending() && v in s.phase && s.phase[v].Unseen?
    requires !s.coordinator.Stopped?
    ensures
      || v in NextLauncher(c, s, a, who).Pending()
      || (a.Claim? && s.At(who).node == v && NextPhase(c, s, a)[v].Seen?)
      || (a == Look(who, v) && WithStatus(s.status, c.Before(v), c.skip) != {})
  {
  }

  /** A vertex fails the test because of one that failed or is still to be
      heard of. */
  lemma BlockedAwaits(c: Config, s: State, v: Name) returns (u: Name)
    requires c.Valid() && Shape(c, s) && StatusAgrees(c, s) && Delivery(c, s)
    requires WithStatus(s.status, c.Before(v), c.skip) != {}
    ensures Awaits(c, s, v, u)
  {
    u :| u in WithStatus(s.status, c.Before(v), c.skip);
  }

  lemma KeepsAwake(c: Config, s: State, a: Action)
    requires c.Valid() && Shape(c, s) && Working(c, s) && StatusAgrees(c, s) && Claims(s) && Delivery(c, s)
    requires Awake(c, s) && Enabled(c, s, a)
    ensures Awake(c, Next(c, s, a))
  {
    hide Config.Valid, Shape, Working, StatusAgrees, Claims, Delivery, AwakeAt, Enabled, NextPhase;
    forall v <- NextPhase(c, s, a) ensures AwakeAt(c, Next(c, s, a), v) {
      StaysAt(c, s, a, v);
      KeepsAwakeAt(c, s, a, v);
    }
  }

  /** A stopped coordinator stays so; a living one tests what follows on the
      vertex it has received. */
  lemma CoordinatorHears(c: Config, s: State, a: Action)
    requires Enabled(c, s, a)
    ensures s.coordinator.Stopped? ==> NextLauncher(c, s, a, Coordinator).Stopped?
    ensures a.Receive? && !NextLauncher(c, s, a, Coordinator).Stopped? ==>
              NextLauncher(c, s, a, Coordinator) == Scanning(c.After(s.queue[0]))
  {
  }

  lemma KeepsAwakeAt(c: Config, s: State, a: Action, v: Name)
    requires c.Valid() && Shape(c, s) && Working(c, s) && StatusAgrees(c, s) && Claims(s) && Delivery(c, s)
    requires AwakeAt(c, s, v) && v in s.phase && Enabled(c, s, a)
    ensures AwakeAt(c, Next(c, s, a), v)
  {
    assert v in c.Nodes();
    CoordinatorHears(c, s, a);
    hide Config.Valid, Shape, Working, StatusAgrees, Claims, Delivery, Enabled;
    hide NextPhase, NextStatus, NextFailure, NextLog, NextLauncher, NextQueue, NextReceived;
    StaysAt(c, s, a, v);
    if !s.phase[v].Unseen? || s.coordinator.Stopped? {
    } else if v in s.main.Pending() {
      LeavesPending(c, s, a, Main, v);
    } else if v in s.coordinator.Pending() {
      LeavesPending(c, s, a, Coordinator, v);
    } else {
      var u :| Awaits(c, s, v, u);
      if !(a.Receive? && v in c.After(s.queue[0])) {
        AwaitsStays(c, s, a, v, u);
      }
    }
  }

  lemma LeavesPending(c: Config, s: State, a: Action, who: Who, v: Name)
    requires c.Valid() && Shape(c, s) && Working(c, s) && StatusAgrees(c, s) && Claims(s) && Delivery(c, s)
    requires v in s.phase && Enabled(c, s, a) && v in s.At(who).Pending() && s.phase[v].Unseen?
    requires !s.coordinator.Stopped?
    ensures AwakeAt(c, Next(c, s, a), v)
  {
    assert v in c.Nodes();
    hide Config.Valid, Shape, Working, StatusAgrees, Claims, Delivery, Enabled;
    hide NextPhase, NextStatus, NextFailure, NextLog, NextLauncher;
    StaysAt(c, s, a, v);
    PendingStays(c, s, a, who, v);
    if a == Look(who, v) && WithStatus(s.status, c.Before(v), c.skip) != {} {
      var u := BlockedAwaits(c, s, v);
      AwaitsStays(c, s, a, v, u);
    }
  }

  lemma KeepsCoordinatorEnds(c: Config, s: State, a: Action)
    requires Shape(c, s) && Delivery(c, s) && CoordinatorEnds(c, s) && Enabled(c, s, a)
    ensures CoordinatorEnds(c, Next(c, s, a))
  {
    if a.Receive? {
      ReceiveEnds(c, s);
    } else {
      hide Shape, Delivery, NextLog, NextStatus, NextFailure, NextPhase, NextQueue;
      hide WithStatus, Config.Before, Config.After;
    }
  }

  lemma ReceiveEnds(c: Config, s: State)
    requires Shape(c, s) && Delivery(c, s) && CoordinatorEnds(c, s) && Enabled(c, s, Receive)
    ensures CoordinatorEnds(c, Next(c, s, Receive))
  {
    ReceivedAll(c, s);
    hide Shape, Delivery, NextLog, NextStatus, NextFailure, NextPhase, NextQueue, Config.After;
  }

  /** The counter reaches zero with the last vertex of the graph. */
  lemma ReceivedAll(c: Config, s: State)
    requires Shape(c, s) && Delivery(c, s)
    ensures Enabled(c, s, Receive) ==> (s.remaining - 1 == 0 <==> s.received + {s.queue[0]} == c.Nodes())
  {
    if s.queue != [] {
      SubsetSize(s.received + {s.queue[0]}, c.Nodes());
    }
  }

  lemma KeepsMainEnds(c: Config, s: State, a: Action)
    requires MainEnds(s) && Enabled(c, s, a)
    ensures MainEnds(Next(c, s, a))
  {
  }

  lemma KeepsErrors(c: Config, s: State, a: Action)
    requires Shape(c, s) && Working(c, s) && Claims(s) && Errors(s) && Enabled(c, s, a)
    ensures Errors(Next(c, s, a))
  {
    MovesOn(c, s, a);
    hide NextLog, NextStatus, NextQueue, NextReceived, NextLauncher, Claims, Working, Shape;
    ErrorsAfter(c, s, a);
  }

  lemma ErrorsAfter(c: Config, s: State, a: Action)
    requires Errors(s) && Enabled(c, s, a)
    requires var m := Mover(c, s, a); m.Move? ==> m.v in s.phase && Follows(s.phase[m.v], m.to)
    ensures Errors(Next(c, s, a))
  {
    hide NextLog, NextStatus, NextQueue, NextReceived, NextLauncher;
  }

  lemma KeepsLimit(c: Config, s: State, a: Action)
    requires c.Valid() && Shape(c, s) && Working(c, s) && Claims(s) && WithinLimit(c, s) && Enabled(c, s, a)
    ensures WithinLimit(c, Next(c, s, a))
  {
    CoordinatorHears(c, s, a);
    WorkersAfter(c, s, a);
    hide State.Workers, NextPhase, NextLauncher, NextLog, NextStatus, NextQueue, NextReceived, NextFailure;
    hide Shape, Working, Claims, Config.Valid;
    var t := Next(c, s, a);
    if a.Launch? {
      SubsetSize(t.Workers(), s.Workers() + {s.At(a.who).node});
    } else {
      SubsetSize(t.Workers(), s.Workers());
    }
  }

  lemma WorkersAfter(c: Config, s: State, a: Action)
    requires Shape(c, s) && Working(c, s) && Claims(s) && Enabled(c, s, a)
    ensures Next(c, s, a).Workers() <= s.Workers() + if a.Launch? then {s.At(a.who).node} else {}
  {
    hide NextLog, NextStatus, NextQueue, NextReceived, NextLauncher, NextFailure;
    MovesOn(c, s, a);
    hide Claims, Working;
  }

  lemma KeepsInv(c: Config, s: State, a: Action)
    requires c.Valid() && Inv(c, s) && Enabled(c, s, a)
    ensures Inv(c, Next(c, s, a))
  {
    KeepsShape(c, s, a);
    KeepsWorking(c, s, a);
    KeepsStatus(c, s, a);
    KeepsOrder(c, s, a);
    KeepsClaims(c, s, a);
    KeepsDelivery(c, s, a);
    KeepsAwake(c, s, a);
    KeepsCoordinatorEnds(c, s, a);
    KeepsMainEnds(c, s, a);
    KeepsErrors(c, s, a);
    KeepsLimit(c, s, a);
  }

  /** Every state of every run satisfies the invariant. */
  lemma {:induction false} RunInv(c: Config, actions: seq<Action>)
    requires c.Valid()
    ensures Run(c, actions).Some? ==> Inv(c, Run(c, actions).value)
  {
    if actions == [] {
      InitInv(c);
    } else {
      var earlier, a := actions[..|actions| - 1], actions[|actions| - 1];
      RunInv(c, earlier);
      if Run(c, actions).Some? {
        KeepsInv(c, Run(c, earlier).value, a);
      }
    }
  }
}
