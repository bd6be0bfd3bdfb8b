/** The concurrent traversal of the dependency graph
    (graphTraversal.visit, run and consume in pkg/compose/dependencies.go) as a
    transition system. A coordinating goroutine, the launching goroutine and one
    worker per vertex interleave; every action below is one atomic step of one
    of them, and the arguments of an action resolve its nondeterminism. */
module Scheduler {
  import opened Wrappers
  import opened Digraphs
  import opened Dependencies

  /** before: edges lead from a vertex to those whose status is tested before
      its visitor may start. A limit of zero or less means no limit. */
  datatype Config = Config(
    before: Digraph,
    skip: ServiceStatus,
    target: ServiceStatus,
    ignored: set<Name>,
    maxConcurrency: int)
  {
    ghost predicate Valid() {
      before.WellFormed() && Acyclic(before) && skip != target && ignored <= before.Nodes()
    }

    function Nodes(): set<Name> {
      before.Nodes()
    }

    /** filterAdjacentByStatusFn looks at these. */
    function Before(v: Name): set<Name> {
      before.Out(v)
    }

    /** adjacentNodesFn */
    function After(v: Name): set<Name> {
      before.In(v)
    }
  }

  /** In dependency order: children first, from the leaves to the parents. */
  function UpTraversal(graph: Digraph, maxConcurrency: int): Config {
    Config(graph, ServiceStopped, ServiceStarted, {}, maxConcurrency)
  }

  /** In reverse order: parents first, from the roots to the children. */
  function DownTraversal(graph: Digraph, ignored: set<Name>): Config {
    Config(graph.Reverse(), ServiceStarted, ServiceStopped, ignored, 0)
  }

  /** Where the worker of a vertex is; ok is whether its visitor succeeded. */
  datatype Phase =
    | Unseen              // not in t.seen
    | Seen                // consumed; eg.Go has not accepted the goroutine yet
    | Launched            // the goroutine holds its slot
    | Visiting            // inside visitorFn
    | Returned(ok: bool)
    | Updated(ok: bool)   // past graph.UpdateStatus
    | Sent(ok: bool)      // past nodeCh <- node
    | Gone(ok: bool)      // left the errgroup
  {
    predicate Finished() {
      (Updated? || Sent? || Gone?) && ok
    }

    predicate Failed() {
      (Returned? || Updated? || Sent? || Gone?) && !ok
    }

    predicate Delivered() {
      Sent? || Gone?
    }

    predicate Running() {
      Launched? || Visiting? || Returned? || Updated? || Sent?
    }

    /** The number of steps the worker still has to take. */
    function Rank(): nat {
      match this
      case Unseen => 7
      case Seen => 6
      case Launched => 5
      case Visiting => 4
      case Returned(_) => 3
      case Updated(_) => 2
      case Sent(_) => 1
      case Gone(_) => 0
    }
  }

  /** The order in which a worker passes through its phases. */
  predicate Follows(p: Phase, q: Phase) {
    match p
    case Unseen => q.Seen?
    case Seen => q.Launched?
    case Launched => q.Visiting? || q == Returned(true)
    case Visiting => q.Returned?
    case Returned(ok) => q == Updated(ok)
    case Updated(ok) => q == Sent(ok)
    case Sent(ok) => q == Gone(ok)
    case Gone(_) => false
  }

  /** Where a goroutine that executes run() is. */
  datatype Launcher =
    | Idle                                     // the coordinator in select, or main in eg.Wait
    | Scanning(todo: set<Name>)                // at the head of the loop over nodes
    | Claiming(node: Name, todo: set<Name>)    // node passed the status test
    | Launching(node: Name, todo: set<Name>)   // node was consumed; at eg.Go
    | Stopped                                  // returned
  {
    /** The vertices this goroutine will still test or consume. */
    function Pending(): set<Name> {
      match this
      case Scanning(todo) => todo
      case Claiming(node, todo) => todo + {node}
      case Launching(_, todo) => todo
      case _ => {}
    }

    predicate Holds(v: Name) {
      (Claiming? || Launching?) && node == v
    }

    /** The number of steps left before the goroutine idles or stops. */
    function Work(): nat {
      match this
      case Idle => 1
      case Scanning(todo) => 3 * |todo| + 2
      case Claiming(_, todo) => 3 * |todo| + 4
      case Launching(_, todo) => 3 * |todo| + 3
      case Stopped => 0
    }
  }

  /** What an observer of the visitor calls sees. */
  datatype Event = Start(v: Name) | End(v: Name, ok: bool)

  datatype State = State(
    status: map<Name, ServiceStatus>,
    phase: map<Name, Phase>,
    queue: seq<Name>,        // nodeCh, of capacity |V|
    closed: bool,
    remaining: int,          // the counter expect of visit
    coordinator: Launcher,
    main: Launcher,
    cancelled: bool,         // ctx.Done() is readable
    failure: Option<Name>,   // the first error recorded by the errgroup
    received: set<Name>,     // history: taken from nodeCh
    interrupted: bool,       // history: the caller's context was cancelled
    log: seq<Event>)         // history: visitor calls and returns
  {
    /** Vertices whose goroutine holds a slot of the errgroup. */
    function Workers(): set<Name> {
      set v | v in phase && phase[v].Running()
    }

    /** Every goroutine of a worker has ended or was never started. */
    predicate Quiet() {
      forall v <- phase :: !phase[v].Running()
    }

    function Slots(): nat {
      |Workers()| + if coordinator.Stopped? then 0 else 1
    }

    function At(who: Who): Launcher {
      if who.Main? then main else coordinator
    }
  }

  datatype Who = Main | Coordinator

  datatype Action =
    | Look(who: Who, v: Name)        // filterAdjacentByStatusFn on the next node
    | Claim(who: Who)                // consume
    | Launch(who: Who)               // eg.Go
    | Leave(who: Who)                // the loop over nodes ends
    | Receive                        // case node := <-nodeCh
    | SeeDone                        // case <-ctx.Done()
    | Begin(v: Name)                 // the goroutine calls the visitor, or skips it
    | Return(v: Name, ok: bool)      // the visitor returns
    | Update(v: Name)                // graph.UpdateStatus, unless the visitor failed
    | Send(v: Name)                  // nodeCh <- node
    | Exit(v: Name)                  // return err: a first error cancels the context
    | Interrupt                      // the caller's context is cancelled
    | Finish                         // eg.Wait returns; the deferred close runs

  /** Both goroutines are off; an empty graph makes visit return at once. */
  function Init(c: Config): State {
    var none := c.Nodes() == {};
    State(
      map v | v in c.Nodes() :: c.skip,
      map v | v in c.Nodes() :: Unseen,
      [], none, |c.Nodes()|,
      if none then Stopped else Idle,
      if none then Stopped else Scanning(Sinks(c.before)),
      false, None, {}, false, [])
  }

  predicate Enabled(c: Config, s: State, a: Action) {
    match a
    case Look(who, v) => s.At(who).Scanning? && v in s.At(who).todo
    case Claim(who) => s.At(who).Claiming? && s.At(who).node in s.phase
    case Launch(who) =>
      && s.At(who).Launching?
      && (c.maxConcurrency > 0 ==> s.Slots() < c.maxConcurrency + 1)
    case Leave(who) => s.At(who).Scanning? && s.At(who).todo == {}
    case Receive => s.coordinator.Idle? && s.queue != []
    case SeeDone => s.coordinator.Idle? && s.cancelled
    case Begin(v) => v in s.phase && s.phase[v].Launched?
    case Return(v, _) => v in s.phase && s.phase[v].Visiting?
    case Update(v) => v in s.phase && s.phase[v].Returned?
    case Send(v) => v in s.phase && s.phase[v].Updated? && |s.queue| < |c.Nodes()| && !s.closed
    case Exit(v) => v in s.phase && s.phase[v].Sent?
    case Interrupt => !s.interrupted
    case Finish => s.main.Idle? && s.coordinator.Stopped? && s.Quiet()
  }

  /** Whose worker an action moves on, and to which phase. */
  datatype Move = Stay | Move(v: Name, to: Phase)

  function Mover(c: Config, s: State, a: Action): Move
    requires Enabled(c, s, a)
  {
    match a
    case Claim(who) => if s.phase[s.At(who).node].Unseen? then Move(s.At(who).node, Seen) else Stay
    case Launch(who) => Move(s.At(who).node, Launched)
    case Begin(v) => Move(v, if v in c.ignored then Returned(true) else Visiting)
    case Return(v, ok) => Move(v, Returned(ok))
    case Update(v) => Move(v, Updated(s.phase[v].ok))
    case Send(v) => Move(v, Sent(s.phase[v].ok))
    case Exit(v) => Move(v, Gone(s.phase[v].ok))
    case _ => Stay
  }

  function NextPhase(c: Config, s: State, a: Action): map<Name, Phase>
    requires Enabled(c, s, a)
  {
    match Mover(c, s, a)
    case Stay => s.phase
    case Move(v, to) => s.phase[v := to]
  }

  function NextStatus(c: Config, s: State, a: Action): map<Name, ServiceStatus>
    requires Enabled(c, s, a)
  {
    if a.Update? && s.phase[a.v].ok then s.status[a.v := c.target] else s.status
  }

  function NextQueue(c: Config, s: State, a: Action): seq<Name>
    requires Enabled(c, s, a)
  {
    match a
    case Receive => s.queue[1..]
    case Send(v) => s.queue + [v]
    case _ => s.queue
  }

  function NextReceived(c: Config, s: State, a: Action): set<Name>
    requires Enabled(c, s, a)
  {
    if a.Receive? then s.received + {s.queue[0]} else s.received
  }

  /** One round of run, for the goroutine that takes the step. */
  function NextLauncher(c: Config, s: State, a: Action, who: Who): Launcher
    requires Enabled(c, s, a)
  {
    var l := s.At(who);
    match a
    case Look(w, v) =>
      if w != who then l
      else if WithStatus(s.status, c.Before(v), c.skip) != {} then Scanning(l.todo - {v})
      else Claiming(v, l.todo - {v})
    case Claim(w) =>
      if w != who then l
      else if s.phase[l.node].Unseen? then Launching(l.node, l.todo)
      else Scanning(l.todo)
    case Launch(w) => if w != who then l else Scanning(l.todo)
    case Leave(w) => if w != who then l else Idle
    case Receive =>
      if who.Main? then l
      else if s.remaining - 1 == 0 then Stopped
      else Scanning(c.After(s.queue[0]))
    case SeeDone => if who.Main? then l else Stopped
    case Finish => if who.Main? then Stopped else l
    case _ => l
  }

  function NextFailure(c: Config, s: State, a: Action): Option<Name>
    requires Enabled(c, s, a)
  {
    if a.Exit? && !s.phase[a.v].ok && s.failure.None? then Some(a.v) else s.failure
  }

  function NextLog(c: Config, s: State, a: Action): seq<Event>
    requires Enabled(c, s, a)
  {
    match a
    case Begin(v) => if v in c.ignored then s.log else s.log + [Start(v)]
    case Return(v, ok) => s.log + [End(v, ok)]
    case _ => s.log
  }

  function Next(c: Config, s: State, a: Action): State
    requires Enabled(c, s, a)
  {
    State(
      NextStatus(c, s, a),
      NextPhase(c, s, a),
      NextQueue(c, s, a),
      s.closed || a.Finish?,
      if a.Receive? then s.remaining - 1 else s.remaining,
      NextLauncher(c, s, a, Coordinator),
      NextLauncher(c, s, a, Main),
      s.cancelled || a.Interrupt? || (a.Exit? && !s.phase[a.v].ok),
      NextFailure(c, s, a),
      NextReceived(c, s, a),
      s.interrupted || a.Interrupt?,
      NextLog(c, s, a))
  }

  /** The state after a sequence of actions, if each is enabled in its turn. */
  function Run(c: Config, actions: seq<Action>): Option<State> {
    if actions == [] then Some(Init(c))
    else
      match Run(c, actions[..|actions| - 1])
      case None => None
      case Some(s) =>
        var a := actions[|actions| - 1];
        if Enabled(c, s, a) then Some(Next(c, s, a)) else None
  }

  /** What visit returns once main has stopped. */
  function Outcome(s: State): Option<Name>
    requires s.main.Stopped?
  {
    s.failure
  }
}
