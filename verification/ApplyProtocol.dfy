/** The convergence of a whole project (convergence.apply): ensureService runs as
    the visitor of the traversal in dependency order, for several services at
    once. The steps of the visitors interleave with those of the traversal; what
    a visitor may do is what EnsureService of module Convergence guarantees
    (CommitAllowed, TakeAwayAllowed, HaltAllowed). */
module ApplyProtocol {
  import opened Wrappers
  import opened Digraphs
  import opened Containers
  import opened References
  import opened Convergence
  import opened Scheduler
  import opened SchedulerInvariant
  import opened SchedulerTrace

  /** How far ensureService has come for a service. */
  datatype Stage = Untouched | Resolved | Failed | Committed

  /** The user reads the ID of a container of the service. */
  datatype Reference = Reference(user: Name, service: Name, id: string)

  datatype World = World(
    traversal: State,
    observed: Observed,            // convergence.services
    removed: set<string>,          // containers removed or replaced so far
    used: set<string>,             // IDs that exist or have existed
    created: set<(Name, string)>,  // containers that the visitor of a service created
    stage: map<Name, Stage>,
    references: set<Reference>)    // IDs substituted for references so far

  datatype Step =
    | Traverse(action: Action)
    | Read(reference: Reference)                       // one lookup of resolveServiceReferences
    | Resolve(s: Name)                                 // it returns
    | Halt(s: Name, dependent: Name, after: seq<Container>) // one round of stopDependentContainers
    | Make(s: Name, id: string)                        // scale up, or the new container of a recreation
    | TakeAway(s: Name, id: string)                    // scale down, or the old container of a recreation
    | Commit(s: Name, updated: seq<Container>, ok: bool)   // eg.Wait, setObservedState

  function StageOf(w: World, s: Name): Stage {
    if s in w.stage then w.stage[s] else Untouched
  }

  predicate Inside(w: World, s: Name) {
    s in w.traversal.phase && w.traversal.phase[s].Visiting?
  }

  /** providers: services left to a plugin, whose visitor returns without these steps. */
  ghost predicate CanStep(c: Config, providers: set<Name>, w: World, step: Step) {
    match step
    case Traverse(a) =>
      && Enabled(c, w.traversal, a)
      && (a.Return? && a.ok && a.v !in providers ==> StageOf(w, a.v) == Committed)
    case Read(r) =>
      Inside(w, r.user) && StageOf(w, r.user) == Untouched && Refers(w.observed, r.service, r.id)
    case Resolve(s) =>
      Inside(w, s) && StageOf(w, s) == Untouched
    case Halt(s, d, after) =>
      Inside(w, s) && StageOf(w, s) == Resolved && Reaches(c.before, d, s) && SameReplicas(Get(w.observed, d), after)
    case Make(s, id) =>
      Inside(w, s) && StageOf(w, s) == Resolved && id != "" && id !in w.used   // the engine gives out no ID twice
    case TakeAway(s, id) =>
      Inside(w, s) && StageOf(w, s) == Resolved && id in RealIds(Get(w.observed, s))
    case Commit(s, updated, ok) =>
      && Inside(w, s) && StageOf(w, s) == Resolved && (ok ==> "" !in Ids(updated))
      && forall id <- RealIds(updated) ::
           (s, id) in w.created || (id in Ids(Get(w.observed, s)) && id !in w.removed)
  }

  /** A failed creation leaves the zero value, whose ID is empty. */
  function RealIds(cs: seq<Container>): set<string> {
    Ids(cs) - {""}
  }

  ghost function DoStep(c: Config, providers: set<Name>, w: World, step: Step): World
    requires CanStep(c, providers, w, step)
  {
    match step
    case Traverse(a) => w.(traversal := Next(c, w.traversal, a))
    case Read(r) => w.(references := w.references + {r})
    case Resolve(s) => w.(stage := w.stage[s := Resolved])
    case Halt(_, d, after) => w.(observed := w.observed[d := after])
    case Make(s, id) => w.(created := w.created + {(s, id)}, used := w.used + {id})
    case TakeAway(_, id) => w.(removed := w.removed + {id})
    case Commit(s, updated, ok) =>
      w.(observed := w.observed[s := updated], stage := w.stage[s := if ok then Committed else Failed])
  }

  // ---- what EnsureService does is possible ----

  /** What a mode was replaced by is a reference that may be read. */
  lemma ReadAllowed(c: Config, providers: set<Name>, w: World, s: Name, mode: string, resolved: string, n: Name)
    requires Inside(w, s) && StageOf(w, s) == Untouched && ModeResolves(w.observed, mode, resolved)
    requires n != "" && mode == "service:" + n
    ensures exists id :: resolved == "container:" + id && CanStep(c, providers, w, Read(Reference(s, n, id)))
  {
    var id :| Refers(w.observed, n, id) && resolved == "container:" + id;
    assert CanStep(c, providers, w, Read(Reference(s, n, id)));
  }

  /** after is what EnsureService leaves as the state of s, keys the containers
      the engine then holds, used and wasUsed the IDs given out by then and before
      it was called. If w recorded what was created and removed, it may commit. */
  lemma CommitAllowed(c: Config, providers: set<Name>, w: World, s: Name, err: Option<Failure>,
                      before: seq<Container>, after: seq<Container>, keys: set<string>, wasUsed: set<string>,
                      used: set<string>)
    requires Inside(w, s) && StageOf(w, s) == Resolved && Ids(Get(w.observed, s)) == Ids(before) && "" !in Ids(before)
    requires Saved(err) && Sourced(before, after, keys, wasUsed, used)
    requires err.None? && "" in Ids(after) ==> "" in Ids(before)
    requires w.removed !! keys && forall id <- Ids(after) | id in used - wasUsed :: (s, id) in w.created
    ensures CanStep(c, providers, w, Commit(s, after, err.None?))
  {
  }

  /** What the engine lost while it ran may be taken away. */
  lemma TakeAwayAllowed(c: Config, providers: set<Name>, w: World, s: Name, before: seq<Container>,
                        had: set<string>, keys: set<string>, id: string)
    requires Inside(w, s) && StageOf(w, s) == Resolved && Ids(Get(w.observed, s)) == Ids(before) && "" !in Ids(before)
    requires had - Ids(before) <= keys && id in had - keys
    ensures CanStep(c, providers, w, TakeAway(s, id))
  {
  }

  /** It may stop the containers of its dependents. */
  lemma HaltAllowed(c: Config, providers: set<Name>, w: World, s: Name, dependents: seq<Name>, after: Observed, d: Name)
    requires Inside(w, s) && StageOf(w, s) == Resolved && d in dependents && Reaches(c.before, d, s)
    requires OnlyStates(w.observed, after, dependents)
    ensures CanStep(c, providers, w, Halt(s, d, Get(after, d)))
  {
  }

  /** Nothing has happened yet; a container belongs to one service. */
  ghost predicate Initially(c: Config, w: World) {
    && w.traversal == Init(c) && w.stage == map[] && w.references == {} && w.removed == {} && w.created == {}
    && Owned(w)
  }

  /** The world after a sequence of steps, if each is possible in its turn. */
  ghost function Execute(c: Config, providers: set<Name>, start: World, steps: seq<Step>): Option<World> {
    if steps == [] then Some(start)
    else
      match Execute(c, providers, start, steps[..|steps| - 1])
      case None => None
      case Some(w) =>
        var step := steps[|steps| - 1];
        if CanStep(c, providers, w, step) then Some(DoStep(c, providers, w, step)) else None
  }

  // ---- what every step keeps ----

  ghost predicate Owned(w: World) {
    && (forall s, id | Belongs(w, s, id) :: id in w.used)
    && (forall s, t, id | Belongs(w, s, id) && Belongs(w, t, id) :: s == t)
    && forall s, id | (s, id) in w.created && !Past(StageOf(w, s)) :: id !in Ids(Get(w.observed, s))
  }

  ghost predicate Belongs(w: World, s: Name, id: string) {
    id in RealIds(Get(w.observed, s)) || (s, id) in w.created
  }

  predicate Past(stage: Stage) {
    stage == Committed || stage == Failed
  }

  /** A visitor that returned without error has committed, and stages agree with
      the phases of the traversal. */
  ghost predicate Staged(providers: set<Name>, w: World) {
    forall s <- w.traversal.phase ::
      && (StageOf(w, s) != Untouched ==> Begun(w.traversal.phase[s]))
      && (EndedWith(w.traversal.phase[s], true) && s !in providers ==> StageOf(w, s) == Committed)
  }

  /** What has converged stays: none of its containers has been removed. */
  ghost predicate Stable(w: World) {
    && w.removed <= w.used && (forall s, id | (s, id) in w.created :: id !in w.removed)
    && forall s :: StageOf(w, s) == Committed ==> Ids(Get(w.observed, s)) !! w.removed && "" !in Ids(Get(w.observed, s))
  }

  /** A reference to a dependency names a container of its converged state. */
  ghost predicate Sound(c: Config, providers: set<Name>, w: World) {
    forall r <- w.references | Reaches(c.before, r.user, r.service) && r.service !in providers ::
      StageOf(w, r.service) == Committed && r.id in Ids(Get(w.observed, r.service))
  }

  ghost predicate WorldInv(c: Config, providers: set<Name>, w: World) {
    Inv(c, w.traversal) && Owned(w) && Staged(providers, w) && Stable(w) && Sound(c, providers, w)
  }

  lemma InitialWorld(c: Config, providers: set<Name>, w: World)
    requires c.Valid() && Initially(c, w)
    ensures WorldInv(c, providers, w)
  {
    InitInv(c);
  }

  /** While a visitor runs, everything before its vertex has returned well. */
  lemma DependencyCommitted(c: Config, providers: set<Name>, w: World, s: Name, d: Name)
    requires WorldInv(c, providers, w) && Inside(w, s) && Reaches(c.before, s, d) && d !in providers
    ensures StageOf(w, d) == Committed
  {
    var p :| Connects(c.before, p, s, d);
    AllBeforeFinished(c, w.traversal, p);
  }

  /** A service on which a running visitor's vertex depends is past; one that
      depends on it has not begun. */
  lemma DependentUntouched(c: Config, providers: set<Name>, w: World, s: Name, d: Name)
    requires WorldInv(c, providers, w) && Inside(w, s) && Reaches(c.before, d, s)
    ensures StageOf(w, d) == Untouched
  {
    ReachesNodes(c.before, d, s);
    if w.traversal.phase[d] != Unseen {
      var p :| Connects(c.before, p, d, s);
      AllBeforeFinished(c, w.traversal, p);
      assert false;
    }
  }

  /** A step that is not one of the traversal changes the containers of at most
      one service, and only a commit changes which they are. */
  lemma IdsAfter(c: Config, providers: set<Name>, w: World, step: Step, s: Name)
    requires CanStep(c, providers, w, step)
    ensures Ids(Get(DoStep(c, providers, w, step).observed, s)) ==
              if step.Commit? && step.s == s then Ids(step.updated) else Ids(Get(w.observed, s))
  {
  }

  /** Only making a container gives it to a service. */
  lemma BelongsAfter(c: Config, providers: set<Name>, w: World, step: Step, s: Name, id: string)
    requires CanStep(c, providers, w, step) && Belongs(DoStep(c, providers, w, step), s, id)
    ensures Belongs(w, s, id) || step == Make(s, id)
  {
    IdsAfter(c, providers, w, step, s);
  }

  lemma KeepsOwned(c: Config, providers: set<Name>, w: World, step: Step)
    requires Owned(w) && CanStep(c, providers, w, step)
    ensures Owned(DoStep(c, providers, w, step))
  {
    var after := DoStep(c, providers, w, step);
    forall s, id | Belongs(after, s, id) ensures Belongs(w, s, id) || step == Make(s, id) {
      BelongsAfter(c, providers, w, step, s, id);
    }
    forall s, id | (s, id) in after.created && !Past(StageOf(after, s)) ensures id !in Ids(Get(after.observed, s)) {
      CreatedIsNew(c, providers, w, step, s, id);
    }
    hide Belongs, Next, Enabled, Reaches, Ids, StageOf;
  }

  lemma CreatedIsNew(c: Config, providers: set<Name>, w: World, step: Step, s: Name, id: string)
    requires Owned(w) && CanStep(c, providers, w, step)
    requires (s, id) in DoStep(c, providers, w, step).created && !Past(StageOf(DoStep(c, providers, w, step), s))
    ensures id !in Ids(Get(DoStep(c, providers, w, step).observed, s))
  {
    IdsAfter(c, providers, w, step, s);
    assert step == Make(s, id) ==> !Belongs(w, s, id);
    hide Ids, Next, Enabled, Reaches;
  }

  lemma KeepsStaged(c: Config, providers: set<Name>, w: World, step: Step)
    requires Inv(c, w.traversal) && Staged(providers, w) && CanStep(c, providers, w, step) && c.ignored == {}
    ensures Staged(providers, DoStep(c, providers, w, step))
  {
    if step.Traverse? {
      MovesOn(c, w.traversal, step.action);
      TraverseKeepsStaged(c, providers, w, step.action);
    }
  }

  lemma TraverseKeepsStaged(c: Config, providers: set<Name>, w: World, a: Action)
    requires Staged(providers, w) && CanStep(c, providers, w, Traverse(a)) && c.ignored == {}
    requires var m := Mover(c, w.traversal, a); m.Move? ==>
               m.v in w.traversal.phase && Follows(w.traversal.phase[m.v], m.to)
    ensures Staged(providers, DoStep(c, providers, w, Traverse(a)))
  {
  }

  lemma KeepsStable(c: Config, providers: set<Name>, w: World, step: Step)
    requires Owned(w) && Stable(w) && CanStep(c, providers, w, step)
    ensures Stable(DoStep(c, providers, w, step))
  {
    var after := DoStep(c, providers, w, step);
    if step.TakeAway? {
      assert Belongs(w, step.s, step.id);
    }
    forall s, id | (s, id) in after.created ensures id !in after.removed {
      assert (s, id) in w.created ==> Belongs(w, s, id);
    }
    forall s | StageOf(after, s) == Committed
      ensures Ids(Get(after.observed, s)) !! after.removed && "" !in Ids(Get(after.observed, s))
    {
      IdsAfter(c, providers, w, step, s);
      forall id <- Ids(Get(after.observed, s)) ensures id !in after.removed {
        assert id in RealIds(Get(after.observed, s)) && Belongs(after, s, id);
        BelongsAfter(c, providers, w, step, s, id);
      }
    }
  }

  lemma KeepsSound(c: Config, providers: set<Name>, w: World, step: Step)
    requires WorldInv(c, providers, w) && CanStep(c, providers, w, step)
    ensures Sound(c, providers, DoStep(c, providers, w, step))
  {
    hide CanStep, DoStep, WorldInv, Reaches;
    var after := DoStep(c, providers, w, step);
    forall r <- after.references | Reaches(c.before, r.user, r.service) && r.service !in providers
      ensures StageOf(after, r.service) == Committed && r.id in Ids(Get(after.observed, r.service))
    {
      SoundAt(c, providers, w, step, r);
    }
  }

  lemma SoundAt(c: Config, providers: set<Name>, w: World, step: Step, r: Reference)
    requires WorldInv(c, providers, w) && CanStep(c, providers, w, step)
    requires r in DoStep(c, providers, w, step).references
    requires Reaches(c.before, r.user, r.service) && r.service !in providers
    ensures StageOf(DoStep(c, providers, w, step), r.service) == Committed
    ensures r.id in Ids(Get(DoStep(c, providers, w, step).observed, r.service))
  {
    hide Inv, Owned, Staged, Stable, Next, Enabled, Reaches, SameReplicas, RealIds;
    IdsAfter(c, providers, w, step, r.service);
    if r !in w.references {
      DependencyCommitted(c, providers, w, r.user, r.service);
    }
  }

  /** Cross-service convergence. At any moment of any run, for any interleaving:
      an ID substituted for a reference to a dependency is the ID of a container
      of the dependency's converged state, which is neither removed nor replaced. */
  lemma {:induction false} ReferencesAreConverged(c: Config, providers: set<Name>, start: World, steps: seq<Step>)
    requires c.Valid() && c.ignored == {} && Initially(c, start)
    ensures Execute(c, providers, start, steps).Some? ==>
              var w := Execute(c, providers, start, steps).value;
              && WorldInv(c, providers, w)
              && forall r <- w.references | Reaches(c.before, r.user, r.service) && r.service !in providers ::
                   && StageOf(w, r.service) == Committed
                   && r.id in Ids(Get(w.observed, r.service)) && r.id !in w.removed
  {
    if steps == [] {
      InitialWorld(c, providers, start);
    } else {
      var earlier, step := steps[..|steps| - 1], steps[|steps| - 1];
      ReferencesAreConverged(c, providers, start, earlier);
      if Execute(c, providers, start, steps).Some? {
        var w := Execute(c, providers, start, earlier).value;
        if step.Traverse? {
          KeepsInv(c, w.traversal, step.action);
        }
        KeepsOwned(c, providers, w, step);
        KeepsStaged(c, providers, w, step);
        KeepsStable(c, providers, w, step);
        KeepsSound(c, providers, w, step);
      }
    }
  }
}
