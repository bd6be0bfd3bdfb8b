/** Building the dependency graph of a project (pkg/compose/dependencies.go). */
module Projects {
  import opened Wrappers
  import opened Digraphs
  import opened Dependencies

  datatype Dependency = Dependency(condition: string, restart: bool, required: bool)

  /** A service with what GetDependencies() returns for it and its DependsOn. */
  datatype Service = Service(name: Name, dependencies: seq<Name>, dependsOn: map<Name, Dependency>)

  /** The enabled services by name, and the profiles of the disabled ones. */
  datatype Project = Project(services: map<Name, Service>, disabled: map<Name, seq<string>>)

  datatype BuildError =
    | NotFound(missing: Name)
    | Disabled(name: Name, requiredBy: Name, profiles: seq<string>)
    | CycleFound(path: seq<Name>)

  ghost predicate KeyedByName(p: Project) {
    forall n <- p.services :: p.services[n].name == n
  }

  /** An absent entry of DependsOn counts as not required. */
  predicate Requires(s: Service, name: Name) {
    name in s.dependsOn && s.dependsOn[name].required
  }

  /** n depends on a service that is not enabled, and cannot do without. */
  predicate Misses(p: Project, n: Name, d: Name) {
    && n in p.services && d in p.services[n].dependencies
    && d !in p.services && Requires(p.services[n], d)
  }

  ghost predicate Complete(p: Project, n: Name) {
    forall d :: !Misses(p, n, d)
  }

  /** The dependencies on enabled services. */
  function DependencyGraph(p: Project): (g: Digraph)
    ensures g.WellFormed() && g.Nodes() == p.services.Keys
  {
    Digraph(map n | n in p.services :: Enabled(p, p.services[n].dependencies))
  }

  function Enabled(p: Project, names: seq<Name>): set<Name> {
    set d | d in names && d in p.services
  }

  /** The project without the dependencies on services that are not enabled. */
  function WithoutMissing(p: Project): Project {
    PrunedUpTo(p, p.services.Keys)
  }

  function PrunedUpTo(p: Project, done: set<Name>): Project {
    p.(services := map n | n in p.services ::
         if n in done then Pruned(p, p.services[n], p.services[n].dependencies) else p.services[n])
  }

  function GraphUpTo(p: Project, done: set<Name>): Digraph {
    Digraph(map n | n in p.services :: if n in done then Enabled(p, p.services[n].dependencies) else {})
  }

  function Unconnected(nodes: set<Name>): Digraph {
    Digraph(map n | n in nodes :: {})
  }

  function AllWith(nodes: set<Name>, status: ServiceStatus): map<Name, ServiceStatus> {
    map n | n in nodes :: status
  }

  function Pruned(p: Project, s: Service, names: seq<Name>): Service {
    s.(dependsOn := map d | d in s.dependsOn && (d in names ==> d in p.services) :: s.dependsOn[d])
  }

  /** No required dependency is missing and none is circular. */
  ghost predicate Buildable(p: Project) {
    Acyclic(DependencyGraph(p)) && forall n <- p.services :: Complete(p, n)
  }

  /** What an error says about the project. */
  ghost predicate Explains(p: Project, e: BuildError) {
    match e
    case NotFound(d) => d !in p.disabled && exists n :: Misses(p, n, d)
    case Disabled(d, n, profiles) => Misses(p, n, d) && d in p.disabled && profiles == p.disabled[d]
    case CycleFound(path) => Lasso(DependencyGraph(p), path)
  }

  lemma ExplainedIsUnbuildable(p: Project, e: BuildError)
    requires Explains(p, e)
    ensures !Buildable(p)
  {
    match e
    case NotFound(d) =>
      var n :| Misses(p, n, d);
      assert !Complete(p, n);
    case Disabled(d, n, _) =>
      assert !Complete(p, n);
    case CycleFound(path) =>
      LassoHasCycle(DependencyGraph(p), path);
  }

  /** Builds the graph of a project, for every order in which the services are
      enumerated, or explains why there is none. */
  method NewGraph(project: Project, initialStatus: ServiceStatus)
    returns (graph: Graph?, pruned: Project, err: Option<BuildError>)
    requires KeyedByName(project)
    ensures err.None? <==> Buildable(project)
    ensures err.None? <==> graph != null
    ensures graph != null ==>
              && graph.Valid() && fresh(graph) && fresh(graph.Repr)
              && graph.Model == DependencyGraph(project)
              && graph.Statuses == AllWith(project.services.Keys, initialStatus)
              && graph.NamedByKey()
    ensures err.None? ==> pruned == WithoutMissing(project)
    ensures err.Some? ==> Explains(project, err.value)
    ensures err.Some? ==>
              match err.value
              case NotFound(d) => d !in project.services && d !in project.disabled
              case Disabled(d, n, profiles) =>
                && d !in project.services && d in project.disabled && profiles == project.disabled[d]
                && n in project.services && d in project.services[n].dependencies
              case CycleFound(path) => |path| > 1 && path[|path| - 1] in path[..|path| - 1]
  {
    hide Graph.Valid, DependencyGraph;
    var g := AddVertices(project, initialStatus);
    pruned, err := AddAllEdges(g, project);
    if err.Some? {
      ExplainedIsUnbuildable(project, err.value);
      return null, pruned, err;
    }
    var cyclic, path := g.HasCycles();
    if cyclic {
      return null, pruned, Some(CycleFound(path.value));
    }
    return g, pruned, None;
  }

  /** The second loop: the edges of every service. */
  method AddAllEdges(g: Graph, project: Project) returns (pruned: Project, err: Option<BuildError>)
    requires KeyedByName(project)
    requires g.Valid() && g.Model == Unconnected(project.services.Keys)
    modifies g`Model, g`Inverse, g.Repr
    ensures g.Valid()
    ensures err.None? ==> forall n <- project.services :: Complete(project, n)
    ensures err.None? ==> g.Model == DependencyGraph(project) && pruned == WithoutMissing(project)
    ensures err.Some? ==> Explains(project, err.value)
  {
    hide Graph.Valid, GraphUpTo, DependencyGraph, Explains;
    pruned, err := project, None;
    var todo := project.services.Keys;
    ghost var done := {};
    UpToNone(project);
    while todo != {}
      invariant todo !! done && todo + done == project.services.Keys
      invariant g.Valid()
      invariant g.Model == GraphUpTo(project, done) && pruned == PrunedUpTo(project, done)
      invariant forall n <- done :: Complete(project, n)
    {
      var n :| n in todo;
      UpToMore(project, done, n);
      var service;
      service, err := AddEdges(g, project, n);
      if err.Some? {
        return pruned, err;
      }
      pruned := pruned.(services := pruned.services[n := service]);
      UpToMore(project, done, n);
      todo, done := todo - {n}, done + {n};
    }
    assert done == project.services.Keys;
    UpToAll(project);
    return pruned, None;
  }

  /** The first loop: a vertex per service. */
  method AddVertices(project: Project, initialStatus: ServiceStatus) returns (g: Graph)
    requires KeyedByName(project)
    ensures fresh(g) && fresh(g.Repr) && g.Valid()
    ensures g.Model == Unconnected(project.services.Keys) && g.NamedByKey()
    ensures g.Statuses == AllWith(project.services.Keys, initialStatus)
  {
    hide Graph.Valid, Unconnected, AllWith, Digraph.WithNode, Digraph.Out;
    g := new Graph();
    var todo := project.services.Keys;
    ghost var done := {};
    AddedNone(initialStatus);
    while todo != {}
      invariant todo !! done && todo + done == project.services.Keys
      invariant fresh(g) && fresh(g.Repr) && g.Valid() && g.NamedByKey()
      invariant g.Model == Unconnected(done) && g.Inverse == Unconnected(done)
      invariant g.Statuses == AllWith(done, initialStatus)
    {
      var n :| n in todo;
      AddedMore(done, n, initialStatus);
      g.AddVertex(project.services[n].name, project.services[n].name, initialStatus);
      todo, done := todo - {n}, done + {n};
    }
    assert done == project.services.Keys;
  }

  lemma AddedNone(status: ServiceStatus)
    ensures Unconnected({}) == Digraph(map[]) && AllWith({}, status) == map[]
  {
  }

  lemma AddedMore(done: set<Name>, n: Name, status: ServiceStatus)
    ensures Unconnected(done).Out(n) == {} && Unconnected(done + {n}) == Unconnected(done).WithNode(n)
    ensures AllWith(done + {n}, status) == AllWith(done, status)[n := status]
  {
  }

  /** One round of the second loop: the edges of service n. A missing
      dependency is dropped if it is optional and an error if it is required. */
  method AddEdges(g: Graph, project: Project, n: Name) returns (service: Service, err: Option<BuildError>)
    requires KeyedByName(project) && n in project.services
    requires g.Valid() && g.Model.Nodes() == project.services.Keys && g.Model.Out(n) == {}
    modifies g`Model, g`Inverse, g.Repr
    ensures g.Valid()
    ensures err.None? ==> Complete(project, n)
    ensures err.None? ==> service == Pruned(project, project.services[n], project.services[n].dependencies)
    ensures err.None? ==> g.Model == old(g.Model).WithOut(n, Enabled(project, project.services[n].dependencies))
    ensures err.Some? ==> Explains(project, err.value)
  {
    assert g.Vertices.Keys == project.services.Keys;
    hide Graph.Valid, Explains;
    PrunedNone(project, project.services[n]);
    WithOutMore(g.Model, n, {}, n);
    service, err := AddListed(g, project, n, project.services[n].dependencies, g.Model);
    if err.None? {
      CompleteWhenListed(project, n);
    }
  }

  /** The loop over the dependencies of one service. */
  method AddListed(g: Graph, project: Project, n: Name, names: seq<Name>, ghost start: Digraph)
    returns (service: Service, err: Option<BuildError>)
    requires KeyedByName(project) && n in project.services && names == project.services[n].dependencies
    requires g.Valid() && g.Vertices.Keys == project.services.Keys
    requires g.Model == start.WithOut(n, Enabled(project, [])) &&
             project.services[n] == Pruned(project, project.services[n], [])
    modifies g`Model, g`Inverse, g.Repr
    ensures g.Valid()
    ensures err.None? ==> g.Model == start.WithOut(n, Enabled(project, names))
    ensures err.None? ==> service == Pruned(project, project.services[n], names)
    ensures err.None? ==> forall d <- names :: !Misses(project, n, d)
    ensures err.Some? ==> Explains(project, err.value)
  {
    hide Graph.Valid, Explains, Enabled, Pruned, Misses, Digraph.WithOut;
    service, err := project.services[n], None;
    var i := 0;
    while i < |names| && err.None?
      invariant 0 <= i <= |names| && g.Valid()
      invariant err.Some? ==> Explains(project, err.value)
      invariant err.None? ==> g.Model == start.WithOut(n, Enabled(project, names[..i]))
      invariant err.None? ==> service == Pruned(project, project.services[n], names[..i])
      invariant err.None? ==> forall d <- names[..i] :: !Misses(project, n, d)
    {
      assert names[..i + 1] == names[..i] + [names[i]];
      service, err := AddOrDrop(g, project, n, names[..i], names[i], service, start);
      i := i + 1;
    }
    assert err.None? ==> names[..i] == names;
  }

  /** The treatment of one dependency. */
  method AddOrDrop(g: Graph, project: Project, n: Name, ghost before: seq<Name>, name: Name, service: Service,
                   ghost model: Digraph)
    returns (service': Service, err: Option<BuildError>)
    requires KeyedByName(project) && n in project.services && name in project.services[n].dependencies
    requires g.Valid() && g.Vertices.Keys == project.services.Keys
    requires forall d <- before :: !Misses(project, n, d)
    requires g.Model == model.WithOut(n, Enabled(project, before)) &&
             service == Pruned(project, project.services[n], before)
    modifies g`Model, g`Inverse, g.Repr
    ensures g.Valid()
    ensures err.None? ==> g.Model == model.WithOut(n, Enabled(project, before + [name]))
    ensures err.None? ==> service' == Pruned(project, project.services[n], before + [name])
    ensures err.None? ==> !Misses(project, n, name)
    ensures err.Some? ==> Explains(project, err.value)
  {
    hide Graph.Valid, Explains, Enabled, Digraph.WithOut, Pruned, Misses, Requires;
    EnabledMore(project, before, name);
    PrunedMore(project, project.services[n], before, name);
    WithOutMore(model, n, Enabled(project, before), name);
    RequiresStill(project, n, before, name);
    service', err := service, None;
    var e := g.AddEdge(service.name, name);
    if e.Some? {
      if !Requires(service, name) {
        service' := service.(dependsOn := service.dependsOn - {name});
      } else {
        ExplainsMissing(project, n, name);
        err := Some(if name in project.disabled then Disabled(name, n, project.disabled[name]) else NotFound(name));
      }
    }
  }

  /** Dropping optional dependencies does not change what is missing. */
  lemma RequiresStill(p: Project, n: Name, before: seq<Name>, name: Name)
    requires n in p.services && name in p.services[n].dependencies
    requires forall d <- before :: !Misses(p, n, d)
    ensures Pruned(p, p.services[n], before).name == p.services[n].name
    ensures name !in p.services ==> (Requires(Pruned(p, p.services[n], before), name) <==> Misses(p, n, name))
    ensures name in p.services ==> !Misses(p, n, name)
  {
  }

  lemma CompleteWhenListed(p: Project, n: Name)
    requires n in p.services && forall d <- p.services[n].dependencies :: !Misses(p, n, d)
    ensures Complete(p, n)
  {
  }

  lemma ExplainsMissing(p: Project, n: Name, d: Name)
    requires Misses(p, n, d)
    ensures Explains(p, if d in p.disabled then Disabled(d, n, p.disabled[d]) else NotFound(d))
  {
  }

  lemma EnabledMore(p: Project, names: seq<Name>, d: Name)
    ensures Enabled(p, names + [d]) == if d in p.services then Enabled(p, names) + {d} else Enabled(p, names)
  {
  }

  lemma PrunedNone(p: Project, s: Service)
    ensures Pruned(p, s, []) == s && Enabled(p, []) == {}
  {
  }

  lemma UpToNone(p: Project)
    ensures PrunedUpTo(p, {}) == p
    ensures GraphUpTo(p, {}) == Unconnected(p.services.Keys)
  {
  }

  lemma UpToMore(p: Project, done: set<Name>, n: Name)
    requires n in p.services
    ensures PrunedUpTo(p, done).services[n := Pruned(p, p.services[n], p.services[n].dependencies)]
         == PrunedUpTo(p, done + {n}).services
    ensures GraphUpTo(p, done).Nodes() == p.services.Keys &&
            GraphUpTo(p, done).Out(n) == (if n in done then Enabled(p, p.services[n].dependencies) else {})
    ensures GraphUpTo(p, done).WithOut(n, Enabled(p, p.services[n].dependencies)) == GraphUpTo(p, done + {n})
  {
  }

  lemma UpToAll(p: Project)
    ensures GraphUpTo(p, p.services.Keys) == DependencyGraph(p)
  {
  }

  lemma PrunedMore(p: Project, s: Service, names: seq<Name>, d: Name)
    ensures d in p.services ==> Pruned(p, s, names + [d]) == Pruned(p, s, names)
    ensures d !in p.services ==>
              Pruned(p, s, names + [d]) == Pruned(p, s, names).(dependsOn := Pruned(p, s, names).dependsOn - {d})
  {
  }

  // ---- what NewGraph makes of a project ----

  /** An edge for every dependency on a service of the project. */
  lemma DependencyEdges(p: Project)
    ensures DependencyGraph(p).Nodes() == p.services.Keys
    ensures forall status :: AllWith(p.services.Keys, status) == map n | n in p.services :: status
    ensures forall n, d :: DependencyGraph(p).Edge(n, d) <==>
              n in p.services && d in p.services[n].dependencies && d in p.services
  {
  }

  /** A graph can be built if the dependencies are acyclic and none that is
      missing is required. */
  lemma BuildableIff(p: Project)
    ensures Buildable(p) <==>
              && Acyclic(DependencyGraph(p))
              && forall n, d | n in p.services && d in p.services[n].dependencies && d !in p.services ::
                   d in p.services[n].dependsOn ==> !p.services[n].dependsOn[d].required
  {
    hide Acyclic, DependencyGraph;
    forall n <- p.services
      ensures Complete(p, n) <==> forall d | d in p.services[n].dependencies && d !in p.services ::
                                    d in p.services[n].dependsOn ==> !p.services[n].dependsOn[d].required
    {
      assert forall d :: Misses(p, n, d) <==>
                           d in p.services[n].dependencies && d !in p.services &&
                           d in p.services[n].dependsOn && p.services[n].dependsOn[d].required;
    }
  }

  /** Of every service only the dependencies on missing services are dropped. */
  lemma PrunedKeeps(p: Project)
    ensures WithoutMissing(p).disabled == p.disabled && WithoutMissing(p).services.Keys == p.services.Keys
    ensures forall n <- p.services ::
              var s, t := p.services[n], WithoutMissing(p).services[n];
              && t.name == s.name && t.dependencies == s.dependencies
              && (forall d :: d in t.dependsOn <==>
                   d in s.dependsOn && (d in p.services || d !in s.dependencies))
              && forall d <- t.dependsOn :: t.dependsOn[d] == s.dependsOn[d]
  {
  }
}
