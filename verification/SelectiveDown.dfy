/** Taking down selected services (pkg/compose/down.go and the option
    WithRootNodesAndDown of pkg/compose/dependencies.go): the services selected
    on the command line, together with everything that depends on them. */
module SelectiveDown {
  import opened Wrappers
  import opened Digraphs
  import opened Dependencies
  import opened Projects
  import opened Scheduler
  import opened SchedulerTrace
  import opened SchedulerProgress

  /** The given services and their transitive dependents. */
  ghost function WithDependents(g: Digraph, services: set<Name>): set<Name> {
    set v | v in g.out && (v in services || exists s <- services :: Reaches(g, v, s))
  }

  function Selection(names: seq<Name>): set<Name> {
    set n | n in names
  }

  /** The vertices whose visitor the option suppresses; an empty selection
      suppresses none. */
  method Ignored(graph: Graph, nodes: seq<Name>) returns (ignored: set<Name>)
    requires graph.Valid() && graph.NamedByKey() && Acyclic(graph.Model)
    requires forall n <- nodes :: n in graph.Vertices
    ensures ignored == if nodes == [] then {} else graph.Model.Nodes() - WithDependents(graph.Model, Selection(nodes))
  {
    if |nodes| == 0 {
      return {};
    }
    MirroredIsReverse(graph.Model, graph.Inverse);
    ReverseAcyclic(graph.Model);
    var want := Wanted(graph, nodes);
    WithDependentsIsAbove(graph.Model, Selection(nodes));
    ignored := set k | k in graph.Vertices && k !in want;
  }

  /** The nodes with their ancestors. */
  method Wanted(graph: Graph, nodes: seq<Name>) returns (want: seq<Name>)
    requires graph.Valid() && graph.NamedByKey() && Acyclic(graph.Inverse)
    requires forall n <- nodes :: n in graph.Vertices
    ensures Selection(want) == AtOrReachable(graph.Inverse, Selection(nodes))
  {
    hide Acyclic, AtOrReachable, Reachable, Selection, Mirrored, Digraph.WellFormed;
    want := [];
    SelectionJoin([], []);
    AtOrReachableMore(graph.Inverse, {}, "");
    for i := 0 to |nodes|
      invariant Selection(want) == AtOrReachable(graph.Inverse, Selection(nodes[..i]))
    {
      var vertex := graph.Vertices[nodes[i]];
      assert Described(graph.Vertices, graph.Statuses, nodes[i], graph.Model, graph.Inverse);
      var ancestors := graph.GetAncestors(vertex);
      var services := ServicesOf(graph, ancestors);
      assert nodes[..i + 1] == nodes[..i] + [nodes[i]];
      SelectionJoin(nodes[..i], [nodes[i]]);
      SelectionJoin(want, [vertex.Service]);
      SelectionJoin(want + [vertex.Service], services);
      AtOrReachableMore(graph.Inverse, Selection(nodes[..i]), nodes[i]);
      want := want + [vertex.Service] + services;
    }
    assert nodes[..|nodes|] == nodes;
  }

  method ServicesOf(graph: Graph, vs: seq<Vertex>) returns (services: seq<Name>)
    requires graph.NamedByKey() && forall v <- vs :: Stored(v, graph.Vertices.Keys, graph.Vertices)
    ensures Selection(services) == KeysOf(vs)
  {
    services := [];
    for i := 0 to |vs|
      invariant Selection(services) == KeysOf(vs[..i])
    {
      assert vs[..i + 1] == vs[..i] + [vs[i]];
      assert vs[i] in vs;
      KeysOfJoin(vs[..i], [vs[i]]);
      SelectionJoin(services, [vs[i].Service]);
      services := services + [vs[i].Service];
    }
    assert vs[..|vs|] == vs;
  }

  lemma SelectionJoin(a: seq<Name>, b: seq<Name>)
    ensures Selection([]) == {} && forall n :: Selection([n]) == {n}
    ensures Selection(a + b) == Selection(a) + Selection(b)
  {
  }

  lemma WithDependentsIsAbove(g: Digraph, services: set<Name>)
    requires g.WellFormed() && services <= g.out.Keys
    ensures WithDependents(g, services) == AtOrReachable(g.Reverse(), services)
  {
    forall v, s ensures Reaches(g.Reverse(), s, v) <==> Reaches(g, v, s) {
      ReverseReaches(g, v, s);
    }
  }

  ghost predicate FirstUnknown(selected: seq<Name>, project: Project, n: Name) {
    && n in selected && n !in project.services
    && exists i :: 0 <= i < |selected| && selected[i] == n && Selection(selected[..i]) <= project.services.Keys
  }

  /** Keeps the selected services that exist. With an explicit compose file the
      first unknown name is an error; without one it is dropped. */
  method CheckSelectedServices(selected: seq<Name>, explicit: bool, project: Project)
    returns (services: seq<Name>, err: Option<Name>)
    ensures err.Some? <==> explicit && exists n <- selected :: n !in project.services
    ensures err.Some? ==> FirstUnknown(selected, project, err.value)
    ensures err.None? ==> Selection(services) == Selection(selected) * project.services.Keys
    ensures err.None? && explicit ==> Selection(services) == Selection(selected)
  {
    services, err := [], None;
    for i := 0 to |selected|
      invariant Selection(services) == Selection(selected[..i]) * project.services.Keys
      invariant explicit ==> Selection(selected[..i]) <= project.services.Keys
    {
      assert selected[..i + 1] == selected[..i] + [selected[i]];
      SelectionJoin(selected[..i], [selected[i]]);
      if selected[i] !in project.services {
        if explicit {
          return services, Some(selected[i]);
        }
      } else {
        SelectionJoin(services, [selected[i]]);
        services := services + [selected[i]];
      }
    }
    assert selected[..|selected|] == selected;
  }

  datatype DownPlan =
    | Refuse(unknown: Name)            // a selected service does not exist
    | NothingSelected                  // none of the selected services is there
    | Traverse(ignored: set<Name>)

  /** The first half of down: what InReverseDependencyOrder is told. */
  method PlanDown(graph: Graph, project: Project, selected: seq<Name>, explicit: bool) returns (plan: DownPlan)
    requires graph.Valid() && graph.NamedByKey() && Acyclic(graph.Model)
    requires graph.Model.Nodes() == project.services.Keys
    ensures plan.Refuse? <==> explicit && exists n <- selected :: n !in project.services
    ensures plan.Refuse? ==> FirstUnknown(selected, project, plan.unknown)
    ensures plan.NothingSelected? <==>
              !explicit && selected != [] && Selection(selected) * project.services.Keys == {}
    ensures plan.Traverse? ==> plan.ignored <= graph.Model.Nodes()
    ensures plan.Traverse? && selected == [] ==> plan.ignored == {}
    ensures plan.Traverse? && selected != [] ==>
              forall v <- graph.Model.Nodes() ::
                v !in plan.ignored <==> v in selected || exists s <- selected :: Reaches(graph.Model, v, s)
  {
    var services, err := CheckSelectedServices(selected, explicit, project);
    if err.Some? {
      return Refuse(err.value);
    }
    EmptySelection(selected);
    EmptySelection(services);
    if |selected| > 0 && |services| == 0 {
      return NothingSelected;
    }
    assert forall n <- services :: n in Selection(services);
    var ignored := Ignored(graph, services);
    DependentsOfSelected(graph.Model, selected, services);
    return Traverse(ignored);
  }

  /** Services that do not exist have no dependents. */
  lemma DependentsOfSelected(g: Digraph, selected: seq<Name>, services: seq<Name>)
    requires g.WellFormed() && Selection(services) == Selection(selected) * g.Nodes()
    ensures forall v <- g.Nodes() ::
              v in WithDependents(g, Selection(services)) <==> v in selected || exists s <- selected :: Reaches(g, v, s)
  {
    forall v, s | v in g.Nodes() && s in selected && Reaches(g, v, s) ensures s in Selection(services) {
      ReachesNodes(g, v, s);
      assert s in Selection(selected);
    }
    forall n ensures n in Selection(services) <==> n in selected && n in g.Nodes() {
      assert n in Selection(selected) <==> n in selected;
    }
  }

  lemma EmptySelection(names: seq<Name>)
    ensures Selection(names) == {} <==> names == []
  {
    if names != [] {
      assert names[0] in Selection(names);
    }
  }

  /** What a plan of PlanDown ignores. */
  ghost predicate Spares(g: Digraph, selected: seq<Name>, ignored: set<Name>) {
    && ignored <= g.Nodes()
    && forall v <- g.Nodes() ::
         v !in ignored <==> selected == [] || v in selected || exists s <- selected :: Reaches(g, v, s)
  }

  /** In every run of a selective down that was planned by PlanDown, visitors are
      called only for the selected services and their transitive dependents, each
      after all its dependents; and a run that ends without error and interruption
      has called all of them, and leaves them stopped. */
  lemma VisitsExactlyDependents(g: Digraph, selected: seq<Name>, ignored: set<Name>, actions: seq<Action>)
    requires g.WellFormed() && Acyclic(g) && Spares(g, selected, ignored)
    requires Run(DownTraversal(g, ignored), actions).Some?
    ensures
      var s := Run(DownTraversal(g, ignored), actions).value;
      && (forall v | Start(v) in s.log ::
            v in g.Nodes() && (selected == [] || v in selected || exists n <- selected :: Reaches(g, v, n)))
      && (forall i, v, d | 0 <= i < |s.log| && s.log[i] == Start(v) && Reaches(g, d, v) :: End(d, true) in s.log[..i])
      && (s.main.Stopped? && !s.interrupted && s.failure.None? ==>
            forall v | v in g.Nodes() &&
                       (selected == [] || v in selected || exists n <- selected :: Reaches(g, v, n)) ::
              End(v, true) in s.log && v in s.status && s.status[v] == ServiceStopped)
  {
    var c := DownTraversal(g, ignored);
    ReverseAcyclic(g);
    ReverseReverse(g);
    var s := Run(c, actions).value;
    OrderSafety(c, actions);
    forall i, v, d | 0 <= i < |s.log| && s.log[i] == Start(v) && Reaches(g, d, v)
      ensures End(d, true) in s.log[..i]
    {
      ReverseReaches(g, d, v);
      assert Cleared(c, s.log[..i], v);
      assert Start(v) in s.log;
      DependentsClosed(g, selected, ignored, v, d);
    }
    if s.main.Stopped? && !s.interrupted && s.failure.None? {
      VisitsEverything(c, actions);
    }
  }

  lemma DependentsClosed(g: Digraph, selected: seq<Name>, ignored: set<Name>, v: Name, d: Name)
    requires Spares(g, selected, ignored) && v in g.Nodes() - ignored && Reaches(g, d, v)
    ensures d in g.Nodes() - ignored
  {
    ReachesNodes(g, d, v);
    if selected != [] && v !in selected {
      var s :| s in selected && Reaches(g, v, s);
      ReachesTransitive(g, d, v, s);
    }
  }
}
