/** The dependency graph of a project (pkg/compose/dependencies.go): vertices
    that point at each other through two maps and carry a status that the
    traversal updates, the construction of the graph from a project, and the
    cycle detector that guards every traversal. */
module Dependencies {
  import opened Wrappers
  import opened Collections
  import opened Digraphs

  datatype ServiceStatus = ServiceStopped | ServiceStarted

  class Vertex {
    const Key: Name
    const Service: Name
    var Status: ServiceStatus
    var Children: map<Name, Vertex>
    var Parents: map<Name, Vertex>

    constructor (key: Name, service: Name, initialStatus: ServiceStatus)
      ensures Key == key && Service == service && Status == initialStatus
      ensures Children == map[] && Parents == map[]
    {
      Key, Service, Status := key, service, initialStatus;
      Children, Parents := map[], map[];
    }

    /** The parents in an arbitrary order, each once. */
    method GetParents() returns (res: seq<Vertex>)
      requires forall k <- Parents :: Parents[k].Key == k
      ensures Lists(res, Parents.Keys, Parents)
    {
      res := [];
      var todo := Parents.Keys;
      ghost var picked := {};
      while todo != {}
        invariant todo !! picked && todo + picked == Parents.Keys
        invariant Lists(res, picked, Parents)
      {
        var k :| k in todo;
        ListsAppend(res, picked, Parents, k);
        res, todo, picked := res + [Parents[k]], todo - {k}, picked + {k};
      }
    }

    /** The children in an arbitrary order, each once. */
    method GetChildren() returns (res: seq<Vertex>)
      requires forall k <- Children :: Children[k].Key == k
      ensures Lists(res, Children.Keys, Children)
    {
      res := [];
      var todo := Children.Keys;
      ghost var picked := {};
      while todo != {}
        invariant todo !! picked && todo + picked == Children.Keys
        invariant Lists(res, picked, Children)
      {
        var k :| k in todo;
        ListsAppend(res, picked, Children, k);
        res, todo, picked := res + [Children[k]], todo - {k}, picked + {k};
      }
    }
  }

  /** res lists, without repetition, exactly the vertices of m under keys. */
  ghost predicate Lists(res: seq<Vertex>, keys: set<Name>, m: map<Name, Vertex>) {
    && |res| == |keys|
    && (forall i :: 0 <= i < |res| ==> Stored(res[i], keys, m))
    && (forall i, j :: 0 <= i < j < |res| ==> res[i].Key != res[j].Key)
  }

  ghost predicate Stored(v: Vertex, keys: set<Name>, m: map<Name, Vertex>) {
    v.Key in keys && v.Key in m && m[v.Key] == v
  }

  function KeysOf(vs: seq<Vertex>): set<Name> {
    set v | v in vs :: v.Key
  }

  lemma KeysOfJoin(vs: seq<Vertex>, ws: seq<Vertex>)
    ensures KeysOf(vs + ws) == KeysOf(vs) + KeysOf(ws)
    ensures forall v :: KeysOf([v]) == {v.Key}
  {
  }

  lemma ListsAll(res: seq<Vertex>, keys: set<Name>, m: map<Name, Vertex>)
    requires Lists(res, keys, m)
    ensures KeysOf(res) == keys
  {
    var ks := seq(|res|, i requires 0 <= i < |res| => res[i].Key);
    assert forall i :: 0 <= i < |res| ==> Stored(res[i], keys, m);
    DistinctFits(ks, keys);
    forall k <- keys ensures k in KeysOf(res) {
      var i :| 0 <= i < |ks| && ks[i] == k;
      assert res[i].Key == k;
    }
  }

  lemma ListsAppend(res: seq<Vertex>, keys: set<Name>, m: map<Name, Vertex>, k: Name)
    requires Lists(res, keys, m) && k !in keys && k in m && m[k].Key == k
    ensures Lists(res + [m[k]], keys + {k}, m)
  {
  }

  /** The vertices stored under the given keys. */
  function Pick(vertices: map<Name, Vertex>, keys: set<Name>): map<Name, Vertex> {
    map k | k in keys && k in vertices :: vertices[k]
  }

  lemma PickEmpty(vertices: map<Name, Vertex>, keys: set<Name>)
    requires keys <= vertices.Keys
    ensures Pick(vertices, keys) == map[] <==> keys == {}
  {
    assert Pick(vertices, keys).Keys == keys;
  }

  lemma PickMore(vertices: map<Name, Vertex>, keys: set<Name>, k: Name)
    requires k in vertices
    ensures Pick(vertices, keys + {k}) == Pick(vertices, keys)[k := vertices[k]]
  {
  }

  lemma PickOthers(vertices: map<Name, Vertex>, keys: set<Name>, k: Name, v: Vertex)
    requires k !in keys
    ensures Pick(vertices[k := v], keys) == Pick(vertices, keys)
  {
  }

  // The loops below visit the entries of a map in an arbitrary order; all names
  // the keys that pass the test.

  method ListLeaves(m: map<Name, Vertex>, ghost all: set<Name>) returns (res: seq<Vertex>)
    requires forall k <- m :: m[k].Key == k && (m[k].Children == map[] <==> k in all)
    requires all <= m.Keys
    ensures Lists(res, all, m)
  {
    res := [];
    var todo := m.Keys;
    ghost var picked := {};
    while todo != {}
      invariant todo <= m.Keys && todo !! picked
      invariant picked <= all <= picked + todo
      invariant Lists(res, picked, m)
    {
      var k :| k in todo;
      todo := todo - {k};
      if m[k].Children == map[] {
        ListsAppend(res, picked, m, k);
        res, picked := res + [m[k]], picked + {k};
      }
    }
    assert picked == all;
  }

  method ListRoots(m: map<Name, Vertex>, ghost all: set<Name>) returns (res: seq<Vertex>)
    requires forall k <- m :: m[k].Key == k && (m[k].Parents == map[] <==> k in all)
    requires all <= m.Keys
    ensures Lists(res, all, m)
  {
    res := [];
    var todo := m.Keys;
    ghost var picked := {};
    while todo != {}
      invariant todo <= m.Keys && todo !! picked
      invariant picked <= all <= picked + todo
      invariant Lists(res, picked, m)
    {
      var k :| k in todo;
      todo := todo - {k};
      if m[k].Parents == map[] {
        ListsAppend(res, picked, m, k);
        res, picked := res + [m[k]], picked + {k};
      }
    }
    assert picked == all;
  }

  method ListWithStatus(m: map<Name, Vertex>, status: ServiceStatus, ghost all: set<Name>) returns (res: seq<Vertex>)
    requires forall k <- m :: m[k].Key == k && (m[k].Status == status <==> k in all)
    requires all <= m.Keys
    ensures Lists(res, all, m)
  {
    res := [];
    var todo := m.Keys;
    ghost var picked := {};
    while todo != {}
      invariant todo <= m.Keys && todo !! picked
      invariant picked <= all <= picked + todo
      invariant Lists(res, picked, m)
    {
      var k :| k in todo;
      todo := todo - {k};
      if m[k].Status == status {
        ListsAppend(res, picked, m, k);
        res, picked := res + [m[k]], picked + {k};
      }
    }
    assert picked == all;
  }

  /** The candidates whose status is s. */
  function WithStatus(status: map<Name, ServiceStatus>, candidates: set<Name>, s: ServiceStatus): set<Name> {
    set v | v in candidates && v in status && status[v] == s
  }

  /** Two relations on the vertices, one of which is the other reversed. */
  ghost predicate Fitting(nodes: set<Name>, down: Digraph, up: Digraph) {
    && down.Nodes() == nodes && up.Nodes() == nodes
    && down.WellFormed() && up.WellFormed() && Mirrored(down, up)
  }

  /** Vertex k stores its part of the relations. */
  ghost predicate Described(vertices: map<Name, Vertex>, statuses: map<Name, ServiceStatus>, k: Name,
                            down: Digraph, up: Digraph)
    requires k in vertices && k in statuses
    reads vertices[k]
  {
    var v := vertices[k];
    && v.Key == k && v.Status == statuses[k]
    && v.Children == Pick(vertices, down.Out(k))
    && v.Parents == Pick(vertices, up.Out(k))
  }

  ghost predicate AllDescribed(vertices: map<Name, Vertex>, statuses: map<Name, ServiceStatus>, repr: set<Vertex>,
                               down: Digraph, up: Digraph)
    reads repr
  {
    && vertices.Keys == statuses.Keys
    && (forall k <- vertices :: vertices[k] in repr)
    && (forall k <- vertices :: Described(vertices, statuses, k, down, up))
  }

  lemma StillDescribed(vertices: map<Name, Vertex>, statuses: map<Name, ServiceStatus>, k: Name, down: Digraph,
                       up: Digraph, key: Name, v: Vertex)
    requires k in vertices && k in statuses && Described(vertices, statuses, k, down, up)
    requires k != key && key !in down.Out(k) && key !in up.Out(k)
    ensures Described(vertices[key := v], statuses[key := v.Status], k, down.WithNode(key), up.WithNode(key))
  {
    PickOthers(vertices, down.Out(k), key, v);
    PickOthers(vertices, up.Out(k), key, v);
  }

  class Graph {
    var Vertices: map<Name, Vertex>
    ghost var Model: Digraph                      // the dependency relation
    ghost var Inverse: Digraph                    // the same relation, reversed
    ghost var Statuses: map<Name, ServiceStatus>  // the status of every vertex
    ghost var Repr: set<Vertex>                   // the vertices

    constructor ()
      ensures Valid() && Vertices == map[] && Repr == {}
      ensures Model == Inverse == Digraph(map[]) && Statuses == map[]
    {
      Vertices, Model, Inverse, Statuses, Repr := map[], Digraph(map[]), Digraph(map[]), map[], {};
    }

    /** The vertices store the relation: Children holds the successors of a
        vertex, Parents its predecessors. */
    ghost predicate Valid()
      reads this, Repr
    {
      && Fitting(Vertices.Keys, Model, Inverse)
      && AllDescribed(Vertices, Statuses, Repr, Model, Inverse)
    }

    /** What the search for cycles relies on. */
    ghost predicate Follows()
      reads this, Repr
    {
      && Model.WellFormed() && Model.Nodes() == Vertices.Keys
      && (forall k <- Vertices :: Vertices[k] in Repr && Vertices[k].Children.Keys == Model.Out(k))
    }

    /** Adds an unconnected vertex, replacing one that no edge touches. */
    method AddVertex(key: Name, service: Name, initialStatus: ServiceStatus)
      requires Valid()
      requires Model.Out(key) == Inverse.Out(key) == {}
      modifies this
      ensures Valid()
      ensures Model == old(Model).WithNode(key) && Inverse == old(Inverse).WithNode(key)
      ensures Statuses == old(Statuses)[key := initialStatus]
      ensures key in Vertices && fresh(Vertices[key]) && Vertices[key].Service == service
      ensures Vertices == old(Vertices)[key := Vertices[key]] && Repr == old(Repr) + {Vertices[key]}
    {
      var v := new Vertex(key, service, initialStatus);
      NodeFits(key, v);
      Vertices := Vertices[key := v];
      Model, Inverse := Model.WithNode(key), Inverse.WithNode(key);
      Statuses, Repr := Statuses[key := initialStatus], Repr + {v};
    }

    /** The vertices with one more, v, store the relation with one more node. */
    lemma NodeFits(key: Name, v: Vertex)
      requires Valid() && Model.Out(key) == Inverse.Out(key) == {}
      requires v.Key == key && v.Children == v.Parents == map[]
      ensures Fitting(Vertices[key := v].Keys, Model.WithNode(key), Inverse.WithNode(key))
      ensures AllDescribed(Vertices[key := v], Statuses[key := v.Status], Repr + {v},
                           Model.WithNode(key), Inverse.WithNode(key))
    {
      MirroredWithNode(Model, Inverse, key);
      var vertices, statuses := Vertices[key := v], Statuses[key := v.Status];
      forall k <- vertices ensures Described(vertices, statuses, k, Model.WithNode(key), Inverse.WithNode(key)) {
        if k != key {
          StillDescribed(Vertices, Statuses, k, Model, Inverse, key, v);
        }
      }
      hide Described, Mirrored;
    }

    /** Connects two existing vertices; connecting them twice changes nothing.
        The error is the name that was not found. */
    method AddEdge(source: Name, destination: Name) returns (err: Option<Name>)
      requires Valid()
      modifies this`Model, this`Inverse, Repr
      ensures Valid()
      ensures err.None? <==> source in Vertices && destination in Vertices
      ensures err.Some? ==> err.value == if source !in Vertices then source else destination
      ensures Model == if err.None? then old(Model).WithEdge(source, destination) else old(Model)
    {
      ConnectedAlready(source, destination);
      hide Valid;
      if source !in Vertices {
        return Some(source);
      }
      if destination !in Vertices {
        return Some(destination);
      }
      if destination in Vertices[source].Children {
        return None;
      }
      Connect(source, destination);
      return None;
    }

    lemma ConnectedAlready(source: Name, destination: Name)
      requires Valid()
      ensures source in Vertices && destination in Vertices[source].Children ==>
                Model.WithEdge(source, destination) == Model
    {
      if source in Vertices {
        assert Described(Vertices, Statuses, source, Model, Inverse);
        WithEdgeTwice(Model, source, destination);
      }
    }

    method Connect(source: Name, destination: Name)
      requires Valid() && source in Vertices && destination in Vertices
      modifies this`Model, this`Inverse, Repr
      ensures Valid() && Model == old(Model).WithEdge(source, destination)
    {
      EdgeFits(source, destination);
      hide Valid, Fitting, AllDescribed, Digraph.WithEdge;
      LinkChild(source, destination);
      LinkParent(source, destination);
      ValidAgain();
    }

    /** The longer relation is as good as the old one, which the vertices store. */
    lemma EdgeFits(source: Name, destination: Name)
      requires Valid() && source in Vertices && destination in Vertices
      ensures Fitting(Vertices.Keys, Model.WithEdge(source, destination), Inverse.WithEdge(destination, source))
      ensures AllDescribed(Vertices, Statuses, Repr, Model, Inverse)
    {
      MirroredWithEdge(Model, Inverse, source, destination);
    }

    lemma ValidAgain()
      requires Fitting(Vertices.Keys, Model, Inverse)
      requires AllDescribed(Vertices, Statuses, Repr, Model, Inverse)
      ensures Valid()
    {
    }

    /** The first half of connecting two vertices: Children already follow the
        longer relation, Parents still the old one. */
    method LinkChild(source: Name, destination: Name)
      requires AllDescribed(Vertices, Statuses, Repr, Model, Inverse)
      requires source in Vertices && destination in Vertices
      modifies this`Model, Vertices[source]
      ensures Model == old(Model).WithEdge(source, destination)
      ensures AllDescribed(Vertices, Statuses, Repr, Model, Inverse)
    {
      var sourceVertex := Vertices[source];
      PickMore(Vertices, Model.Out(source), destination);
      assert Described(Vertices, Statuses, source, Model, Inverse);
      sourceVertex.Children := sourceVertex.Children[destination := Vertices[destination]];
      Model := Model.WithEdge(source, destination);
      forall k <- Vertices ensures Described(Vertices, Statuses, k, Model, Inverse) {
        assert old(Described(Vertices, Statuses, k, Model, Inverse));
      }
    }

    /** The second half. */
    method LinkParent(source: Name, destination: Name)
      requires AllDescribed(Vertices, Statuses, Repr, Model, Inverse)
      requires source in Vertices && destination in Vertices
      modifies this`Inverse, Vertices[destination]
      ensures Inverse == old(Inverse).WithEdge(destination, source)
      ensures AllDescribed(Vertices, Statuses, Repr, Model, Inverse)
    {
      var destinationVertex := Vertices[destination];
      PickMore(Vertices, Inverse.Out(destination), source);
      assert Described(Vertices, Statuses, destination, Model, Inverse);
      destinationVertex.Parents := destinationVertex.Parents[source := Vertices[source]];
      Inverse := Inverse.WithEdge(destination, source);
      forall k <- Vertices ensures Described(Vertices, Statuses, k, Model, Inverse) {
        assert old(Described(Vertices, Statuses, k, Model, Inverse));
      }
    }

    /** The vertices without children, in an arbitrary order. */
    method Leaves() returns (res: seq<Vertex>)
      requires Valid()
      ensures Lists(res, Sinks(Model), Vertices)
    {
      forall k <- Vertices ensures Vertices[k].Key == k && (Vertices[k].Children == map[] <==> k in Sinks(Model)) {
        assert Described(Vertices, Statuses, k, Model, Inverse);
        PickEmpty(Vertices, Model.Out(k));
      }
      res := ListLeaves(Vertices, Sinks(Model));
    }

    /** The vertices without parents, in an arbitrary order. */
    method Roots() returns (res: seq<Vertex>)
      requires Valid()
      ensures Lists(res, Sinks(Inverse), Vertices)
    {
      forall k <- Vertices ensures Vertices[k].Key == k && (Vertices[k].Parents == map[] <==> k in Sinks(Inverse)) {
        assert Described(Vertices, Statuses, k, Model, Inverse);
        PickEmpty(Vertices, Inverse.Out(k));
      }
      res := ListRoots(Vertices, Sinks(Inverse));
    }

    method UpdateStatus(key: Name, status: ServiceStatus)
      requires Valid() && key in Vertices
      modifies this`Statuses, Vertices[key]
      ensures Valid() && Model == old(Model)
      ensures Statuses == old(Statuses)[key := status]
    {
      assert Described(Vertices, Statuses, key, Model, Inverse);
      var vertex := Vertices[key];
      vertex.Status := status;
      Statuses := Statuses[key := status];
      assert Statuses.Keys == Vertices.Keys;
      forall k <- Vertices ensures Described(Vertices, Statuses, k, Model, Inverse) {
        assert old(Described(Vertices, Statuses, k, Model, Inverse));
        assert Vertices[k] == vertex ==> k == key;
      }
    }

    /** The children of key in the given status, in an arbitrary order. */
    method FilterChildren(key: Name, status: ServiceStatus) returns (res: seq<Vertex>)
      requires Valid() && key in Vertices
      ensures Lists(res, WithStatus(Statuses, Model.Out(key), status), Vertices[key].Children)
    {
      assert Described(Vertices, Statuses, key, Model, Inverse);
      assert forall k <- Model.Out(key) :: Described(Vertices, Statuses, k, Model, Inverse);
      res := ListWithStatus(Vertices[key].Children, status, WithStatus(Statuses, Model.Out(key), status));
    }

    /** The parents of key in the given status, in an arbitrary order. */
    method FilterParents(key: Name, status: ServiceStatus) returns (res: seq<Vertex>)
      requires Valid() && key in Vertices
      ensures Lists(res, WithStatus(Statuses, Inverse.Out(key), status), Vertices[key].Parents)
    {
      assert Described(Vertices, Statuses, key, Model, Inverse);
      assert forall k <- Inverse.Out(key) :: Described(Vertices, Statuses, k, Model, Inverse);
      res := ListWithStatus(Vertices[key].Parents, status, WithStatus(Statuses, Inverse.Out(key), status));
    }

    /** Every vertex was added under the name of its service. */
    ghost predicate NamedByKey()
      reads this
    {
      forall k <- Vertices :: Vertices[k].Service == k
    }

    /** The parents of a vertex of this graph. */
    method ParentsOf(v: Vertex) returns (parents: seq<Vertex>)
      requires Valid() && Stored(v, Vertices.Keys, Vertices)
      ensures KeysOf(parents) == Inverse.Out(v.Key)
      ensures forall p <- parents :: Stored(p, Vertices.Keys, Vertices)
    {
      assert Described(Vertices, Statuses, v.Key, Model, Inverse);
      assert forall k <- Vertices :: Described(Vertices, Statuses, k, Model, Inverse);
      parents := v.GetParents();
      ListsAll(parents, v.Parents.Keys, v.Parents);
      forall p <- parents ensures Stored(p, Vertices.Keys, Vertices) {
        var i :| 0 <= i < |parents| && parents[i] == p;
        assert Stored(parents[i], v.Parents.Keys, v.Parents);
      }
    }

    /** All transitive parents of v, some of them several times. On an acyclic
        graph the recursion ends. */
    method GetAncestors(v: Vertex) returns (descendents: seq<Vertex>)
      requires Valid() && Inverse.WellFormed() && Acyclic(Inverse)
      requires Stored(v, Vertices.Keys, Vertices) && v.Key in Inverse.out
      ensures forall u <- descendents :: Stored(u, Vertices.Keys, Vertices)
      ensures KeysOf(descendents) == Reachable(Inverse, v.Key)
      decreases |Reachable(Inverse, v.Key)|
    {
      hide Valid, Acyclic, Reachable, AtOrReachable;
      ghost var g := Inverse;
      var parents := ParentsOf(v);
      descendents := [];
      AtOrReachableMore(g, {}, v.Key);
      assert KeysOf(descendents) == KeysOf(parents[..0]) == {};
      for i := 0 to |parents|
        invariant forall u <- descendents :: Stored(u, Vertices.Keys, Vertices)
        invariant KeysOf(descendents) == AtOrReachable(g, KeysOf(parents[..i]))
      {
        var parent := parents[i];
        assert parent.Key in KeysOf(parents);
        FewerReachable(g, v.Key, parent.Key);
        var further := GetAncestors(parent);
        assert parents[..i + 1] == parents[..i] + [parent];
        KeysOfJoin(parents[..i], [parent]);
        KeysOfJoin(descendents, [parent]);
        KeysOfJoin(descendents + [parent], further);
        AtOrReachableMore(g, KeysOf(parents[..i]), parent.Key);
        descendents := descendents + [parent] + further;
      }
      assert parents[..|parents|] == parents;
      ReachableFromSuccessors(g, v.Key);
    }

    /** Decides whether the dependency relation has a directed cycle, and if so
        returns a walk along dependencies that comes back to one of its nodes. */
    method HasCycles() returns (cyclic: bool, err: Option<seq<Name>>)
      requires Valid()
      ensures cyclic <==> !Acyclic(Model)
      ensures cyclic <==> err.Some?
      ensures err.Some? ==> Lasso(Model, err.value)
    {
      ghost var g := Model;
      forall k <- Vertices ensures Vertices[k].Children.Keys == g.Out(k) {
        assert Described(Vertices, Statuses, k, Model, Inverse);
      }
      var discovered, finished := [], [];
      var todo := Vertices.Keys;
      while todo != {}
        invariant todo <= Vertices.Keys
        invariant discovered == [] && Follows()
        invariant forall k <- Vertices.Keys - todo :: !LassoFrom(g, k)
        invariant forall k <- finished :: !LassoFrom(g, k)
      {
        var key :| key in todo;
        todo := todo - {key};
        var path := [key];
        if key !in discovered && key !in finished {
          discovered, finished, err := Visit(key, path, discovered, finished);
          if err.Some? {
            LassoHasCycle(g, err.value);
            return true, err;
          }
        }
      }
      AcyclicIffNoLasso(g);
      return false, None;
    }

    /** Depth-first search from key. The lists it returns are used only by
        HasCycles: the recursive calls drop those of their callees, so
        discovered is always the path that led to key. */
    method Visit(key: Name, path: seq<Name>, discovered: seq<Name>, finished: seq<Name>)
      returns (discovered': seq<Name>, finished': seq<Name>, err: Option<seq<Name>>)
      requires Follows() && key in Vertices
      requires path == discovered + [key] && Walk(Model, path) && Distinct(path)
      requires forall k <- finished :: !LassoFrom(Model, k)
      ensures err.None? ==> !LassoFrom(Model, key)
      ensures err.None? ==> discovered' == discovered && finished' == finished + [key]
      ensures err.Some? ==> Lasso(Model, err.value) && path <= err.value
      decreases |Vertices| - |discovered|
    {
      ghost var g := Model;
      DistinctFits(path, Vertices.Keys);
      var found := discovered + [key];
      var children := Vertices[key].Children;
      var todo := children.Keys;
      while todo != {}
        invariant todo <= children.Keys
        invariant forall k <- children.Keys - todo :: !LassoFrom(g, k)
      {
        var child :| child in todo;
        todo := todo - {child};
        var longer := path + [child];
        ExtendWalk(g, path, child);
        if child in found {
          return [], [], Some(longer);
        }
        if child !in finished {
          var _, _, e := Visit(child, longer, found, finished);
          if e.Some? {
            return [], [], e;
          }
        }
      }
      LassoAfterFirst(g, key);
      assert key == path[|discovered|];
      assert forall i :: 0 <= i < |discovered| ==> discovered[i] == path[i];
      RemoveLast(discovered, key);
      return Remove(found, key), finished + [key], None;
    }
  }

  /** slice without the occurrences of item. */
  function Remove(slice: seq<Name>, item: Name): seq<Name> {
    if slice == [] then []
    else if slice[0] != item then [slice[0]] + Remove(slice[1..], item)
    else Remove(slice[1..], item)
  }

  lemma {:induction false} RemoveLast(slice: seq<Name>, item: Name)
    requires item !in slice
    ensures Remove(slice + [item], item) == slice
  {
    if slice != [] {
      assert (slice + [item])[1..] == slice[1..] + [item];
      RemoveLast(slice[1..], item);
    }
  }
}
