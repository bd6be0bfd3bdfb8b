/** Finite directed graphs over service names: walks, cycles, reachability.

    An edge u -> v reads "u depends on v". The mutable graph of the program
    (module Dependencies) and the scheduler (module Scheduler) are both
    specified over the values of this module. */
module Digraphs {
  import opened Collections


  type Name = string

  /** Every node is a key; out[v] is the set of its direct successors. */
  datatype Digraph = Digraph(out: map<Name, set<Name>>) {

    function Nodes(): set<Name> {
      out.Keys
    }

    /** Edges lead to nodes. */
    predicate WellFormed() {
      forall v <- out :: out[v] <= out.Keys
    }

    predicate Edge(u: Name, v: Name) {
      u in out && v in out[u]
    }

    function Out(v: Name): set<Name> {
      if v in out then out[v] else {}
    }

    function In(v: Name): set<Name> {
      set u | u in out && v in out[u]
    }

    /** The same nodes with every edge turned around. */
    function Reverse(): Digraph {
      Digraph(map v | v in out :: In(v))
    }

    function WithNode(v: Name): Digraph {
      Digraph(out[v := {}])
    }

    function WithOut(v: Name, successors: set<Name>): Digraph {
      Digraph(out[v := successors])
    }

    function WithEdge(u: Name, v: Name): Digraph {
      Digraph(out[u := Out(u) + {v}])
    }
  }

  /** h has exactly the edges of g, turned around. */
  ghost predicate Mirrored(g: Digraph, h: Digraph) {
    forall u, v {:trigger g.Edge(u, v)} {:trigger h.Edge(v, u)} :: g.Edge(u, v) <==> h.Edge(v, u)
  }

  lemma MirroredIsReverse(g: Digraph, h: Digraph)
    requires g.Nodes() == h.Nodes() && h.WellFormed() && Mirrored(g, h)
    ensures h == g.Reverse()
  {
    forall v <- g.out ensures h.out[v] == g.In(v) {
      forall u ensures u in h.out[v] <==> u in g.In(v) {
        assert g.Edge(u, v) <==> h.Edge(v, u);
      }
    }
  }

  lemma MirroredWithNode(g: Digraph, h: Digraph, v: Name)
    requires g.WellFormed() && h.WellFormed() && g.Nodes() == h.Nodes() && Mirrored(g, h)
    requires g.Out(v) == h.Out(v) == {}
    ensures g.WithNode(v).WellFormed() && h.WithNode(v).WellFormed()
    ensures Mirrored(g.WithNode(v), h.WithNode(v))
    ensures forall w <- g.out :: v !in g.out[w] && v !in h.out[w]
  {
    forall w <- g.out ensures v !in g.out[w] && v !in h.out[w] {
      assert g.Edge(w, v) <==> h.Edge(v, w);
      assert h.Edge(w, v) <==> g.Edge(v, w);
    }
    forall u, w ensures g.WithNode(v).Edge(u, w) <==> h.WithNode(v).Edge(w, u) {
      assert g.Edge(u, w) <==> h.Edge(w, u);
    }
  }

  lemma MirroredWithEdge(g: Digraph, h: Digraph, u: Name, v: Name)
    requires g.WellFormed() && h.WellFormed() && g.Nodes() == h.Nodes() && Mirrored(g, h)
    requires u in g.out && v in g.out
    ensures g.WithEdge(u, v).WellFormed() && h.WithEdge(v, u).WellFormed()
    ensures Mirrored(g.WithEdge(u, v), h.WithEdge(v, u))
    ensures g.WithEdge(u, v).Nodes() == g.Nodes() && h.WithEdge(v, u).Nodes() == h.Nodes()
  {
    forall x, y ensures g.WithEdge(u, v).Edge(x, y) <==> h.WithEdge(v, u).Edge(y, x) {
      assert g.Edge(x, y) <==> h.Edge(y, x);
    }
  }

  lemma WithOutMore(g: Digraph, u: Name, successors: set<Name>, v: Name)
    ensures g.WithOut(u, successors).WithEdge(u, v) == g.WithOut(u, successors + {v})
    ensures u in g.out ==> g.WithOut(u, g.out[u]) == g
  {
  }

  lemma WithEdgeTwice(g: Digraph, u: Name, v: Name)
    requires u in g.out
    ensures v in g.out[u] ==> g.WithEdge(u, v) == g
  {
    if v in g.out[u] {
      assert g.out[u] + {v} == g.out[u];
      assert g.out[u := g.out[u]] == g.out;
    }
  }

  /** The nodes without successors. */
  function Sinks(g: Digraph): set<Name> {
    set v | v in g.out && g.Out(v) == {}
  }

  /** A non-empty sequence of nodes, each joined to the next by an edge. */
  ghost predicate Walk(g: Digraph, p: seq<Name>) {
    && |p| >= 1
    && (forall i :: 0 <= i < |p| ==> p[i] in g.out)
    && (forall i, j :: 0 <= i && j == i + 1 && j < |p| ==> g.Edge(p[i], p[j]))
  }

  ghost predicate Cycle(g: Digraph, p: seq<Name>) {
    Walk(g, p) && |p| >= 2 && p[0] == p[|p| - 1]
  }

  ghost predicate Acyclic(g: Digraph) {
    forall p :: !Cycle(g, p)
  }

  /** A walk of at least one edge from u to v. */
  ghost predicate Connects(g: Digraph, p: seq<Name>, u: Name, v: Name) {
    Walk(g, p) && |p| >= 2 && p[0] == u && p[|p| - 1] == v
  }

  /** The transitive (not reflexive) closure of the edge relation. */
  ghost predicate Reaches(g: Digraph, u: Name, v: Name) {
    exists p :: Connects(g, p, u, v)
  }

  /** A walk whose last node occurs earlier on it. */
  ghost predicate Lasso(g: Digraph, p: seq<Name>) {
    Walk(g, p) && exists i :: 0 <= i < |p| - 1 && p[i] == p[|p| - 1]
  }

  /** Some walk starting in v runs into a cycle. */
  ghost predicate LassoFrom(g: Digraph, v: Name) {
    exists p :: Lasso(g, p) && p[0] == v
  }

  lemma SubWalk(g: Digraph, p: seq<Name>, i: nat, j: nat)
    requires Walk(g, p) && i < j <= |p|
    ensures Walk(g, p[i..j])
  {
  }

  lemma JoinWalks(g: Digraph, p: seq<Name>, q: seq<Name>)
    requires Walk(g, p) && Walk(g, q) && p[|p| - 1] == q[0]
    ensures Walk(g, p + q[1..])
    ensures (p + q[1..])[|p + q[1..]| - 1] == q[|q| - 1]
  {
  }

  lemma ExtendWalk(g: Digraph, p: seq<Name>, v: Name)
    requires g.WellFormed() && Walk(g, p) && Distinct(p) && g.Edge(p[|p| - 1], v)
    ensures Walk(g, p + [v])
    ensures if v in p then Lasso(g, p + [v]) else Distinct(p + [v])
  {
    var q := p + [v];
    assert Walk(g, [p[|p| - 1], v]);
    JoinWalks(g, p, [p[|p| - 1], v]);
    assert [p[|p| - 1], v][1..] == [v];
    if v in p {
      var i :| 0 <= i < |p| && p[i] == v;
      assert q[i] == v == q[|q| - 1];
    }
  }

  lemma LassoHasCycle(g: Digraph, p: seq<Name>)
    requires Lasso(g, p)
    ensures !Acyclic(g)
  {
    var i :| 0 <= i < |p| - 1 && p[i] == p[|p| - 1];
    SubWalk(g, p, i, |p|);
    assert Cycle(g, p[i..]) by { assert p[i..|p|] == p[i..]; }
  }

  /** A cycle is one node that lies on a lasso, and conversely. */
  lemma AcyclicIffNoLasso(g: Digraph)
    ensures Acyclic(g) <==> forall v <- g.out :: !LassoFrom(g, v)
  {
    if v :| v in g.out && LassoFrom(g, v) {
      var p :| Lasso(g, p) && p[0] == v;
      LassoHasCycle(g, p);
    }
    if p :| Cycle(g, p) {
      assert Lasso(g, p);
      assert p[0] in g.out && LassoFrom(g, p[0]);
    }
  }

  /** A walk that runs into a cycle does so from its second node as well. */
  lemma LassoAfterFirst(g: Digraph, v: Name)
    requires g.WellFormed()
    ensures LassoFrom(g, v) ==> v in g.out && exists w <- g.out[v] :: LassoFrom(g, w)
  {
    if p :| Lasso(g, p) && p[0] == v {
      var i :| 0 <= i < |p| - 1 && p[i] == p[|p| - 1];
      var w := p[1];
      assert g.Edge(p[0], p[1]);
      SubWalk(g, p, 1, |p|);
      var q := p[1..|p|];
      if i >= 1 {
        assert q[i - 1] == q[|q| - 1];
        assert Lasso(g, q) && q[0] == w;
      } else {
        // v w ... v: walk on to w once more
        assert Walk(g, [v, w]);
        JoinWalks(g, q, [v, w]);
        var r := q + [v, w][1..];
        assert r[0] == w == r[|r| - 1];
        assert Lasso(g, r);
      }
      assert LassoFrom(g, w);
    }
  }

  lemma EdgeReaches(g: Digraph, u: Name, v: Name)
    requires g.WellFormed() && g.Edge(u, v)
    ensures Reaches(g, u, v)
  {
    assert Connects(g, [u, v], u, v);
  }

  lemma ReachesTransitive(g: Digraph, u: Name, v: Name, w: Name)
    requires Reaches(g, u, v) && Reaches(g, v, w)
    ensures Reaches(g, u, w)
  {
    var p :| Connects(g, p, u, v);
    var q :| Connects(g, q, v, w);
    JoinWalks(g, p, q);
    assert Connects(g, p + q[1..], u, w);
  }

  /** Reachability peels off its first edge. */
  lemma ReachesFirst(g: Digraph, u: Name, w: Name)
    requires Reaches(g, u, w)
    ensures exists v :: g.Edge(u, v) && (v == w || Reaches(g, v, w))
  {
    var p :| Connects(g, p, u, w);
    assert g.Edge(p[0], p[1]);
    if |p| > 2 {
      SubWalk(g, p, 1, |p|);
      assert Connects(g, p[1..|p|], p[1], w);
    }
  }

  lemma ReachesNodes(g: Digraph, u: Name, w: Name)
    requires Reaches(g, u, w)
    ensures u in g.out && w in g.out
  {
  }

  lemma AcyclicIrreflexive(g: Digraph, v: Name)
    requires Acyclic(g)
    ensures !Reaches(g, v, v)
  {
    if Reaches(g, v, v) {
      var p :| Connects(g, p, v, v);
      assert Cycle(g, p);
    }
  }

  ghost function Reachable(g: Digraph, v: Name): set<Name> {
    set u | u in g.out && Reaches(g, v, u)
  }

  /** The given nodes and whatever they reach. */
  ghost function AtOrReachable(g: Digraph, vs: set<Name>): set<Name> {
    vs + set u | u in g.out && exists v <- vs :: Reaches(g, v, u)
  }

  lemma AtOrReachableMore(g: Digraph, vs: set<Name>, v: Name)
    ensures AtOrReachable(g, {}) == {}
    ensures AtOrReachable(g, vs + {v}) == AtOrReachable(g, vs) + {v} + Reachable(g, v)
  {
  }

  lemma ReachableFromSuccessors(g: Digraph, v: Name)
    requires g.WellFormed() && v in g.out
    ensures Reachable(g, v) == AtOrReachable(g, g.out[v])
  {
    forall u ensures u in Reachable(g, v) <==> u in AtOrReachable(g, g.out[v]) {
      if u in Reachable(g, v) {
        ReachesFirst(g, v, u);
      }
      if w :| w in g.out[v] && (u == w || Reaches(g, w, u)) {
        EdgeReaches(g, v, w);
        if u != w {
          ReachesTransitive(g, v, w, u);
          ReachesNodes(g, w, u);
        }
      }
    }
  }

  lemma FewerReachable(g: Digraph, u: Name, v: Name)
    requires g.WellFormed() && Acyclic(g) && g.Edge(u, v)
    ensures |Reachable(g, v)| < |Reachable(g, u)|
  {
    EdgeReaches(g, u, v);
    AcyclicIrreflexive(g, v);
    forall w <- Reachable(g, v) ensures w in Reachable(g, u) {
      ReachesTransitive(g, u, v, w);
    }
    SubsetSize(Reachable(g, v), Reachable(g, u) - {v});
  }

  lemma ReverseWalk(g: Digraph, p: seq<Name>)
    requires g.WellFormed() && Walk(g, p)
    ensures Walk(g.Reverse(), Reversed(p))
  {
  }

  lemma ReverseReverse(g: Digraph)
    requires g.WellFormed()
    ensures g.Reverse().WellFormed() && g.Reverse().Reverse() == g
  {
    var r := g.Reverse();
    assert r.Reverse().out.Keys == g.out.Keys;
    forall v <- g.out ensures r.Reverse().out[v] == g.out[v] {
    }
  }

  lemma ReverseReaches(g: Digraph, u: Name, v: Name)
    requires g.WellFormed()
    ensures Reaches(g.Reverse(), v, u) <==> Reaches(g, u, v)
  {
    ReverseReverse(g);
    if p :| Connects(g, p, u, v) {
      ReverseWalk(g, p);
      assert Connects(g.Reverse(), Reversed(p), v, u);
    }
    if p :| Connects(g.Reverse(), p, v, u) {
      ReverseWalk(g.Reverse(), p);
      assert Connects(g, Reversed(p), u, v);
    }
  }

  lemma ReverseAcyclic(g: Digraph)
    requires g.WellFormed() && Acyclic(g)
    ensures Acyclic(g.Reverse())
  {
    ReverseReverse(g);
    if p :| Cycle(g.Reverse(), p) {
      ReverseWalk(g.Reverse(), p);
      assert Cycle(g, Reversed(p));
    }
  }

  /** If every node of S has a successor in S, arbitrarily long walks stay in S. */
  lemma {:induction false} LongWalk(g: Digraph, S: set<Name>, start: Name, n: nat) returns (p: seq<Name>)
    requires start in S && S <= g.out.Keys
    requires forall v <- S :: g.Out(v) * S != {}
    ensures Walk(g, p) && |p| == n + 1 && p[0] == start
    ensures forall x <- p :: x in S
    decreases n
  {
    if n == 0 {
      p := [start];
    } else {
      var next :| next in g.Out(start) * S;
      var rest := LongWalk(g, S, next, n - 1);
      p := [start] + rest;
      assert p[1] == next;
    }
  }

  lemma NoWayOutIsCyclic(g: Digraph, S: set<Name>)
    requires S != {} && S <= g.out.Keys && forall u <- S :: g.Out(u) * S != {}
    ensures !Acyclic(g)
  {
    var start :| start in S;
    var p := LongWalk(g, S, start, |S|);
    if Distinct(p) {
      DistinctFits(p, S);
      assert false;
    }
    var i, j :| 0 <= i < j < |p| && p[i] == p[j];
    SubWalk(g, p, i, j + 1);
    assert Cycle(g, p[i..j + 1]);
  }

  /** In an acyclic graph every non-empty set of nodes has a member with no
      successor in the set. */
  lemma MinimalNode(g: Digraph, S: set<Name>) returns (v: Name)
    requires Acyclic(g)
    requires S != {} && S <= g.out.Keys
    ensures v in S && g.Out(v) * S == {}
  {
    if forall u <- S :: g.Out(u) * S != {} {
      NoWayOutIsCyclic(g, S);
      assert false;
    }
    v :| v in S && g.Out(v) * S == {};
  }
}
