/** Which services a build involves (addBuildDependencies,
    pkg/compose/build.go:283-303): a build context "service:name" makes the
    build of name a part of it. */
module BuildClosure {
  import opened Wrappers
  import opened Collections

  const SERVICE_PREFIX := "service:"

  /** The additional contexts of the build section, if there is one. */
  datatype Service = Service(build: Option<map<string, string>>)

  datatype Project = Project(services: map<string, Service>, disabled: map<string, Service>) {
    /** A name that is in neither map gives the zero service. */
    function Lookup(name: string): Service {
      if name in services then services[name]
      else if name in disabled then disabled[name]
      else Service(None)
    }

    function Contexts(name: string): map<string, string> {
      match Lookup(name).build
      case None => map[]
      case Some(contexts) => contexts
    }

    function Known(): set<string> {
      services.Keys + disabled.Keys
    }
  }

  /** strings.CutPrefix */
  function CutPrefix(target: string): Option<string> {
    if SERVICE_PREFIX <= target then Some(target[|SERVICE_PREFIX|..]) else None
  }

  /** The services that the build of a service refers to. */
  function Needs(p: Project, name: string): set<string> {
    set k | k in p.Contexts(name) && CutPrefix(p.Contexts(name)[k]).Some? :: CutPrefix(p.Contexts(name)[k]).value
  }

  /** A service needs another if one of its contexts is "service:" and the name of
      that; of the services that are disabled only if none is enabled under the
      same name. */
  lemma NeedsIff(p: Project, name: string, other: string)
    ensures other in Needs(p, name) <==>
              exists k, contexts ::
                && (name in p.services ==> p.services[name] == Service(Some(contexts)))
                && (name !in p.services ==> name in p.disabled && p.disabled[name] == Service(Some(contexts)))
                && k in contexts && contexts[k] == "service:" + other
  {
  }

  function NeedsOf(p: Project, names: set<string>): set<string> {
    set n, m | n in names && m in Needs(p, n) :: m
  }

  ghost predicate Closed(p: Project, names: set<string>) {
    NeedsOf(p, names) <= names
  }

  function Members(s: seq<string>): set<string> {
    set x | x in s
  }

  /** The least closed set that contains the services. */
  ghost predicate IsClosure(p: Project, services: seq<string>, result: set<string>) {
    && Members(services) <= result && Closed(p, result)
    && forall other: set<string> | Members(services) <= other && Closed(p, other) :: result <= other
  }

  function Grown(p: Project, services: seq<string>): set<string> {
    Members(services) + NeedsOf(p, Members(services))
  }

  /** The guard of the recursion, or there is nothing to add any more. */
  ghost predicate Complete(p: Project, services: seq<string>) {
    |Grown(p, services)| > |services| || Closed(p, Grown(p, services))
  }

  /** Set.Elements: an arbitrary order. */
  method Elements(names: set<string>) returns (r: seq<string>)
    ensures Distinct(r) && Members(r) == names && |r| == |names|
  {
    r := [];
    var todo := names;
    while todo != {}
      invariant todo <= names && Distinct(r) && Members(r) == names - todo
    {
      var n :| n in todo;
      todo := todo - {n};
      DistinctEnds(r, n);
      assert Members(r + [n]) == Members(r) + {n};
      r := r + [n];
    }
    DistinctSize(r);
  }

  /** The inner loop, over the additional contexts of one service. */
  method AddNeeds(p: Project, service: string, names: set<string>) returns (more: set<string>)
    ensures more == names + Needs(p, service)
  {
    more := names;
    var contexts := p.Contexts(service);
    var todo := contexts.Keys;
    while todo != {}
      invariant todo <= contexts.Keys
      invariant forall k <- contexts.Keys - todo | CutPrefix(contexts[k]).Some? :: CutPrefix(contexts[k]).value in more
      invariant names <= more <= names + Needs(p, service)
    {
      var k :| k in todo;
      todo := todo - {k};
      var target := CutPrefix(contexts[k]);
      if target.Some? {
        more := more + {target.value};
      }
    }
  }

  /** The outer loop, over the services. */
  method Grow(p: Project, services: seq<string>) returns (names: set<string>)
    ensures names == Grown(p, services)
  {
    names := Members(services);
    for i := 0 to |services|
      invariant names == Members(services) + NeedsOf(p, Members(services[..i]))
    {
      assert Members(services[..i + 1]) == Members(services[..i]) + {services[i]};
      names := AddNeeds(p, services[i], names);
    }
    assert services[..|services|] == services;
  }

  /** The result is the closure exactly if the services are complete. */
  method AddBuildDependencies(services: seq<string>, p: Project) returns (r: seq<string>)
    ensures Distinct(r) && Grown(p, services) <= Members(r)
    ensures IsClosure(p, services, Members(r)) <==> Complete(p, services)
    decreases |Members(services) + NeedsOf(p, p.Known())| - |services|
  {
    var names := Grow(p, services);
    WithinBound(p, services);
    r := Elements(names);
    if |names| > |services| {
      GrownHasSameClosure(p, services, r);
      DistinctIsComplete(p, r);
      SubsetSize(Members(r), Members(services) + NeedsOf(p, p.Known()));
      r := AddBuildDependencies(r, p);
    }
  }

  /** Only known services need others. */
  lemma WithinBound(p: Project, services: seq<string>)
    ensures Grown(p, services) <= Members(services) + NeedsOf(p, p.Known())
    ensures Grown(p, services) + NeedsOf(p, p.Known()) == Members(services) + NeedsOf(p, p.Known())
  {
  }

  lemma GrownHasSameClosure(p: Project, services: seq<string>, next: seq<string>)
    requires Members(next) == Grown(p, services)
    ensures forall r :: IsClosure(p, next, r) <==> IsClosure(p, services, r)
  {
  }

  lemma {:induction false} DistinctSize(s: seq<string>)
    ensures |Members(s)| <= |s|
    ensures Distinct(s) ==> |Members(s)| == |s|
  {
    if s != [] {
      var n := |s| - 1;
      DistinctSize(s[..n]);
      assert Members(s) == Members(s[..n]) + {s[n]};
    }
  }

  /** Without repetitions, the result is always the closure. */
  lemma DistinctIsComplete(p: Project, services: seq<string>)
    requires Distinct(services)
    ensures Complete(p, services)
  {
    DistinctSize(services);
    SubsetSize(Members(services), Grown(p, services));
  }

  /** The stop test compares the size of a set with the length of a list, so a
      repeated service can hide a new one: here "c" is missed. */
  lemma RepetitionHides() returns (p: Project, services: seq<string>)
    ensures services == ["a", "a"] && !Complete(p, services)
    ensures forall r | IsClosure(p, services, r) :: "c" in r
    ensures Grown(p, services) == {"a", "b"}
  {
    services := ["a", "a"];
    p := Project(map["a" := Service(Some(map["x" := "service:b"])), "b" := Service(Some(map["x" := "service:c"]))],
                 map[]);
    assert "service:b"[|SERVICE_PREFIX|..] == "b" && "service:c"[|SERVICE_PREFIX|..] == "c";
    assert "x" in p.Contexts("a") && "x" in p.Contexts("b");
    assert Needs(p, "a") == {"b"} && Needs(p, "b") == {"c"};
    OneMissing(p, services);
  }

  lemma OneMissing(p: Project, services: seq<string>)
    requires services == ["a", "a"] && Needs(p, "a") == {"b"} && Needs(p, "b") == {"c"}
    ensures Grown(p, services) == {"a", "b"} && !Complete(p, services)
    ensures forall r | IsClosure(p, services, r) :: "c" in r
  {
    hide Needs;
    assert Members(services) == {"a"} && NeedsOf(p, {"a"}) == {"b"};
    assert "c" in NeedsOf(p, {"a", "b"}) && |{"a", "b"}| == 2;
    forall r | IsClosure(p, services, r) ensures "c" in r {
      assert "a" in Members(services);
      assert "b" in NeedsOf(p, r);
      assert "c" in NeedsOf(p, r);
    }
  }
}
