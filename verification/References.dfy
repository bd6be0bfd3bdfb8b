/** Replacing references to services by references to containers
    (pkg/compose/convergence.go:264-327, pkg/compose/containers.go:175-180). */
module References {
  import opened Wrappers
  import opened Digraphs
  import opened Texts
  import opened Containers

  datatype Failure =
    | ContainerMissing(service: Name)   // cannot share with service: container missing
    | IndexOutOfRange                   // "container" without a name: the program panics
    | ScaleConflict                     // a container name and a scale above one
    | HashFailed
    | StopFailed                        // the dependents could not be stopped
    | EngineFailed
    | PluginFailed

  type Observed = map<Name, seq<Container>>

  /** getObservedState */
  function Get(observed: Observed, name: Name): seq<Container> {
    if name in observed then observed[name] else []
  }

  /** Go's order on strings. */
  predicate NameLess(a: string, b: string) {
    b != "" && (a == "" || a[0] < b[0] || (a[0] == b[0] && NameLess(a[1..], b[1..])))
  }

  lemma {:induction false} NameOrder(a: string, b: string, c: string)
    ensures !NameLess(a, a)
    ensures !NameLess(b, a) && !NameLess(c, b) ==> !NameLess(c, a)
    ensures NameLess(a, b) ==> !NameLess(b, a)
    decreases |a| + |b| + |c|
  {
    if a != "" {
      NameOrder(a[1..], if b != "" then b[1..] else "", if c != "" then c[1..] else "");
    } else if b != "" && c != "" {
      NameOrder(a, b[1..], c[1..]);
    }
  }

  /** It is the lexicographic order: the shorter or, where they first differ, the
      smaller one comes first. */
  lemma {:induction false} NameLessIff(a: string, b: string)
    ensures NameLess(a, b) <==>
              exists k :: 0 <= k <= |a| && k < |b| && a[..k] == b[..k] && (k == |a| || a[k] < b[k])
  {
    if a == "" || b == "" || a[0] != b[0] {
      assert a[..0] == b[..0];
      assert forall k :: 0 < k <= |a| && k < |b| ==> a[..k][0] == a[0] && b[..k][0] == b[0];
    } else {
      NameLessIff(a[1..], b[1..]);
      forall k | 0 < k <= |a| && k < |b| ensures a[..k] == b[..k] <==> a[1..][..k - 1] == b[1..][..k - 1] {
        assert a[..k] == [a[0]] + a[1..][..k - 1] && b[..k] == [b[0]] + b[1..][..k - 1];
      }
      if NameLess(a, b) {
        var k :| 0 <= k <= |a[1..]| && k < |b[1..]| && a[1..][..k] == b[1..][..k] &&
                 (k == |a[1..]| || a[1..][k] < b[1..][k]);
        assert a[..k + 1] == b[..k + 1];
      }
      if k :| 0 <= k <= |a| && k < |b| && a[..k] == b[..k] && (k == |a| || a[k] < b[k]) {
        assert a[1..][..k - 1] == b[1..][..k - 1];
      }
    }
  }

  /** sorted()[0]: a container whose name no other precedes. */
  ghost predicate IsFirst(cs: seq<Container>, c: Container) {
    c in cs && forall d <- cs :: !NameLess(d.name, c.name)
  }

  method FirstByName(cs: seq<Container>) returns (first: Container)
    requires cs != []
    ensures IsFirst(cs, first)
  {
    first := cs[0];
    NameOrder(first.name, "", "");
    for i := 1 to |cs|
      invariant IsFirst(cs[..i], first)
    {
      assert cs[..i + 1] == cs[..i] + [cs[i]];
      var next := cs[i];
      if NameLess(next.name, first.name) {
        forall d <- cs[..i + 1] ensures !NameLess(d.name, next.name) {
          NameOrder(next.name, first.name, d.name);
        }
        first := next;
      }
    }
    assert cs[..|cs|] == cs;
  }

  /** The ID that a reference to a service may be replaced by. */
  ghost predicate Refers(observed: Observed, service: Name, id: string) {
    exists c :: IsFirst(Get(observed, service), c) && c.id == id
  }

  /** An entry of volumes_from: the mode after the name is dropped. */
  ghost predicate VolumeResolves(observed: Observed, vol: string, resolved: string) {
    var spec := Split(vol, ':');
    if spec[0] == "container" then |spec| > 1 && resolved == spec[1]
    else Refers(observed, spec[0], resolved)
  }

  /** The service named by a mode such as "service:db", or "". */
  function DependentService(mode: string): Name {
    if "service:" <= mode then mode[8..] else ""
  }

  /** A mode "service:" followed by a name gives way to "container:" and an ID. */
  ghost predicate ModeResolves(observed: Observed, mode: string, resolved: string) {
    && (forall n | n != "" && mode == "service:" + n ::
          exists id :: Refers(observed, n, id) && resolved == "container:" + id)
    && ((forall n :: mode == "service:" + n ==> n == "") ==> resolved == mode)
  }

  /** What a reference that cannot be resolved says. */
  ghost predicate Unresolvable(observed: Observed, h: Hashed, f: Failure) {
    match f
    case ContainerMissing(n) =>
      && Get(observed, n) == []
      && ((exists v <- h.volumesFrom :: Split(v, ':')[0] == n && n != "container")
          || (n != "" && "service:" + n in {h.networkMode, h.ipc, h.pid}))
    case IndexOutOfRange => exists v <- h.volumesFrom :: Split(v, ':') == ["container"]
    case _ => false
  }

  ghost predicate Resolves(observed: Observed, h: Hashed, r: Hashed) {
    && |r.volumesFrom| == |h.volumesFrom|
    && (forall i :: 0 <= i < |h.volumesFrom| ==> VolumeResolves(observed, h.volumesFrom[i], r.volumesFrom[i]))
    && ModeResolves(observed, h.networkMode, r.networkMode)
    && ModeResolves(observed, h.ipc, r.ipc)
    && ModeResolves(observed, h.pid, r.pid)
    && r == h.(volumesFrom := r.volumesFrom, networkMode := r.networkMode, ipc := r.ipc, pid := r.pid)
  }

  method ResolveVolumesFrom(observed: Observed, h: Hashed) returns (r: Result<seq<string>, Failure>)
    ensures r.Ok? ==> |r.value| == |h.volumesFrom|
    ensures r.Ok? ==> forall i :: 0 <= i < |r.value| ==> VolumeResolves(observed, h.volumesFrom[i], r.value[i])
    ensures r.Err? ==> Unresolvable(observed, h, r.error)
  {
    var resolved := [];
    for i := 0 to |h.volumesFrom|
      invariant |resolved| == i
      invariant forall j :: 0 <= j < i ==> VolumeResolves(observed, h.volumesFrom[j], resolved[j])
    {
      var spec := Split(h.volumesFrom[i], ':');
      if spec[0] == "container" {
        if |spec| == 1 {
          assert h.volumesFrom[i] in h.volumesFrom && spec == ["container"];
          return Err(IndexOutOfRange);
        }
        resolved := resolved + [spec[1]];
      } else {
        var dependencies := Get(observed, spec[0]);
        if |dependencies| == 0 {
          assert h.volumesFrom[i] in h.volumesFrom;
          return Err(ContainerMissing(spec[0]));
        }
        var first := FirstByName(dependencies);
        resolved := resolved + [first.id];
      }
    }
    return Ok(resolved);
  }

  method ResolveMode(observed: Observed, mode: string) returns (r: Result<string, Failure>)
    ensures r.Ok? ==> ModeResolves(observed, mode, r.value)
    ensures forall n | n != "" && mode == "service:" + n ::
              && (r.Ok? <==> n in observed && observed[n] != [])
              && (r.Ok? ==> exists c :: IsFirst(observed[n], c) && r.value == "container:" + c.id)
              && (r.Err? ==> r.error == ContainerMissing(n))
    ensures !("service:" <= mode) || mode == "service:" ==> r == Ok(mode)
    ensures r.Err? ==> r.error.ContainerMissing? && Get(observed, r.error.service) == [] &&
                       r.error.service != "" && mode == "service:" + r.error.service
  {
    var name := DependentService(mode);
    ModeParts(mode, name);
    if name == "" {
      return Ok(mode);
    }
    var dependencies := Get(observed, name);
    if |dependencies| == 0 {
      return Err(ContainerMissing(name));
    }
    var first := FirstByName(dependencies);
    assert Refers(observed, name, first.id);
    return Ok("container:" + first.id);
  }

  lemma ModeParts(mode: string, name: Name)
    requires name == DependentService(mode)
    ensures name != "" ==> mode == "service:" + name
    ensures forall n | mode == "service:" + n :: n == name
  {
    forall n | mode == "service:" + n ensures n == name {
      assert mode[8..] == n;
    }
  }

  /** Entries of volumes_from: "container:" and an ID give the ID, a service gives
      the ID of a first container of it; a mode that follows is dropped. */
  lemma VolumeIs(observed: Observed, name: Name, mode: string, resolved: string)
    requires ':' !in name && ':' !in mode
    ensures VolumeResolves(observed, "container:" + name, resolved) <==> resolved == name
    ensures VolumeResolves(observed, "container:" + name + ":" + mode, resolved) <==> resolved == name
    ensures name != "container" ==>
              forall vol | vol == name || vol == name + ":" + mode ::
                VolumeResolves(observed, vol, resolved) <==>
                name in observed && exists c :: IsFirst(observed[name], c) && resolved == c.id
  {
    var c := "container";
    SplitWord(name, ':');
    SplitAfterWord(name, mode, ':');
    SplitAfterWord(c, name, ':');
    SplitAfterWord(c, name + ":" + mode, ':');
    assert "container:" + name == c + [':'] + name;
    assert "container:" + name + ":" + mode == c + [':'] + (name + ":" + mode);
  }

  /** resolveServiceReferences */
  method ResolveServiceReferences(observed: Observed, h: Hashed) returns (r: Result<Hashed, Failure>)
    ensures r.Ok? ==> Resolves(observed, h, r.value)
    ensures r.Err? ==> Unresolvable(observed, h, r.error)
    ensures r.Err? <==> exists f :: Unresolvable(observed, h, f)
  {
    var volumesFrom := ResolveVolumesFrom(observed, h);
    if volumesFrom.Err? {
      return Err(volumesFrom.error);
    }
    var networkMode := ResolveMode(observed, h.networkMode);
    if networkMode.Err? {
      assert Unresolvable(observed, h, networkMode.error);
      return Err(networkMode.error);
    }
    var ipc := ResolveMode(observed, h.ipc);
    if ipc.Err? {
      assert Unresolvable(observed, h, ipc.error);
      return Err(ipc.error);
    }
    var pid := ResolveMode(observed, h.pid);
    if pid.Err? {
      assert Unresolvable(observed, h, pid.error);
      return Err(pid.error);
    }
    r := Ok(h.(volumesFrom := volumesFrom.value, networkMode := networkMode.value,
               ipc := ipc.value, pid := pid.value));
    forall f ensures !Unresolvable(observed, h, f) {
      ResolvedIsResolvable(observed, h, r.value, f);
    }
  }

  lemma ResolvedIsResolvable(observed: Observed, h: Hashed, r: Hashed, f: Failure)
    requires Resolves(observed, h, r)
    ensures !Unresolvable(observed, h, f)
  {
    forall i | 0 <= i < |h.volumesFrom| ensures VolumeResolves(observed, h.volumesFrom[i], r.volumesFrom[i]) {
    }
  }
}
