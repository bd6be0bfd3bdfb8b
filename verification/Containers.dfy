/** Services, containers and the decision to recreate a container
    (pkg/compose/convergence.go, pkg/compose/hash.go). */
module Containers {
  import opened Wrappers
  import opened Digraphs
  import opened Texts

  datatype ContainerState = Running | Created | Restarting | Exited | Other | Unreported

  /** What the engine reports about a container of the project. */
  datatype Container = Container(
    id: string,
    name: string,            // canonical name
    service: Name,
    numberLabel: string,     // "" if the label is missing
    configHash: string,
    imageDigest: string,
    state: ContainerState,
    networks: set<string>,   // IDs of the networks it is attached to
    volumes: set<string>,    // names of the volumes mounted into it
    created: int)
  {
    /** strconv.Atoi of the number label. */
    function Number(): Option<int> {
      Atoi(numberLabel)
    }
  }

  /** A mount of a service: only mounts of type volume with a source count. */
  datatype Mount = Mount(isVolume: bool, source: string)

  /** The attributes of a service that convergence looks at, and all others. */
  datatype Hashed = Hashed(
    containerName: string,
    volumesFrom: seq<string>,
    networkMode: string,
    ipc: string,
    pid: string,
    networks: set<string>,
    mounts: seq<Mount>,
    labelDigest: Option<string>,   // an image digest label set by the user
    labelNumber: Option<string>,   // a number label set by the user
    settings: string)              // all other attributes

  /** A service. The scale is that of the service or of its deploy section. */
  datatype Service = Service(
    name: Name,
    hashed: Hashed,
    scale: nat,
    dependsOn: set<Name>,
    build: string,
    pullPolicy: string,
    profiles: seq<string>,
    provider: bool,
    digest: Option<string>)        // the image digest in CustomLabels, which JSON omits

  datatype Policy = RecreateNever | RecreateForce | RecreateDiverged

  /** Marshalling, which may fail, with the digest of its result; and the
      identifiers of the networks and volumes that were set up. */
  datatype Env = Env(
    hash: Service -> Option<string>,
    networks: Option<map<string, string>>,
    volumes: Option<map<string, string>>)

  /** What is hashed: some fields are erased, and JSON omits CustomLabels. */
  function Erased(s: Service): Service {
    s.(build := "", pullPolicy := "", scale := 0, dependsOn := {}, profiles := [], digest := None)
  }

  function ServiceHash(env: Env, s: Service): Option<string> {
    env.hash(Erased(s))
  }

  /** A Go map lookup: a missing key reads as the empty string. */
  function Lookup(m: map<string, string>, key: string): string {
    if key in m then m[key] else ""
  }

  /** A network of the service that the container should be attached to and is
      not. Swarm networks are invisible until a container is attached. */
  ghost predicate MissesNetwork(s: Service, c: Container, networks: map<string, string>) {
    exists n <- s.hashed.networks :: Lookup(networks, n) != "swarm" && Lookup(networks, n) !in c.networks
  }

  ghost predicate MissesVolume(s: Service, c: Container, volumes: map<string, string>) {
    exists m <- s.hashed.mounts :: m.isVolume && m.source != "" && Lookup(volumes, m.source) !in c.volumes
  }

  function Digest(s: Service): string {
    match s.digest case Some(d) => d case None => ""
  }

  /** The container no longer matches its service. */
  ghost predicate Diverged(env: Env, s: Service, c: Container, hash: string) {
    || c.configHash != hash
    || c.imageDigest != Digest(s)
    || (env.networks.Some? && c.state == Running && MissesNetwork(s, c, env.networks.value))
    || (env.volumes.Some? && MissesVolume(s, c, env.volumes.value))
  }

  /** mustRecreate as a value; None stands for the error of ServiceHash. */
  ghost function MustRecreate(env: Env, s: Service, c: Container, policy: Policy): Option<bool> {
    match policy
    case RecreateNever => Some(false)
    case RecreateForce => Some(true)
    case RecreateDiverged =>
      match ServiceHash(env, s)
      case None => None
      case Some(hash) => Some(Diverged(env, s, c, hash))
  }

  method CheckExpectedNetworks(s: Service, c: Container, networks: map<string, string>) returns (misses: bool)
    ensures misses == MissesNetwork(s, c, networks)
  {
    var todo := s.hashed.networks;
    while todo != {}
      invariant todo <= s.hashed.networks
      invariant forall n <- s.hashed.networks - todo ::
                  Lookup(networks, n) == "swarm" || Lookup(networks, n) in c.networks
    {
      var net :| net in todo;
      todo := todo - {net};
      var id := Lookup(networks, net);
      if id == "swarm" {
        continue;
      }
      if id !in c.networks {
        return true;
      }
    }
    return false;
  }

  method CheckExpectedVolumes(s: Service, c: Container, volumes: map<string, string>) returns (misses: bool)
    ensures misses == MissesVolume(s, c, volumes)
  {
    for i := 0 to |s.hashed.mounts|
      invariant forall m <- s.hashed.mounts[..i] :: m.isVolume && m.source != "" ==>
                  Lookup(volumes, m.source) in c.volumes
    {
      var vol := s.hashed.mounts[i];
      assert s.hashed.mounts[..i + 1] == s.hashed.mounts[..i] + [vol];
      if !vol.isVolume || vol.source == "" {
        continue;
      }
      if Lookup(volumes, vol.source) !in c.volumes {
        return true;
      }
    }
    assert s.hashed.mounts[..|s.hashed.mounts|] == s.hashed.mounts;
    return false;
  }

  method DecideRecreate(env: Env, s: Service, c: Container, policy: Policy) returns (must: Option<bool>)
    ensures must == MustRecreate(env, s, c, policy)
  {
    if policy.RecreateNever? {
      return Some(false);
    }
    if policy.RecreateForce? {
      return Some(true);
    }
    var hash := ServiceHash(env, s);
    if hash.None? {
      return None;
    }
    if c.configHash != hash.value || c.imageDigest != Digest(s) {
      return Some(true);
    }
    if env.networks.Some? && c.state == Running {
      var misses := CheckExpectedNetworks(s, c, env.networks.value);
      if misses {
        return Some(true);
      }
    }
    if env.volumes.Some? {
      var misses := CheckExpectedVolumes(s, c, env.volumes.value);
      if misses {
        return Some(true);
      }
    }
    return Some(false);
  }

  /** If different marshalled services have different hashes, a container made for
      s and equipped as t asks is recreated for t exactly if t differs from s in
      more than scale, dependencies, build section, pull policy and profiles. */
  lemma RecreatedIffChanged(env: Env, s: Service, t: Service, c: Container)
    requires forall x, y | env.hash(x).Some? && env.hash(x) == env.hash(y) :: x == y
    requires ServiceHash(env, s) == Some(c.configHash) && ServiceHash(env, t).Some? && c.imageDigest == Digest(s)
    requires env.networks.Some? ==> !MissesNetwork(t, c, env.networks.value)
    requires env.volumes.Some? ==> !MissesVolume(t, c, env.volumes.value)
    ensures var same := s.(scale := t.scale, dependsOn := t.dependsOn, build := t.build, pullPolicy := t.pullPolicy,
                           profiles := t.profiles, digest := t.digest);
            MustRecreate(env, t, c, RecreateDiverged) == Some(t != same || Digest(s) != Digest(t))
  {
    assert Erased(s) == Erased(t) <==>
           t == s.(scale := t.scale, dependsOn := t.dependsOn, build := t.build, pullPolicy := t.pullPolicy,
                   profiles := t.profiles, digest := t.digest);
  }

  /** The error if a custom container name meets a scale above one. */
  function GetScale(s: Service): Option<nat> {
    if s.scale > 1 && s.hashed.containerName != "" then None else Some(s.scale)
  }

  function DefaultName(project: string, service: Name, number: int): string {
    project + "-" + service + "-" + Itoa(number)
  }

  function ContainerName(project: string, s: Service, number: int): string {
    if s.hashed.containerName != "" then s.hashed.containerName else DefaultName(project, s.name, number)
  }

  /** Replicas with different numbers have different default names. */
  lemma DefaultNamesDiffer(project: string, service: Name, m: int, n: int)
    ensures DefaultName(project, service, m) == DefaultName(project, service, n) ==> m == n
  {
    var prefix := project + "-" + service + "-";
    assert DefaultName(project, service, m)[|prefix|..] == Itoa(m);
    assert DefaultName(project, service, n)[|prefix|..] == Itoa(n);
    AtoiItoa(m);
    AtoiItoa(n);
  }

  /** The default name is read back by splitting it, if nothing in it but the
      separators is a dash; a name given in the project is taken as it is. */
  lemma NameParts(project: string, s: Service, n: nat)
    requires '-' !in project && '-' !in s.name
    ensures s.hashed.containerName == "" ==> Split(ContainerName(project, s, n), '-') == [project, s.name, Itoa(n)]
    ensures s.hashed.containerName != "" ==> ContainerName(project, s, n) == s.hashed.containerName
  {
    var parts := [project, s.name, Itoa(n)];
    assert forall c <- Itoa(n) :: IsDigit(c);
    SplitJoin(parts, '-');
    assert parts[1..] == [s.name, Itoa(n)] && parts[1..][1..] == [Itoa(n)];
    assert Join(parts[1..], '-') == s.name + "-" + Itoa(n);
    assert Join(parts, '-') == project + "-" + (s.name + "-" + Itoa(n));
    assert DefaultName(project, s.name, n) == project + "-" + (s.name + "-" + Itoa(n));
  }

  ghost predicate AllNumbered(cs: seq<Container>) {
    forall c <- cs :: c.Number().Some?
  }

  /** nextContainerNumber: one above the highest number, and at least one;
      labels that are not numbers do not count. */
  method NextContainerNumber(cs: seq<Container>) returns (next: int)
    ensures next >= 1
    ensures forall c <- cs :: c.Number().Some? ==> c.Number().value < next
    ensures next == 1 || exists c <- cs :: c.Number() == Some(next - 1)
  {
    var maxNumber := 0;
    for i := 0 to |cs|
      invariant maxNumber >= 0
      invariant forall c <- cs[..i] :: c.Number().Some? ==> c.Number().value <= maxNumber
      invariant maxNumber == 0 || exists c <- cs[..i] :: c.Number() == Some(maxNumber)
    {
      assert cs[..i + 1] == cs[..i] + [cs[i]];
      match cs[i].Number() {
        case None => continue;
        case Some(n) =>
          if n > maxNumber {
            maxNumber := n;
            assert cs[..i + 1][i].Number() == Some(maxNumber);
          }
      }
    }
    assert cs[..|cs|] == cs;
    next := maxNumber + 1;
  }
}
