/** What each policy makes of the containers of a service
    (pkg/compose/convergence.go:329-359), in terms of what the engine reports. */
module Policies {
  import opened Wrappers
  import opened Containers
  import opened ReplicaOrder
  import opened Engines
  import opened Convergence
  import opened Replicas

  /** RecreateNever leaves every container alone that is not scaled away; and
      then the highest numbers go. */
  lemma NeverKeeps(env: Env, s: Service, observed: seq<Container>, updated: seq<Container>)
    requires Converged(env, s, RecreateNever, observed, updated)
    ensures |updated| == s.scale
    ensures if |observed| <= s.scale then multiset(observed) <= multiset(updated)
            else multiset(updated) <= multiset(observed)
    ensures Numbered(observed) && |observed| > s.scale ==>
              forall kept, gone | kept in observed && kept in updated && gone in observed && gone !in updated ::
                gone.Number().value > kept.Number().value
  {
    var cs: seq<Container>, next: int :| Converges(env, s, RecreateNever, observed, cs, next, updated);
    SameMembers(observed, cs);
    var n := if |cs| <= s.scale then |cs| else s.scale;
    forall i | 0 <= i < n ensures updated[i] == cs[i] {
      assert Settled(env, s, RecreateNever, cs, next, i, updated[i]);
    }
    SharePrefix(cs, updated, n);
    hide Settled, Less, Obsolete, Container.Number;
    if Numbered(observed) && |observed| > s.scale {
      NumberedPermutes(observed, cs);
      forall kept, gone | kept in observed && kept in updated && gone in observed && gone !in updated
        ensures gone.Number().value > kept.Number().value
      {
        NeverScalesDown(env, s, observed, cs, updated, kept, gone);
      }
    }
  }

  /** Without number labels the oldest go. */
  lemma NeverKeepsNewest(env: Env, s: Service, observed: seq<Container>, updated: seq<Container>,
                         kept: Container, gone: Container)
    requires Converged(env, s, RecreateNever, observed, updated) && |observed| > s.scale
    requires forall c <- observed :: c.numberLabel == ""
    requires kept in updated && gone in observed && gone !in updated
    ensures gone.created <= kept.created
  {
    var cs: seq<Container>, next: int :| Converges(env, s, RecreateNever, observed, cs, next, updated);
    SameMembers(observed, cs);
    forall i | 0 <= i < s.scale ensures updated[i] == cs[i] {
      assert Settled(env, s, RecreateNever, cs, next, i, updated[i]);
    }
    assert updated == cs[..s.scale];
    Prefixed(cs, s.scale);
    var i := IndexOf(updated, kept);
    var j := IndexOf(cs, gone);
    assert LabelsOf(observed) == Missing by {
      assert gone.Number().None?;
    }
    assert Before(env, s, RecreateNever, Missing, cs[j], cs[i]);
  }

  lemma SharePrefix(cs: seq<Container>, ds: seq<Container>, n: nat)
    requires n <= |cs| && n <= |ds| && forall i :: 0 <= i < n ==> ds[i] == cs[i]
    ensures ds[..n] == cs[..n]
    ensures n == |cs| ==> multiset(cs) <= multiset(ds)
    ensures n == |ds| ==> multiset(ds) <= multiset(cs)
  {
    assert ds[..n] == cs[..n];
    assert cs == cs[..n] + cs[n..] && ds == ds[..n] + ds[n..];
  }

  lemma NeverScalesDown(env: Env, s: Service, observed: seq<Container>, cs: seq<Container>, updated: seq<Container>,
                        kept: Container, gone: Container)
    requires Numbered(cs) && Arranged(env, s, RecreateNever, Numeric, cs) && |cs| > s.scale && updated == cs[..s.scale]
    requires kept in updated && gone in cs && gone !in updated
    ensures gone.Number().value > kept.Number().value
  {
    Prefixed(cs, s.scale);
    var i := IndexOf(updated, kept);
    var j := IndexOf(cs, gone);
    assert Before(env, s, RecreateNever, Numeric, cs[j], cs[i]) && cs[i].Number() != cs[j].Number();
  }

  /** RecreateForce leaves none of them. */
  lemma ForceReplaces(env: Env, s: Service, observed: seq<Container>, updated: seq<Container>)
    requires Converged(env, s, RecreateForce, observed, updated)
    ensures Ids(updated) !! Ids(observed)
  {
    var cs: seq<Container>, next: int :| Converges(env, s, RecreateForce, observed, cs, next, updated);
    SameMembers(observed, cs);
    forall u <- updated ensures u.id !in Ids(observed) {
      var i := IndexOf(updated, u);
      assert Settled(env, s, RecreateForce, cs, next, i, updated[i]);
    }
  }

  /** The identifier that a network or volume has, if it is known. */
  function IdentifierOf(m: map<string, string>, key: string): string {
    if key in m then m[key] else ""
  }

  /** The container is as the service asks. */
  ghost predicate UpToDate(env: Env, s: Service, c: Container) {
    && env.hash(s.(build := "", pullPolicy := "", scale := 0, dependsOn := {}, profiles := [], digest := None))
       == Some(c.configHash)
    && c.imageDigest == (match s.digest case Some(d) => d case None => "")
    && (env.networks.Some? && c.state == Running ==>
          forall n <- s.hashed.networks ::
            IdentifierOf(env.networks.value, n) in c.networks + {"swarm"})
    && (env.volumes.Some? ==>
          forall m <- s.hashed.mounts | m.isVolume && m.source != "" ::
            IdentifierOf(env.volumes.value, m.source) in c.volumes)
  }

  /** RecreateDiverged keeps, of those that are not scaled away, exactly the
      containers that are as the service asks: hash, digest, and the networks if it
      runs, and the volumes; the others are replaced. */
  lemma DivergedKeepsIff(env: Env, s: Service, observed: seq<Container>, updated: seq<Container>, c: Container)
    requires Converged(env, s, RecreateDiverged, observed, updated)
    requires UniqueIds(observed) && c in observed && |observed| <= s.scale
    ensures c in updated <==> UpToDate(env, s, c)
    ensures c !in updated ==> c.id !in Ids(updated)
  {
    var cs: seq<Container>, next: int :| Converges(env, s, RecreateDiverged, observed, cs, next, updated);
    SameMembers(observed, cs);
    var i := IndexOf(cs, c);
    assert Settled(env, s, RecreateDiverged, cs, next, i, updated[i]);
    DivergedIff(env, s, c);
    assert c.id in Ids(cs);
    forall j | 0 <= j < |updated| && j != i ensures updated[j].id != c.id {
      assert Settled(env, s, RecreateDiverged, cs, next, j, updated[j]);
      if j < |cs| {
        DistinctAt(cs, i, j);
      }
    }
  }

  lemma DistinctAt(cs: seq<Container>, i: nat, j: nat)
    requires UniqueIds(cs) && i < |cs| && j < |cs| && i != j
    ensures cs[i].id != cs[j].id
  {
  }

  lemma DivergedIff(env: Env, s: Service, c: Container)
    ensures MustRecreate(env, s, c, RecreateDiverged) == Some(false) <==> UpToDate(env, s, c)
  {
    forall n <- s.hashed.networks
      ensures env.networks.Some? ==> IdentifierOf(env.networks.value, n) == Lookup(env.networks.value, n)
    {
    }
  }

  /** A round that has a container to keep ends without error under this policy
      only if the service can be hashed. */
  lemma DivergedNeedsHash(env: Env, s: Service, observed: seq<Container>, updated: seq<Container>)
    requires Converged(env, s, RecreateDiverged, observed, updated) && observed != [] && s.scale > 0
    ensures env.hash(s.(build := "", pullPolicy := "", scale := 0, dependsOn := {}, profiles := [],
                        digest := None)).Some?
  {
    var cs: seq<Container>, next: int :| Converges(env, s, RecreateDiverged, observed, cs, next, updated);
    SameMembers(observed, cs);
    assert Settled(env, s, RecreateDiverged, cs, next, 0, updated[0]);
  }

  // ---- new containers ----

  /** Whatever the policy, new replicas get the numbers that follow on the highest
      one, in order; from nothing, they are numbered from one. */
  lemma ScaleUpNumbers(env: Env, s: Service, policy: Policy, observed: seq<Container>, updated: seq<Container>)
    returns (next: int)
    requires Converged(env, s, policy, observed, updated)
    ensures next >= 1 && forall c <- observed :: c.Number().Some? ==> c.Number().value < next
    ensures next == 1 || exists c <- observed :: c.Number() == Some(next - 1)
    ensures forall i :: |observed| <= i < |updated| ==> updated[i].Number() == Some(next + i - |observed|)
  {
    hide Container.Number, Settled;
    var cs: seq<Container>;
    cs, next :| Converges(env, s, policy, observed, cs, next, updated);
    SameMembers(observed, cs);
    forall i | |observed| <= i < |updated| ensures updated[i].Number() == Some(next + i - |observed|) {
      FreshNumber(env, s, policy, cs, next, i, updated[i]);
    }
  }

  lemma FreshNumber(env: Env, s: Service, policy: Policy, cs: seq<Container>, next: int, i: nat, u: Container)
    requires Settled(env, s, policy, cs, next, i, u) && i >= |cs| && next >= 1
    ensures u.Number() == Some(next + i - |cs|)
  {
    CreatedNumberIff(env, s, next + i - |cs|, u);
  }

  /** Whatever was not there before belongs to the service and carries its hash and
      the digest of its image. */
  lemma CreatedAsAsked(env: Env, s: Service, policy: Policy, observed: seq<Container>, updated: seq<Container>)
    requires Converged(env, s, policy, observed, updated)
    ensures forall u <- updated | u !in observed ::
              && u.service == s.name && u.id !in Ids(observed)
              && env.hash(s.(build := "", pullPolicy := "", scale := 0, dependsOn := {}, profiles := [],
                             digest := None)) == Some(u.configHash)
              && (s.digest.Some? ==> u.imageDigest == s.digest.value)
              && (s.digest.None? && s.hashed.labelDigest.None? ==> u.imageDigest == "")
  {
    var cs: seq<Container>, next: int :| Converges(env, s, policy, observed, cs, next, updated);
    SameMembers(observed, cs);
    forall i | 0 <= i < |updated| ensures updated[i] in observed || (CreatedByRound(env, s, updated[i]) &&
                                                                     updated[i].id !in Ids(cs)) {
      SettledIsCreated(env, s, policy, cs, next, i, updated[i]);
    }
  }

  ghost predicate CreatedByRound(env: Env, s: Service, u: Container) {
    exists number :: CreatedFor(env, s, number, u)
  }

  lemma SettledIsCreated(env: Env, s: Service, policy: Policy, cs: seq<Container>, next: int, i: nat, u: Container)
    requires Settled(env, s, policy, cs, next, i, u)
    ensures u in cs || (CreatedByRound(env, s, u) && u.id !in Ids(cs))
  {
    if i >= |cs| {
      assert CreatedFor(env, s, next + i - |cs|, u);
    } else if u != cs[i] {
      assert CreatedFor(env, s, cs[i].Number().value, u);
    }
  }

  /** Through any round, the replicas remain those of their service. */
  lemma RoundKeepsService(env: Env, r: Request, before: seq<Container>, after: seq<Container>)
    requires Round(env, r, before, after) && forall c <- before :: c.service == r.service.name
    ensures forall c <- after :: c.service == r.service.name
  {
    var updated: seq<Container> :| Converged(env, r.service, r.policy, before, updated) && Relisted(updated, after);
    CreatedAsAsked(env, r.service, r.policy, before, updated);
    forall c <- after ensures c.service == r.service.name {
      var u := Origin(updated, after, c);
    }
  }
}
