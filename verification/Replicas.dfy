/** What error-free convergence guarantees about the replicas of a service, over
    any number of rounds with changing scale, configuration and policy. */
module Replicas {
  import opened Wrappers
  import opened Texts
  import opened Containers
  import opened ReplicaOrder
  import opened Engines
  import opened Convergence

  /** Every replica has a number of its own. */
  ghost predicate Numbered(cs: seq<Container>) {
    && AllNumbered(cs)
    && forall i, j :: 0 <= i < j < |cs| ==> cs[i].Number() != cs[j].Number()
  }

  lemma NumberedPermutes(cs: seq<Container>, ds: seq<Container>)
    requires multiset(cs) == multiset(ds) && Numbered(cs)
    ensures Numbered(ds) && UniqueNumbers(multiset(ds))
  {
    SameMembers(cs, ds);
    forall c <- multiset(cs) ensures multiset(cs)[c] == 1 {
      OncePerNumber(cs, c);
    }
    forall c, d | c in multiset(cs) && d in multiset(cs) && c != d ensures c.Number() != d.Number() {
      var i := IndexOf(cs, c);
      var j := IndexOf(cs, d);
      if i < j {
        assert cs[i].Number() != cs[j].Number();
      } else {
        assert cs[j].Number() != cs[i].Number();
      }
    }
    forall i, j | 0 <= i < j < |ds| ensures ds[i].Number() != ds[j].Number() {
      assert ds[i] in multiset(ds) && ds[j] in multiset(ds);
      OnceOnly(ds, i, j);
    }
  }

  lemma {:induction false} OncePerNumber(cs: seq<Container>, c: Container)
    requires Numbered(cs)
    ensures multiset(cs)[c] <= 1
  {
    if cs != [] {
      var n := |cs| - 1;
      assert cs == cs[..n] + [cs[n]];
      OncePerNumber(cs[..n], c);
      if cs[n] == c {
        assert c !in cs[..n];
      }
    }
  }

  /** The number that slot i gets. */
  function SlotNumber(cs: seq<Container>, next: int, i: nat): Option<int> {
    if i < |cs| then cs[i].Number() else Some(next + i - |cs|)
  }

  /** A container created under number n is found to have it: a number that is
      not positive is only a label if the user has set the same. */
  predicate Lasts(s: Service, n: int) {
    n > 0 || (s.hashed.labelNumber.Some? && Atoi(s.hashed.labelNumber.value) == Some(n))
  }

  /** The number labels survive a recreation. */
  ghost predicate Lasting(env: Env, s: Service, policy: Policy, cs: seq<Container>) {
    forall c <- cs :: Obsolete(env, s, policy, c) && c.Number().Some? ==> Lasts(s, c.Number().value)
  }

  ghost predicate Positive(cs: seq<Container>) {
    forall c <- cs :: c.Number().Some? ==> c.Number().value > 0
  }

  lemma CreatedNumberIff(env: Env, s: Service, n: int, u: Container)
    requires CreatedFor(env, s, n, u)
    ensures u.Number() == Some(n) <==> Lasts(s, n)
  {
    AtoiItoa(n);
  }

  /** An obsolete container is replaced by one with the same number if and only
      if that number is positive, or is the user's own number label. */
  lemma RecreatedKeepsNumberIff(env: Env, s: Service, policy: Policy, cs: seq<Container>, next: int, i: nat,
                                u: Container)
    requires Settled(env, s, policy, cs, next, i, u) && i < |cs| && Obsolete(env, s, policy, cs[i])
    ensures cs[i].Number().Some?
    ensures u.Number() == cs[i].Number() <==>
              cs[i].Number().value > 0 ||
              (s.hashed.labelNumber.Some? && Atoi(s.hashed.labelNumber.value) == cs[i].Number())
  {
    CreatedNumberIff(env, s, cs[i].Number().value, u);
  }

  /** One round gives every slot its number if and only if it recreates only
      replicas whose number lasts. */
  lemma SlotsKeepNumbersIff(env: Env, s: Service, policy: Policy, observed: seq<Container>, cs: seq<Container>,
                            next: int, updated: seq<Container>)
    requires Converges(env, s, policy, observed, cs, next, updated)
    ensures (forall i :: 0 <= i < |updated| ==> updated[i].Number() == SlotNumber(cs, next, i)) <==>
            (forall i :: 0 <= i < |updated| && i < |cs| && Obsolete(env, s, policy, cs[i]) ==>
               cs[i].Number().Some? && Lasts(s, cs[i].Number().value))
  {
    forall i | 0 <= i < |updated|
      ensures updated[i].Number() == SlotNumber(cs, next, i) <==>
              (i < |cs| && Obsolete(env, s, policy, cs[i]) ==>
                 cs[i].Number().Some? && Lasts(s, cs[i].Number().value))
    {
      SettledNumberIff(env, s, policy, cs, next, i, updated[i]);
    }
  }

  lemma SettledNumberIff(env: Env, s: Service, policy: Policy, cs: seq<Container>, next: int, i: nat, u: Container)
    requires Settled(env, s, policy, cs, next, i, u) && next >= 1
    ensures u.Number() == SlotNumber(cs, next, i) <==>
            (i < |cs| && Obsolete(env, s, policy, cs[i]) ==> cs[i].Number().Some? && Lasts(s, cs[i].Number().value))
  {
    if i >= |cs| {
      CreatedNumberIff(env, s, next + i - |cs|, u);
    } else if Obsolete(env, s, policy, cs[i]) {
      RecreatedKeepsNumberIff(env, s, policy, cs, next, i, u);
    }
  }

  lemma SlotsKeepNumbers(env: Env, s: Service, policy: Policy, observed: seq<Container>, cs: seq<Container>,
                         next: int, updated: seq<Container>)
    requires Converges(env, s, policy, observed, cs, next, updated)
    requires Numbered(observed) && Lasting(env, s, policy, observed)
    ensures forall i :: 0 <= i < |updated| ==> updated[i].Number() == SlotNumber(cs, next, i)
  {
    SlotsKeepNumbersIff(env, s, policy, observed, cs, next, updated);
    SameMembers(observed, cs);
    forall i | 0 <= i < |cs| && Obsolete(env, s, policy, cs[i])
      ensures cs[i].Number().Some? && Lasts(s, cs[i].Number().value)
    {
      assert cs[i] in observed;
    }
  }

  /** A replica without a number is never recreated without error. */
  lemma RecreatedIsNumbered(env: Env, s: Service, policy: Policy, observed: seq<Container>, updated: seq<Container>,
                            c: Container)
    requires Converged(env, s, policy, observed, updated)
    requires c in observed && Obsolete(env, s, policy, c) && |observed| <= s.scale
    ensures c.Number().Some?
  {
    var cs: seq<Container>, next: int :| Converges(env, s, policy, observed, cs, next, updated);
    SameMembers(observed, cs);
    var i := IndexOf(cs, c);
    assert Settled(env, s, policy, cs, next, i, updated[i]);
  }

  /** Unless the user labels the service, a number that is not positive is lost
      when its replica is recreated, and what takes its place can never be
      recreated. */
  lemma NonPositiveIsLost(env: Env, s: Service, observed: seq<Container>, c: Container, updated: seq<Container>,
                          after: seq<Container>, updated': seq<Container>)
    requires c in observed && c.Number().Some? && c.Number().value <= 0
    requires s.hashed.labelNumber.None? && |observed| <= s.scale
    requires Converged(env, s, RecreateForce, observed, updated) && Relisted(updated, after)
    ensures !AllNumbered(after) && !Converged(env, s, RecreateForce, after, updated')
  {
    var cs: seq<Container>, next: int :| Converges(env, s, RecreateForce, observed, cs, next, updated);
    SameMembers(observed, cs);
    var i := IndexOf(cs, c);
    RecreatedKeepsNumberIff(env, s, RecreateForce, cs, next, i, updated[i]);
    var d := Relisting(updated, after, updated[i]);
    assert d.numberLabel == "" && d.Number().None?;
    RelistedIds(updated, after);
    if Converged(env, s, RecreateForce, after, updated') {
      RecreatedIsNumbered(env, s, RecreateForce, after, updated', d);
    }
  }

  /** For instance a replica labelled zero. */
  lemma ZeroIsLost(env: Env, s: Service, c: Container, updated: seq<Container>, after: seq<Container>,
                   updated': seq<Container>)
    requires c.numberLabel == "0" && s.hashed.labelNumber.None? && s.scale >= 1
    requires Converged(env, s, RecreateForce, [c], updated) && Relisted(updated, after)
    ensures Numbered([c]) && !Numbered(after) && !Converged(env, s, RecreateForce, after, updated')
  {
    assert "0"[..0] == "" && c.Number() == Some(0);
    NonPositiveIsLost(env, s, [c], c, updated, after, updated');
  }

  /** u is an observed replica, or has replaced an obsolete one under its number,
      or has a number above all. */
  ghost predicate Descends(env: Env, s: Service, policy: Policy, observed: seq<Container>, u: Container) {
    || u in observed
    || (exists c <- observed :: Obsolete(env, s, policy, c) && u.Number() == c.Number() && u.id != c.id)
    || (u.Number().Some? && forall c <- observed :: c.Number().Some? ==> c.Number().value < u.Number().value)
  }

  /** One round: exactly the desired number of replicas results, each with a
      rightful and distinct number, and so with distinct default names. */
  lemma RoundKeepsNumbers(env: Env, project: string, s: Service, policy: Policy,
                          observed: seq<Container>, updated: seq<Container>)
    requires Converged(env, s, policy, observed, updated) && Numbered(observed)
    requires Lasting(env, s, policy, observed)
    ensures |updated| == s.scale && Numbered(updated) && (Positive(observed) ==> Positive(updated))
    ensures forall u <- updated :: Descends(env, s, policy, observed, u)
    ensures forall i, j :: 0 <= i < j < |updated| ==>
              DefaultName(project, s.name, updated[i].Number().value) !=
              DefaultName(project, s.name, updated[j].Number().value)
  {
    var cs: seq<Container>, next: int :| Converges(env, s, policy, observed, cs, next, updated);
    NumberedPermutes(observed, cs);
    SlotsKeepNumbers(env, s, policy, observed, cs, next, updated);
    SlotsDescend(env, s, policy, observed, cs, next, updated);
    SlotsPositive(observed, cs, next, updated);
    assert |updated| == s.scale;
    hide Converges, Lasting, Descends, DefaultName, SlotNumber, IsNext, Positive;
    SlotNumbersDiffer(observed, cs, next, updated);
    forall i, j | 0 <= i < j < |updated|
      ensures DefaultName(project, s.name, updated[i].Number().value) !=
              DefaultName(project, s.name, updated[j].Number().value)
    {
      DefaultNamesDiffer(project, s.name, updated[i].Number().value, updated[j].Number().value);
    }
  }

  lemma SlotsDescend(env: Env, s: Service, policy: Policy, observed: seq<Container>, cs: seq<Container>,
                     next: int, updated: seq<Container>)
    requires Converges(env, s, policy, observed, cs, next, updated)
    requires forall i :: 0 <= i < |updated| ==> updated[i].Number() == SlotNumber(cs, next, i)
    ensures forall u <- updated :: Descends(env, s, policy, observed, u)
  {
    SameMembers(observed, cs);
    forall i | 0 <= i < |updated| ensures Descends(env, s, policy, observed, updated[i]) {
      SettledDescends(env, s, policy, observed, cs, next, i, updated[i]);
    }
  }

  lemma SettledDescends(env: Env, s: Service, policy: Policy, observed: seq<Container>, cs: seq<Container>, next: int,
                        i: nat, u: Container)
    requires Settled(env, s, policy, cs, next, i, u) && IsNext(observed, next)
    requires u.Number() == SlotNumber(cs, next, i)
    requires forall c :: c in cs <==> c in observed
    ensures Descends(env, s, policy, observed, u)
  {
    if i < |cs| {
      assert cs[i] in observed && cs[i].id in Ids(cs);
    }
  }

  lemma SlotsPositive(observed: seq<Container>, cs: seq<Container>, next: int, updated: seq<Container>)
    requires multiset(cs) == multiset(observed) && next >= 1
    requires forall i :: 0 <= i < |updated| ==> updated[i].Number() == SlotNumber(cs, next, i)
    ensures Positive(observed) ==> Positive(updated)
  {
    SameMembers(cs, observed);
    assert forall i :: 0 <= i < |cs| ==> cs[i] in observed;
  }

  lemma SlotNumbersDiffer(observed: seq<Container>, cs: seq<Container>, next: int, updated: seq<Container>)
    requires multiset(cs) == multiset(observed) && Numbered(cs) && IsNext(observed, next)
    requires forall i :: 0 <= i < |updated| ==> updated[i].Number() == SlotNumber(cs, next, i)
    ensures Numbered(updated)
  {
    SameMembers(cs, observed);
    forall i | 0 <= i < |cs| ensures cs[i].Number().Some? && cs[i].Number().value < next {
      assert cs[i] in observed;
    }
  }

  /** A replica with the number of c goes on existing. */
  predicate Carried(c: Container, updated: seq<Container>) {
    exists u <- updated :: u.Number() == c.Number()
  }

  function Removed(observed: seq<Container>, updated: seq<Container>): set<Container> {
    set c <- observed | !Carried(c, updated)
  }

  /** Scaling down. Exactly the surplus is removed; no up-to-date replica goes
      while an obsolete one is carried on; and of the up-to-date replicas those
      with the highest numbers go. */
  lemma ScaleDown(env: Env, s: Service, policy: Policy, observed: seq<Container>, updated: seq<Container>)
    requires Converged(env, s, policy, observed, updated) && Numbered(observed)
    requires Lasting(env, s, policy, observed)
    ensures |Removed(observed, updated)| == if |observed| > s.scale then |observed| - s.scale else 0
    ensures forall gone, kept | gone in Removed(observed, updated) && kept in observed && Carried(kept, updated) ::
              && (Obsolete(env, s, policy, kept) ==> Obsolete(env, s, policy, gone))
              && (!Obsolete(env, s, policy, gone) ==> gone.Number().value > kept.Number().value)
  {
    var cs := CarriedPrefix(env, s, policy, observed, updated);
    NumberedPermutes(observed, cs);
    NumberedPermutes(cs, observed);
    SameMembers(observed, cs);
    var n := if |cs| > s.scale then s.scale else |cs|;
    NumberedSetSize(cs[n..]);
    hide Obsolete, Arranged, Numbered, AllNumbered, Carried, UniqueNumbers;
    if |cs| > s.scale {
      ScaleDownSelection(env, s, policy, observed, cs, s.scale);
    }
  }

  /** In the arranged order, the replicas carried on are the first ones. */
  lemma CarriedPrefix(env: Env, s: Service, policy: Policy, observed: seq<Container>, updated: seq<Container>)
    returns (cs: seq<Container>)
    requires Converged(env, s, policy, observed, updated) && Numbered(observed)
    requires Lasting(env, s, policy, observed)
    ensures multiset(cs) == multiset(observed) && Arranged(env, s, policy, LabelsOf(observed), cs)
    ensures var n := if |cs| > s.scale then s.scale else |cs|;
      && Removed(observed, updated) == (set c <- cs[n..])
      && forall c :: c in observed && Carried(c, updated) ==> c in cs[..n]
  {
    hide Container.Number, Settled, Obsolete, Arranged;
    var next: int;
    cs, next :| Converges(env, s, policy, observed, cs, next, updated);
    NumberedPermutes(observed, cs);
    SameMembers(observed, cs);
    SlotsKeepNumbers(env, s, policy, observed, cs, next, updated);
    forall i | 0 <= i < |cs| ensures Carried(cs[i], updated) <==> i < s.scale {
      assert cs[i] in observed;
      CarriedIff(cs, next, updated, i);
    }
    hide Converges, Numbered, Lasting, Carried, SlotNumber;
    CarriedFirst(observed, cs, updated, s.scale);
  }

  lemma CarriedFirst(observed: seq<Container>, cs: seq<Container>, updated: seq<Container>, scale: nat)
    requires forall c :: c in cs <==> c in observed
    requires forall i :: 0 <= i < |cs| ==> (Carried(cs[i], updated) <==> i < scale)
    ensures var n := if |cs| > scale then scale else |cs|;
      && Removed(observed, updated) == (set c <- cs[n..])
      && forall c :: c in observed && Carried(c, updated) ==> c in cs[..n]
  {
    hide Carried;
    var n := if |cs| > scale then scale else |cs|;
    Prefixed(cs, n);
    forall c ensures c in cs[n..] <==> c in observed && !Carried(c, updated) {
      if c in cs {
        var i := IndexOf(cs, c);
      }
    }
  }

  lemma Prefixed(cs: seq<Container>, n: nat)
    requires n <= |cs|
    ensures forall i :: 0 <= i < n ==> cs[i] in cs[..n]
    ensures forall i :: n <= i < |cs| ==> cs[i] in cs[n..]
  {
  }

  lemma CarriedIff(cs: seq<Container>, next: int, updated: seq<Container>, i: nat)
    requires Numbered(cs) && i < |cs| && cs[i].Number().value < next
    requires forall j :: 0 <= j < |updated| ==> updated[j].Number() == SlotNumber(cs, next, j)
    ensures Carried(cs[i], updated) <==> i < |updated|
  {
    if i < |updated| {
      assert updated[i] in updated;
    }
    if u :| u in updated && u.Number() == cs[i].Number() {
      var j :| 0 <= j < |updated| && updated[j] == u;
      assert SlotNumber(cs, next, j) == SlotNumber(cs, next, i);
    }
  }

  lemma {:induction false} NumberedSetSize(cs: seq<Container>)
    requires Numbered(cs)
    ensures |(set c <- cs)| == |cs|
  {
    hide Container.Number;
    if cs != [] {
      var n := |cs| - 1;
      NumberedSetSize(cs[..n]);
      assert cs[n] !in cs[..n];
      assert cs == cs[..n] + [cs[n]];
      OneMore(cs[..n], cs, cs[n]);
    }
  }

  lemma OneMore(cs: seq<Container>, ds: seq<Container>, d: Container)
    requires ds == cs + [d] && d !in cs
    ensures |(set c <- ds)| == |(set c <- cs)| + 1
  {
    assert (set c <- ds) == (set c <- cs) + {d};
  }

  // ---- many rounds ----

  /** A later listing of the containers: in another order, with other states,
      networks and mounts, under other names. */
  ghost predicate Relisted(cs: seq<Container>, ds: seq<Container>) {
    exists ms :: multiset(ms) == multiset(cs) && Relabelled(ms, ds)
  }

  ghost predicate Relabelled(ms: seq<Container>, ds: seq<Container>) {
    |ds| == |ms| && forall i :: 0 <= i < |ms| ==> SameLabels(ms[i], ds[i])
  }

  datatype Request = Request(service: Service, policy: Policy)

  /** An error-free ensureService followed by a listing. */
  ghost predicate Round(env: Env, r: Request, before: seq<Container>, after: seq<Container>) {
    exists updated :: Converged(env, r.service, r.policy, before, updated) && Relisted(updated, after)
  }

  ghost predicate Rounds(env: Env, requests: seq<Request>, states: seq<seq<Container>>) {
    && |states| == |requests| + 1
    && forall k :: 0 <= k < |requests| ==> Round(env, requests[k], states[k], states[k + 1])
  }

  lemma RelistedNumbers(cs: seq<Container>, ds: seq<Container>)
    requires Relisted(cs, ds) && Numbered(cs)
    ensures |ds| == |cs| && Numbered(ds) && (Positive(cs) ==> Positive(ds))
  {
    var ms: seq<Container> :| multiset(ms) == multiset(cs) && Relabelled(ms, ds);
    NumberedPermutes(cs, ms);
    SameMembers(cs, ms);
    RelabelledNumbers(ms, ds);
  }

  lemma RelabelledNumbers(ms: seq<Container>, ds: seq<Container>)
    requires Relabelled(ms, ds) && Numbered(ms)
    ensures Numbered(ds) && (Positive(ms) ==> Positive(ds))
  {
    forall i | 0 <= i < |ds| ensures ds[i].Number() == ms[i].Number() && ms[i].Number().Some? {
      assert SameLabels(ms[i], ds[i]) && ms[i] in ms;
    }
    hide SameLabels, Relabelled;
    forall d <- ds ensures d.Number().Some? && (Positive(ms) ==> d.Number().value > 0) {
      var i := IndexOf(ds, d);
      assert ms[i] in ms;
    }
  }

  lemma OneRound(env: Env, r: Request, before: seq<Container>, after: seq<Container>)
    requires Round(env, r, before, after) && Numbered(before) && Positive(before)
    ensures Numbered(after) && Positive(after) && |after| == r.service.scale
  {
    var updated: seq<Container> :| Converged(env, r.service, r.policy, before, updated) && Relisted(updated, after);
    RoundKeepsNumbers(env, "", r.service, r.policy, before, updated);
    RelistedNumbers(updated, after);
  }

  /** Over any sequence of rounds, whatever the scales, configurations and
      policies, positive numbers stay distinct and positive and every round
      yields its exact scale. */
  lemma {:induction false} RoundsKeepNumbers(env: Env, requests: seq<Request>, states: seq<seq<Container>>, k: nat)
    requires Rounds(env, requests, states) && Numbered(states[0]) && Positive(states[0]) && k < |states|
    ensures Numbered(states[k]) && Positive(states[k])
    ensures k > 0 ==> |states[k]| == requests[k - 1].service.scale
  {
    if k > 0 {
      RoundsKeepNumbers(env, requests, states, k - 1);
      var i := k - 1;
      assert Round(env, requests[i], states[i], states[i + 1]);
      OneRound(env, requests[i], states[i], states[k]);
    }
  }

  // ---- idempotence ----

  /** The engine attached what was requested. */
  ghost predicate Attached(env: Env, s: Service, c: Container) {
    && (env.networks.Some? && c.state == Running ==> !MissesNetwork(s, c, env.networks.value))
    && (env.volumes.Some? ==> !MissesVolume(s, c, env.volumes.value))
  }

  /** A container created for the service, and attached as requested, is found
      obsolete by the next round exactly if the user sets an image digest label
      on a service that has none in its CustomLabels. */
  lemma CreatedIsObsoleteIff(env: Env, s: Service, number: int, c: Container)
    requires CreatedFor(env, s, number, c) && Attached(env, s, c)
    ensures Obsolete(env, s, RecreateDiverged, c) <==>
              s.digest.None? && s.hashed.labelDigest.Some? && s.hashed.labelDigest.value != ""
  {
  }

  /** Idempotence. After an error-free round that recreates what has diverged (or
      everything), a second round for the same service creates, recreates and
      removes nothing, if the engine attached what was requested and the digest
      label is not one of the user's. */
  lemma SecondRoundChangesNothing(env: Env, s: Service, policy: Policy,
                                  before: seq<Container>, updated: seq<Container>,
                                  after: seq<Container>, updated': seq<Container>)
    requires Converged(env, s, policy, before, updated) && !policy.RecreateNever?
    requires Relisted(updated, after) && forall c <- after :: Attached(env, s, c)
    requires s.digest.Some? || s.hashed.labelDigest.None? || s.hashed.labelDigest.value == ""
    requires Converged(env, s, RecreateDiverged, after, updated')
    ensures multiset(updated') == multiset(after)
    ensures Ids(updated') == Ids(updated)
  {
    var cs: seq<Container>, next: int :| Converges(env, s, RecreateDiverged, after, cs, next, updated');
    SameMembers(cs, after);
    RelistedUpToDate(env, s, policy, before, updated, after);
    forall i | 0 <= i < |updated'| ensures updated'[i] == cs[i] {
      assert cs[i] in after;
      assert !Obsolete(env, s, RecreateDiverged, cs[i]);
    }
    assert updated' == cs;
  }

  lemma RelistedUpToDate(env: Env, s: Service, policy: Policy,
                         before: seq<Container>, updated: seq<Container>, after: seq<Container>)
    requires Converged(env, s, policy, before, updated) && !policy.RecreateNever?
    requires Relisted(updated, after) && forall c <- after :: Attached(env, s, c)
    requires LabelDigest(s) == Digest(s)
    ensures |after| == s.scale && Ids(after) == Ids(updated)
    ensures forall c <- after :: !Obsolete(env, s, RecreateDiverged, c)
  {
    var cs: seq<Container>, next: int :| Converges(env, s, policy, before, cs, next, updated);
    assert forall u <- updated :: exists i :: Settled(env, s, policy, cs, next, i, u);
    hide Converges, Settled, Attached, Obsolete, Relabelled;
    forall c <- after ensures !Obsolete(env, s, RecreateDiverged, c) {
      var u := Origin(updated, after, c);
      var i: nat :| Settled(env, s, policy, cs, next, i, u);
      SettledIsUpToDate(env, s, policy, cs, next, i, u, c);
    }
    RelistedIds(updated, after);
    SettledLength(env, s, policy, before, updated);
  }

  lemma SettledLength(env: Env, s: Service, policy: Policy, before: seq<Container>, updated: seq<Container>)
    requires Converged(env, s, policy, before, updated)
    ensures |updated| == s.scale
  {
  }

  lemma SettledIsUpToDate(env: Env, s: Service, policy: Policy, cs: seq<Container>, next: int, i: nat,
                          u: Container, c: Container)
    requires Settled(env, s, policy, cs, next, i, u) && !policy.RecreateNever?
    requires SameLabels(u, c) && Attached(env, s, c) && LabelDigest(s) == Digest(s)
    ensures !Obsolete(env, s, RecreateDiverged, c)
  {
  }

  lemma Origin(updated: seq<Container>, after: seq<Container>, c: Container) returns (u: Container)
    requires Relisted(updated, after) && c in after
    ensures u in updated && SameLabels(u, c)
  {
    var ms: seq<Container> :| multiset(ms) == multiset(updated) && Relabelled(ms, after);
    SameMembers(ms, updated);
    var i :| 0 <= i < |after| && after[i] == c;
    u := ms[i];
  }

  lemma Relisting(updated: seq<Container>, after: seq<Container>, u: Container) returns (d: Container)
    requires Relisted(updated, after) && u in updated
    ensures d in after && SameLabels(u, d)
  {
    var ms: seq<Container> :| multiset(ms) == multiset(updated) && Relabelled(ms, after);
    SameMembers(ms, updated);
    var i := IndexOf(ms, u);
    d := after[i];
  }

  lemma RelistedIds(updated: seq<Container>, after: seq<Container>)
    requires Relisted(updated, after)
    ensures |after| == |updated| && Ids(after) == Ids(updated)
  {
    var ms: seq<Container> :| multiset(ms) == multiset(updated) && Relabelled(ms, after);
    SameMembers(ms, updated);
    SameIds(ms, after);
  }

  lemma SameIds(cs: seq<Container>, ds: seq<Container>)
    requires |cs| == |ds| && forall i :: 0 <= i < |cs| ==> cs[i].id == ds[i].id
    ensures Ids(cs) == Ids(ds)
  {
    forall c <- cs ensures c.id in Ids(ds) {
      var i := IndexOf(cs, c);
      assert ds[i] in ds;
    }
    forall d <- ds ensures d.id in Ids(cs) {
      var i := IndexOf(ds, d);
      assert cs[i] in cs;
    }
  }
}
