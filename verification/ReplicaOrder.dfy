/** The order in which ensureService treats the containers of a service
    (pkg/compose/convergence.go:131-153): sort.Slice with a comparator that
    answers "less" both ways for two obsolete containers, then a reversal. The
    sort is the insertion sort that Go's sort.Slice runs on at most twelve
    elements. With at most one obsolete container, and distinct numbers, the
    comparator is a strict total order, and every sort gives the same result for
    slices of any length. With more, the model ends at twelve: on longer slices Go
    partitions, and what such a comparator then yields is not modelled. */
module ReplicaOrder {
  import opened Wrappers
  import opened Collections
  import opened Containers

  ghost predicate Obsolete(env: Env, s: Service, policy: Policy, c: Container) {
    MustRecreate(env, s, c, policy) == Some(true)
  }

  /** The comparator: obsolete containers first, then descending numbers; without
      two numbers, by creation date. */
  ghost predicate Less(env: Env, s: Service, policy: Policy, x: Container, y: Container) {
    if Obsolete(env, s, policy, x) then true
    else if Obsolete(env, s, policy, y) then false
    else if x.Number().Some? && y.Number().Some? then x.Number().value > y.Number().value
    else x.created < y.created
  }

  method IsLess(env: Env, s: Service, policy: Policy, x: Container, y: Container) returns (less: bool)
    ensures less == Less(env, s, policy, x, y)
  {
    var obsolete := DecideRecreate(env, s, x, policy);
    if obsolete == Some(true) {
      return true;
    }
    obsolete := DecideRecreate(env, s, y, policy);
    if obsolete == Some(true) {
      return false;
    }
    if x.Number().Some? && y.Number().Some? {
      return x.Number().value > y.Number().value;
    }
    return x.created < y.created;
  }

  /** Which of the containers have a number: all, none, or only some. */
  datatype Labels = Numeric | Missing | Mixed

  ghost function LabelsOf(cs: seq<Container>): Labels {
    if AllNumbered(cs) then Numeric else if NoneNumbered(cs) then Missing else Mixed
  }

  ghost predicate NoneNumbered(cs: seq<Container>) {
    forall c <- cs :: c.Number().None?
  }

  /** The containers are labelled like that. */
  ghost predicate Bear(cs: seq<Container>, labels: Labels) {
    (labels.Numeric? ==> AllNumbered(cs)) && (labels.Missing? ==> NoneNumbered(cs))
  }

  /** x may stand before y in the sorted slice. If only some have a number, the
      comparator is not transitive, and nothing more is claimed. */
  ghost predicate Before(env: Env, s: Service, policy: Policy, labels: Labels, x: Container, y: Container) {
    && (Obsolete(env, s, policy, y) ==> Obsolete(env, s, policy, x))
    && (labels.Numeric? && !Obsolete(env, s, policy, x) && x.Number().Some? && y.Number().Some? ==>
          x.Number().value >= y.Number().value)
    && (labels.Missing? && !Obsolete(env, s, policy, x) ==> x.created <= y.created)
  }

  ghost predicate Sorted(env: Env, s: Service, policy: Policy, labels: Labels, cs: seq<Container>) {
    forall i, j :: 0 <= i < j < |cs| ==> Before(env, s, policy, labels, cs[i], cs[j])
  }

  /** Insertion sort: element i moves down while it is less than the one below. */
  method Sort(env: Env, s: Service, policy: Policy, containers: seq<Container>) returns (cs: seq<Container>)
    ensures multiset(cs) == multiset(containers)
    ensures Sorted(env, s, policy, LabelsOf(containers), cs)
  {
    ghost var labels := LabelsOf(containers);
    cs := containers;
    for i := 0 to |cs|
      invariant |cs| == |containers| && multiset(cs) == multiset(containers)
      invariant Bear(cs, labels)
      invariant Sorted(env, s, policy, labels, cs[..i])
    {
      cs := Insert(env, s, policy, labels, cs, i);
    }
    assert cs[..|cs|] == cs;
  }

  /** The first i + 1 elements are sorted except for the one at j, which only
      stands before those above it. */
  ghost predicate Inserting(env: Env, s: Service, policy: Policy, labels: Labels, cs: seq<Container>, i: nat, j: nat) {
    && j <= i < |cs| && Bear(cs, labels)
    && (forall a, b :: 0 <= a < b <= i && a != j && b != j ==> Before(env, s, policy, labels, cs[a], cs[b]))
    && (forall b :: j < b <= i ==> Before(env, s, policy, labels, cs[j], cs[b]))
  }

  method Insert(env: Env, s: Service, policy: Policy, ghost labels: Labels, containers: seq<Container>, i: nat)
    returns (cs: seq<Container>)
    requires i < |containers| && Bear(containers, labels)
    requires Sorted(env, s, policy, labels, containers[..i])
    ensures |cs| == |containers| && multiset(cs) == multiset(containers) && Bear(cs, labels)
    ensures Sorted(env, s, policy, labels, cs[..i + 1])
  {
    cs := containers;
    var j := i;
    forall a, b | 0 <= a < b < i ensures Before(env, s, policy, labels, cs[a], cs[b]) {
      assert cs[..i][a] == cs[a] && cs[..i][b] == cs[b];
    }
    while j > 0
      invariant |cs| == |containers| && multiset(cs) == multiset(containers)
      invariant 0 <= j <= i
      invariant Inserting(env, s, policy, labels, cs, i, j)
    {
      var less := IsLess(env, s, policy, cs[j], cs[j - 1]);
      if !less {
        break;
      }
      SwapDown(env, s, policy, labels, cs, i, j);
      cs := Swapped(cs, j);
      j := j - 1;
    }
    InsertionDone(env, s, policy, labels, cs, i, j);
  }

  lemma SwapDown(env: Env, s: Service, policy: Policy, labels: Labels, cs: seq<Container>, i: nat, j: nat)
    requires Inserting(env, s, policy, labels, cs, i, j) && j > 0 && Less(env, s, policy, cs[j], cs[j - 1])
    ensures Inserting(env, s, policy, labels, Swapped(cs, j), i, j - 1)
  {
  }

  /** An element and the one before it change places. */
  function Swapped(cs: seq<Container>, j: nat): (t: seq<Container>)
    requires 0 < j < |cs|
    ensures multiset(t) == multiset(cs)
  {
    cs[j := cs[j - 1]][j - 1 := cs[j]]
  }

  lemma InsertionDone(env: Env, s: Service, policy: Policy, labels: Labels, cs: seq<Container>, i: nat, j: nat)
    requires Inserting(env, s, policy, labels, cs, i, j)
    requires j > 0 ==> !Less(env, s, policy, cs[j], cs[j - 1])
    ensures Sorted(env, s, policy, labels, cs[..i + 1])
  {
  }

  /** Up-to-date containers first, by ascending number, and obsolete ones last:
      the tail is what gets removed on the way down. */
  ghost predicate Arranged(env: Env, s: Service, policy: Policy, labels: Labels, cs: seq<Container>) {
    forall i, j :: 0 <= i < j < |cs| ==> Before(env, s, policy, labels, cs[j], cs[i])
  }

  method Arrange(env: Env, s: Service, policy: Policy, containers: seq<Container>) returns (cs: seq<Container>)
    ensures multiset(cs) == multiset(containers)
    ensures Arranged(env, s, policy, LabelsOf(containers), cs)
  {
    var sorted := Sort(env, s, policy, containers);
    ReversedPermutes(sorted);
    cs := Reversed(sorted);
  }

  /** No two replicas share a number. */
  ghost predicate UniqueNumbers(cs: multiset<Container>) {
    && (forall c <- cs :: cs[c] == 1 && c.Number().Some?)
    && (forall c, d :: c in cs && d in cs && c != d ==> c.Number() != d.Number())
  }

  ghost predicate AtMostOneObsolete(env: Env, s: Service, policy: Policy, cs: multiset<Container>) {
    forall c, d :: c in cs && d in cs && Obsolete(env, s, policy, c) && Obsolete(env, s, policy, d) ==> c == d
  }

  /** Of two different containers exactly one is less. */
  ghost predicate Comparable(env: Env, s: Service, policy: Policy, cs: multiset<Container>) {
    forall c, d :: c in cs && d in cs && c != d ==> (Less(env, s, policy, c, d) <==> !Less(env, s, policy, d, c))
  }

  ghost predicate Transitive(env: Env, s: Service, policy: Policy, cs: multiset<Container>) {
    forall c, d, e | c in cs && d in cs && e in cs && Less(env, s, policy, c, d) && Less(env, s, policy, d, e) ::
      c != e ==> Less(env, s, policy, c, e)
  }

  /** The comparator is a strict total order of replicas with distinct numbers if
      and only if at most one of them is obsolete. */
  lemma StrictlyOrdersIff(env: Env, s: Service, policy: Policy, cs: multiset<Container>)
    requires UniqueNumbers(cs)
    ensures Comparable(env, s, policy, cs) && Transitive(env, s, policy, cs) <==>
            AtMostOneObsolete(env, s, policy, cs)
  {
    hide Obsolete;
  }

  /** No element is less than one before it: what every sort achieves if the
      comparator is a strict order. */
  ghost predicate WellSorted(env: Env, s: Service, policy: Policy, cs: seq<Container>) {
    forall i, j :: 0 <= i < j < |cs| ==> !Less(env, s, policy, cs[j], cs[i])
  }

  /** Then that is what insertion sort achieves, too. */
  lemma SortedIffWellSorted(env: Env, s: Service, policy: Policy, cs: seq<Container>)
    requires UniqueNumbers(multiset(cs)) && AtMostOneObsolete(env, s, policy, multiset(cs))
    ensures Sorted(env, s, policy, Numeric, cs) <==> WellSorted(env, s, policy, cs)
  {
    forall i, j | 0 <= i < j < |cs|
      ensures Before(env, s, policy, Numeric, cs[i], cs[j]) <==> !Less(env, s, policy, cs[j], cs[i])
    {
      OnceOnly(cs, i, j);
      assert cs[i] in multiset(cs) && cs[j] in multiset(cs);
    }
  }

  /** And there is only one such slice, however long. */
  lemma {:induction false} SortedIsUnique(env: Env, s: Service, policy: Policy, cs: seq<Container>, ds: seq<Container>)
    requires multiset(cs) == multiset(ds) && Comparable(env, s, policy, multiset(cs))
    requires WellSorted(env, s, policy, cs) && WellSorted(env, s, policy, ds)
    ensures cs == ds
  {
    hide Less, Comparable, WellSorted;
    SameSize(cs, ds);
    if cs != [] {
      SameFirst(env, s, policy, cs, ds);
      Tail(env, s, policy, cs);
      Tail(env, s, policy, ds);
      SortedIsUnique(env, s, policy, cs[1..], ds[1..]);
      assert cs == [cs[0]] + cs[1..] && ds == [ds[0]] + ds[1..];
    }
  }

  lemma Tail(env: Env, s: Service, policy: Policy, cs: seq<Container>)
    requires cs != [] && Comparable(env, s, policy, multiset(cs)) && WellSorted(env, s, policy, cs)
    ensures Comparable(env, s, policy, multiset(cs[1..])) && WellSorted(env, s, policy, cs[1..])
    ensures multiset(cs[1..]) == multiset(cs) - multiset{cs[0]}
  {
    assert cs == [cs[0]] + cs[1..];
    ComparableStays(env, s, policy, multiset(cs), multiset(cs[1..]));
    hide Less, Comparable;
  }

  lemma ComparableStays(env: Env, s: Service, policy: Policy, cs: multiset<Container>, ds: multiset<Container>)
    requires Comparable(env, s, policy, cs) && ds <= cs
    ensures Comparable(env, s, policy, ds)
  {
    hide Less;
  }

  lemma SameSize(cs: seq<Container>, ds: seq<Container>)
    requires multiset(cs) == multiset(ds)
    ensures |cs| == |ds|
  {
    assert |multiset(cs)| == |cs| && |multiset(ds)| == |ds|;
  }

  lemma SameFirst(env: Env, s: Service, policy: Policy, cs: seq<Container>, ds: seq<Container>)
    requires multiset(cs) == multiset(ds) && Comparable(env, s, policy, multiset(cs)) && |cs| == |ds| > 0
    requires WellSorted(env, s, policy, cs) && WellSorted(env, s, policy, ds)
    ensures cs[0] == ds[0]
  {
    hide Less;
    assert ds[0] in multiset(cs) && cs[0] in multiset(ds);
    var i :| 0 <= i < |cs| && cs[i] == ds[0];
    var j :| 0 <= j < |ds| && ds[j] == cs[0];
  }

  /** With at most one obsolete container and distinct numbers, every sort gives
      what Sort does. */
  lemma AnySort(env: Env, s: Service, policy: Policy, containers: seq<Container>, cs: seq<Container>,
                ds: seq<Container>)
    requires UniqueNumbers(multiset(containers)) && AtMostOneObsolete(env, s, policy, multiset(containers))
    requires multiset(cs) == multiset(containers) && WellSorted(env, s, policy, cs)
    requires multiset(ds) == multiset(containers) && Sorted(env, s, policy, LabelsOf(containers), ds)
    ensures cs == ds
  {
    AllDistinct(containers);
    SortedIffWellSorted(env, s, policy, ds);
    StrictlyOrdersIff(env, s, policy, multiset(containers));
    SortedIsUnique(env, s, policy, cs, ds);
  }

  /** Scale-down selection. Exactly the surplus is removed; an up-to-date
      container goes only if no obsolete one stays; and among up-to-date
      containers the highest numbers go. */
  lemma ScaleDownSelection(env: Env, s: Service, policy: Policy, observed: seq<Container>, cs: seq<Container>,
                           expected: nat)
    requires multiset(cs) == multiset(observed) && Arranged(env, s, policy, LabelsOf(observed), cs)
    requires UniqueNumbers(multiset(observed)) && |cs| >= expected
    ensures |cs[expected..]| == |observed| - expected
    ensures forall gone, kept | gone in cs[expected..] && kept in cs[..expected] ::
              && (Obsolete(env, s, policy, kept) ==> Obsolete(env, s, policy, gone))
              && (!Obsolete(env, s, policy, gone) ==> gone.Number().value > kept.Number().value)
  {
    SameSize(cs, observed);
    AllDistinct(observed);
    hide Arranged, UniqueNumbers, Obsolete, Container.Number;
    forall gone, kept | gone in cs[expected..] && kept in cs[..expected]
      ensures Obsolete(env, s, policy, kept) ==> Obsolete(env, s, policy, gone)
      ensures gone.Number().Some? && kept.Number().Some?
      ensures !Obsolete(env, s, policy, gone) ==> gone.Number().value > kept.Number().value
    {
      GoneFollows(env, s, policy, cs, expected, gone, kept);
    }
  }

  lemma GoneFollows(env: Env, s: Service, policy: Policy, cs: seq<Container>, expected: nat,
                    gone: Container, kept: Container)
    requires Arranged(env, s, policy, Numeric, cs) && UniqueNumbers(multiset(cs)) && |cs| >= expected
    requires gone in cs[expected..] && kept in cs[..expected]
    ensures Obsolete(env, s, policy, kept) ==> Obsolete(env, s, policy, gone)
    ensures gone.Number().Some? && kept.Number().Some?
    ensures !Obsolete(env, s, policy, gone) ==> gone.Number().value > kept.Number().value
  {
    hide Arranged, UniqueNumbers, Obsolete, Container.Number;
    var i: nat :| i < expected && cs[..expected][i] == kept;
    var j: nat :| j < |cs| - expected && cs[expected..][j] == gone;
    Follows(env, s, policy, cs, i, expected + j);
  }

  lemma AllDistinct(cs: seq<Container>)
    requires UniqueNumbers(multiset(cs))
    ensures AllNumbered(cs)
  {
    forall c <- cs ensures c.Number().Some? {
      assert c in multiset(cs);
    }
  }

  lemma Follows(env: Env, s: Service, policy: Policy, cs: seq<Container>, i: nat, j: nat)
    requires Arranged(env, s, policy, Numeric, cs) && UniqueNumbers(multiset(cs)) && i < j < |cs|
    ensures cs[i].Number().Some? && cs[j].Number().Some?
    ensures Obsolete(env, s, policy, cs[i]) ==> Obsolete(env, s, policy, cs[j])
    ensures !Obsolete(env, s, policy, cs[j]) ==> cs[j].Number().value > cs[i].Number().value
  {
    hide Obsolete, Container.Number;
    assert Before(env, s, policy, Numeric, cs[j], cs[i]);
    OnceOnly(cs, i, j);
    assert cs[i] in multiset(cs) && cs[j] in multiset(cs);
  }

  lemma OnceOnly(cs: seq<Container>, i: nat, j: nat)
    requires i < j < |cs|
    ensures multiset(cs)[cs[i]] <= 1 ==> cs[i] != cs[j]
  {
    assert cs == cs[..j] + [cs[j]] + cs[j + 1..];
    assert cs[i] in cs[..j];
  }
}
