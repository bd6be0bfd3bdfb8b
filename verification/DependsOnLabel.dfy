/** The depends_on label: printed when a container is created
    (prepareLabels, pkg/compose/create.go:497-514) and parsed when a project is
    rebuilt from its containers (projectFromName, pkg/compose/compose.go:356-405). */
module DependsOnLabel {
  import opened Wrappers
  import opened Collections
  import opened Texts
  import Projects

  type Dependency = Projects.Dependency

  const HASH_LABEL := "com.docker.compose.config-hash"
  const NUMBER_LABEL := "com.docker.compose.container-number"
  const SERVICE_LABEL := "com.docker.compose.service"
  const DEPENDENCIES_LABEL := "com.docker.compose.depends_on"
  const RUNNING_OR_HEALTHY := "running_or_healthy"

  type DependsOn = map<string, Dependency>

  function PrintBool(b: bool): string {
    if b then "true" else "false"
  }

  /** strconv.ParseBool with its error ignored. */
  predicate ParseBool(s: string) {
    s in {"1", "t", "T", "true", "TRUE", "True"}
  }

  // ---- printing ----

  function Entry(name: string, d: Dependency): string {
    Join([name, d.condition, PrintBool(d.restart)], ':')
  }

  function Entries(order: seq<string>, dependsOn: DependsOn): seq<string>
    requires forall n <- order :: n in dependsOn
  {
    seq(|order|, i requires 0 <= i < |order| => Entry(order[i], dependsOn[order[i]]))
  }

  ghost predicate Enumerates(order: seq<string>, dependsOn: DependsOn) {
    Distinct(order) && forall n :: n in order <==> n in dependsOn
  }

  /** The map is ranged over in an arbitrary order. */
  method PrintDependencies(dependsOn: DependsOn) returns (text: string)
    ensures exists order :: Enumerates(order, dependsOn) && text == Join(Entries(order, dependsOn), ',')
    ensures Clean(dependsOn) <==> ParseLabel(text) == Restored(dependsOn)
  {
    var todo, dependencies := dependsOn.Keys, [];
    ghost var order: seq<string> := [];
    while todo != {}
      invariant Distinct(order) && (forall n <- order :: n !in todo && n in dependsOn)
      invariant forall n <- dependsOn :: n in todo || n in order
      invariant todo <= dependsOn.Keys
      invariant dependencies == Entries(order, dependsOn)
    {
      var s :| s in todo;
      todo := todo - {s};
      dependencies := dependencies + [Entry(s, dependsOn[s])];
      DistinctEnds(order, s);
      order := order + [s];
    }
    text := Join(dependencies, ',');
    CleanRoundTrips(dependsOn, order);
  }

  /** prepareLabels: a number is only given to the containers of a service. */
  method PrepareLabels(labels: map<string, string>, hash: string, dependsOn: DependsOn, number: int)
    returns (prepared: map<string, string>)
    ensures prepared.Keys == labels.Keys + {"com.docker.compose.config-hash", "com.docker.compose.depends_on"}
                             + if number > 0 then {"com.docker.compose.container-number"} else {}
    ensures prepared["com.docker.compose.config-hash"] == hash
    ensures number > 0 ==> Atoi(prepared["com.docker.compose.container-number"]) == Some(number)
    ensures Clean(dependsOn) <==> ParseLabel(prepared["com.docker.compose.depends_on"]) == Restored(dependsOn)
    ensures forall l <- labels | l !in {HASH_LABEL, DEPENDENCIES_LABEL, NUMBER_LABEL} :: prepared[l] == labels[l]
    ensures number <= 0 && NUMBER_LABEL in labels ==> prepared[NUMBER_LABEL] == labels[NUMBER_LABEL]
  {
    prepared := labels[HASH_LABEL := hash];
    if number > 0 {
      AtoiItoa(number);
      prepared := prepared[NUMBER_LABEL := Itoa(number)];
    }
    var text := PrintDependencies(dependsOn);
    assert HASH_LABEL[22] == 'f' && NUMBER_LABEL[22] == 't' && DEPENDENCIES_LABEL[22] == 'e';
    prepared := prepared[DEPENDENCIES_LABEL := text];
  }

  // ---- parsing ----

  function ParseEntry(dc: string): (string, Dependency) {
    var parts := Split(dc, ':');
    (parts[0], Projects.Dependency(
       if |parts| > 1 then parts[1] else RUNNING_OR_HEALTHY,
       |parts| > 2 ==> ParseBool(parts[2]),
       true))
  }

  function ParseEntries(entries: seq<string>): DependsOn {
    if entries == [] then map[]
    else
      var (name, d) := ParseEntry(entries[|entries| - 1]);
      ParseEntries(entries[..|entries| - 1])[name := d]
  }

  function ParseLabel(text: string): DependsOn {
    if text == "" then map[] else ParseEntries(Split(text, ','))
  }

  method ParseDependencies(text: string) returns (dependsOn: DependsOn)
    ensures dependsOn == ParseLabel(text)
  {
    hide Split, ParseBool;
    dependsOn := map[];
    if text != "" {
      var entries := Split(text, ',');
      for i := 0 to |entries|
        invariant dependsOn == ParseEntries(entries[..i])
      {
        assert entries[..i + 1][..i] == entries[..i];
        var parts := Split(entries[i], ':');
        var condition, restart := RUNNING_OR_HEALTHY, true;
        if |parts| > 1 {
          condition := parts[1];
          if |parts| > 2 {
            restart := ParseBool(parts[2]);
          }
        }
        dependsOn := dependsOn[parts[0] := Projects.Dependency(condition, restart, true)];
      }
      assert entries[..|entries|] == entries;
    }
  }

  // ---- the round trip ----

  predicate Plain(s: string) {
    ',' !in s && ':' !in s
  }

  /** The separators occur in no name and no condition. */
  predicate Clean(dependsOn: DependsOn) {
    forall n <- dependsOn :: Plain(n) && Plain(dependsOn[n].condition)
  }

  /** The label does not say which dependencies are required. */
  function Restored(dependsOn: DependsOn): DependsOn {
    map n | n in dependsOn :: dependsOn[n].(required := true)
  }

  lemma ParseEntryOf(name: string, d: Dependency)
    requires Plain(name) && Plain(d.condition)
    ensures ParseEntry(Entry(name, d)) == (name, d.(required := true))
    ensures ',' !in Entry(name, d) && Entry(name, d) != ""
  {
    SplitJoin([name, d.condition, PrintBool(d.restart)], ':');
    assert Join([d.condition, PrintBool(d.restart)], ':') == d.condition + [':'] + PrintBool(d.restart);
  }

  lemma {:induction false} ParseEntriesOf(order: seq<string>, dependsOn: DependsOn)
    requires Clean(dependsOn) && forall n <- order :: n in dependsOn
    ensures ParseEntries(Entries(order, dependsOn)) == map n | n in order :: dependsOn[n].(required := true)
  {
    hide ParseEntry, Entry, Plain;
    if order != [] {
      var last := order[|order| - 1];
      var earlier := order[..|order| - 1];
      ParseEntriesOf(earlier, dependsOn);
      ParseEntryOf(last, dependsOn[last]);
      assert Entries(order, dependsOn)[..|order| - 1] == Entries(earlier, dependsOn);
      assert order == earlier + [last];
    }
  }

  lemma ParsedEntryIsPlain(entry: string)
    requires ',' !in entry
    ensures Plain(ParseEntry(entry).0) && Plain(ParseEntry(entry).1.condition)
  {
    SplitKeeps(entry, ':');
    var parts := Split(entry, ':');
    assert parts[0] in parts && (|parts| > 1 ==> parts[1] in parts);
  }

  /** Whatever is parsed is free of separators. */
  lemma {:induction false} ParsedIsClean(entries: seq<string>)
    requires forall e <- entries :: ',' !in e
    ensures Clean(ParseEntries(entries))
  {
    if entries != [] {
      ParsedIsClean(entries[..|entries| - 1]);
      ParsedEntryIsPlain(entries[|entries| - 1]);
      hide ParseEntry, Plain;
    }
  }

  lemma EnumeratesNone(dependsOn: DependsOn, order: seq<string>)
    requires Enumerates(order, dependsOn)
    ensures order == [] <==> dependsOn == map[]
  {
    if order != [] {
      assert order[0] in dependsOn;
    }
  }

  lemma CleanIff(dependsOn: DependsOn)
    ensures Clean(dependsOn) <==> forall n <- dependsOn :: {',', ':'} !! (set c <- n + dependsOn[n].condition)
  {
    forall n <- dependsOn
      ensures Plain(n) && Plain(dependsOn[n].condition) <==> {',', ':'} !! (set c <- n + dependsOn[n].condition)
    {
      forall c ensures c in n + dependsOn[n].condition <==> c in n || c in dependsOn[n].condition {
      }
    }
  }

  /** An entry as it is printed. */
  lemma EntryText(name: string, d: Dependency)
    ensures Entry(name, d) == name + ":" + d.condition + ":" + if d.restart then "true" else "false"
  {
    assert Join([d.condition, PrintBool(d.restart)], ':') == d.condition + [':'] + PrintBool(d.restart);
  }

  /** Older labels have no condition or no restart flag: then the dependency has
      to run or be healthy, and is restarted. */
  lemma ShortForms(name: string, condition: string)
    requires name != "" && {',', ':'} !! (set c <- name) && {',', ':'} !! (set c <- condition)
    ensures ParseLabel("") == map[]
    ensures ParseLabel(name) == map[name := Projects.Dependency("running_or_healthy", true, true)]
    ensures ParseLabel(name + ":" + condition) == map[name := Projects.Dependency(condition, true, true)]
    ensures forall flag: string | {',', ':'} !! (set c <- flag) ::
              ParseLabel(name + ":" + condition + ":" + flag) ==
              map[name := Projects.Dependency(condition, flag in {"1", "t", "T", "true", "TRUE", "True"}, true)]
  {
    forall c <- name ensures c in (set c <- name) {
    }
    forall c <- condition ensures c in (set c <- condition) {
    }
    SplitWord(name, ',');
    SplitWord(name, ':');
    var entry := name + ":" + condition;
    SplitWord(entry, ',');
    SplitWord(condition, ':');
    SplitAfterWord(name, condition, ':');
    OneEntry(name);
    OneEntry(entry);
    forall flag: string | {',', ':'} !! (set c <- flag)
      ensures ParseLabel(entry + ":" + flag) ==
              map[name := Projects.Dependency(condition, flag in {"1", "t", "T", "true", "TRUE", "True"}, true)]
    {
      WithFlag(name, condition, flag);
    }
  }

  lemma WithFlag(name: string, condition: string, flag: string)
    requires name != "" && Plain(name) && Plain(condition) && {',', ':'} !! (set c <- flag)
    ensures ParseLabel(name + ":" + condition + ":" + flag) ==
              map[name := Projects.Dependency(condition, flag in {"1", "t", "T", "true", "TRUE", "True"}, true)]
  {
    forall c <- flag ensures c in (set c <- flag) {
    }
    ThreeParts(name, condition, flag);
    hide Split, Plain;
    OneEntry(name + ":" + condition + ":" + flag);
  }

  lemma ThreeParts(name: string, condition: string, flag: string)
    requires Plain(name) && Plain(condition) && Plain(flag)
    ensures Split(name + ":" + condition + ":" + flag, ':') == [name, condition, flag]
    ensures Split(name + ":" + condition + ":" + flag, ',') == [name + ":" + condition + ":" + flag]
  {
    SplitJoin([name, condition, flag], ':');
    assert [name, condition, flag][1..] == [condition, flag] && [condition, flag][1..] == [flag];
    assert Join([condition, flag], ':') == condition + [':'] + flag;
    assert name + ":" + condition + ":" + flag == name + [':'] + (condition + [':'] + flag);
    SplitWord(name + ":" + condition + ":" + flag, ',');
  }

  lemma OneEntry(entry: string)
    ensures ParseEntries([entry]) == map[ParseEntry(entry).0 := ParseEntry(entry).1]
  {
    assert [entry][..0] == [];
  }

  /** Parsing the printed label gives back the names, conditions and restart
      flags, whatever the order, if and only if no name and no condition holds
      a separator. Empty names and conditions do no harm. */
  lemma RoundTripIff(dependsOn: DependsOn, order: seq<string>)
    requires Enumerates(order, dependsOn)
    ensures (forall n <- dependsOn :: {',', ':'} !! (set c <- n + dependsOn[n].condition)) <==>
            ParseLabel(Join(Entries(order, dependsOn), ',')) ==
              map n | n in dependsOn :: dependsOn[n].(required := true)
  {
    CleanIff(dependsOn);
    CleanRoundTrips(dependsOn, order);
  }

  lemma CleanRoundTrips(dependsOn: DependsOn, order: seq<string>)
    requires Enumerates(order, dependsOn)
    ensures Clean(dependsOn) <==> ParseLabel(Join(Entries(order, dependsOn), ',')) == Restored(dependsOn)
  {
    var entries := Entries(order, dependsOn);
    var text := Join(entries, ',');
    EnumeratesNone(dependsOn, order);
    if Clean(dependsOn) && order != [] {
      forall i | 0 <= i < |order| ensures ',' !in entries[i] && entries[i] != "" {
        ParseEntryOf(order[i], dependsOn[order[i]]);
      }
      SplitJoin(entries, ',');
      ParseEntriesOf(order, dependsOn);
      assert text != "";
    }
    if ParseLabel(text) == Restored(dependsOn) {
      ParsedIsClean(Split(text, ','));
      forall n <- dependsOn ensures Plain(n) && Plain(dependsOn[n].condition) {
        assert n in ParseLabel(text);
      }
    }
  }

  // ---- rebuilding the services of a project ----

  datatype Summary = Summary(labels: map<string, string>, image: string, canonicalName: string)
  {
    function Service(): string {
      if SERVICE_LABEL in labels then labels[SERVICE_LABEL] else canonicalName
    }
  }

  datatype Rebuilt = Rebuilt(image: string, labels: map<string, string>, scale: Option<nat>, dependsOn: DependsOn)

  function Increment(scale: Option<nat>): Option<nat> {
    match scale
    case None => Some(1)
    case Some(n) => Some(n + 1)
  }

  function ServicesOf(containers: seq<Summary>): (names: seq<string>)
    ensures |names| == |containers|
    ensures forall i :: 0 <= i < |containers| ==> names[i] == containers[i].Service()
  {
    seq(|containers|, i requires 0 <= i < |containers| => containers[i].Service())
  }

  /** The first container of the service. */
  predicate IsFirst(containers: seq<Summary>, i: nat, name: string) {
    && i < |containers| && containers[i].Service() == name
    && forall j :: 0 <= j < i ==> containers[j].Service() != name
  }

  function LabelOf(labels: map<string, string>): string {
    if DEPENDENCIES_LABEL in labels then labels[DEPENDENCIES_LABEL] else ""
  }

  /** One round of the loop over the containers. */
  function Count(found: map<string, Rebuilt>, c: Summary): map<string, Rebuilt> {
    var service := if c.Service() in found then found[c.Service()] else Rebuilt(c.image, c.labels, None, map[]);
    found[c.Service() := service.(scale := Increment(service.scale))]
  }

  function Gather(containers: seq<Summary>): map<string, Rebuilt> {
    if containers == [] then map[]
    else Count(Gather(containers[..|containers| - 1]), containers[|containers| - 1])
  }

  function WithDependencies(service: Rebuilt): Rebuilt {
    service.(dependsOn := ParseLabel(LabelOf(service.labels)))
  }

  /** projectFromName, up to the selection of services. */
  method ProjectFromName(containers: seq<Summary>) returns (services: Option<map<string, Rebuilt>>)
    ensures services.None? <==> containers == []
    ensures services.Some? ==> services.value.Keys == set n | n in ServicesOf(containers)
    ensures services.Some? ==>
              forall c <- containers ::
                (if "com.docker.compose.service" in c.labels then c.labels["com.docker.compose.service"]
                 else c.canonicalName) in services.value
    ensures services.Some? ==> forall n <- services.value :: Represents(services.value[n], containers, n)
  {
    if containers == [] {
      return None;
    }
    var found: map<string, Rebuilt> := map[];
    for i := 0 to |containers|
      invariant found == Gather(containers[..i])
    {
      assert containers[..i + 1][..i] == containers[..i];
      found := Count(found, containers[i]);
    }
    assert containers[..|containers|] == containers;
    var project, todo := found, found.Keys;
    while todo != {}
      invariant todo <= found.Keys == project.Keys
      invariant forall n <- found :: project[n] == if n in todo then found[n] else WithDependencies(found[n])
    {
      var name :| name in todo;
      todo := todo - {name};
      var dependsOn := ParseDependencies(LabelOf(found[name].labels));
      project := project[name := found[name].(dependsOn := dependsOn)];
    }
    forall n ensures n in found <==> n in ServicesOf(containers)
      ensures n in found ==> Represents(WithDependencies(found[n]), containers, n)
    {
      var _ := Gathered(containers, n);
    }
    NamesAre(containers);
    services := Some(project);
  }

  lemma NamesAre(containers: seq<Summary>)
    ensures forall c <- containers ::
              (if "com.docker.compose.service" in c.labels then c.labels["com.docker.compose.service"]
               else c.canonicalName) in ServicesOf(containers)
  {
    forall c <- containers ensures c.Service() in ServicesOf(containers) {
      var i :| 0 <= i < |containers| && containers[i] == c;
      assert ServicesOf(containers)[i] == c.Service();
    }
  }

  /** Its scale is the number of its containers; the rest comes from the first. */
  ghost predicate Represents(service: Rebuilt, containers: seq<Summary>, name: string) {
    && service.scale == Some(multiset(ServicesOf(containers))[name])
    && exists i: nat :: IsFirst(containers, i, name)
                        && service == Rebuilt(containers[i].image, containers[i].labels, service.scale,
                                              ParseLabel(LabelOf(containers[i].labels)))
  }

  lemma NoServices()
    ensures ServicesOf([]) == []
  {
  }

  lemma ServicesMore(containers: seq<Summary>, name: string)
    requires containers != []
    ensures var last := |containers| - 1;
            && (name in ServicesOf(containers) <==>
                 name in ServicesOf(containers[..last]) || name == containers[last].Service())
            && multiset(ServicesOf(containers))[name] ==
                 multiset(ServicesOf(containers[..last]))[name] + if name == containers[last].Service() then 1 else 0
  {
    var last := |containers| - 1;
    assert ServicesOf(containers) == ServicesOf(containers[..last]) + [containers[last].Service()];
  }

  lemma FirstMore(containers: seq<Summary>, i: nat, name: string)
    requires containers != []
    ensures var last := |containers| - 1;
            && (IsFirst(containers[..last], i, name) ==> IsFirst(containers, i, name))
            && (name !in ServicesOf(containers[..last]) && name == containers[last].Service() ==>
                  IsFirst(containers, last, name) && multiset(ServicesOf(containers[..last]))[name] == 0)
  {
  }

  lemma {:induction false} Gathered(containers: seq<Summary>, name: string) returns (i: nat)
    ensures name in Gather(containers) <==> name in ServicesOf(containers)
    ensures name in Gather(containers) ==>
              && IsFirst(containers, i, name)
              && Gather(containers)[name] == Rebuilt(containers[i].image, containers[i].labels,
                                                     Some(multiset(ServicesOf(containers))[name]), map[])
  {
    hide ServicesOf, IsFirst;
    i := 0;
    if containers == [] {
      NoServices();
    } else {
      var last := |containers| - 1;
      i := Gathered(containers[..last], name);
      ServicesMore(containers, name);
      FirstMore(containers, i, name);
      if name !in Gather(containers[..last]) {
        i := last;
      }
    }
  }

  /** Printing and rebuilding: if every container of a service was given the label
      that prepareLabels prints, the rebuilt service has the same dependencies,
      all required, and its scale is the number of its containers. */
  lemma PreparedThenRebuilt(containers: seq<Summary>, name: string, service: Rebuilt, dependsOn: DependsOn,
                            order: seq<string>)
    requires Represents(service, containers, name) && Enumerates(order, dependsOn)
    requires forall n <- dependsOn :: {',', ':'} !! (set c <- n + dependsOn[n].condition)
    requires forall c <- containers :: "com.docker.compose.service" in c.labels
    requires forall c <- containers | c.labels["com.docker.compose.service"] == name ::
               && "com.docker.compose.depends_on" in c.labels
               && c.labels["com.docker.compose.depends_on"] == Join(Entries(order, dependsOn), ',')
    ensures service.dependsOn == map n | n in dependsOn :: dependsOn[n].(required := true)
    ensures service.scale == Some(|LabelledAt(containers, name)|)
  {
    RoundTripIff(dependsOn, order);
    var i: nat :| IsFirst(containers, i, name)
                  && service == Rebuilt(containers[i].image, containers[i].labels, service.scale,
                                        ParseLabel(LabelOf(containers[i].labels)));
    assert containers[i] in containers;
    ScaleIs(containers, name);
    hide Entries, ParseLabel, ServicesOf;
  }

  /** The first container of a service decides on its image and labels. */
  lemma FirstDecides(containers: seq<Summary>, name: string, service: Rebuilt) returns (i: nat)
    requires Represents(service, containers, name)
    requires forall c <- containers :: "com.docker.compose.service" in c.labels
    ensures i < |containers| && service.image == containers[i].image && service.labels == containers[i].labels
    ensures containers[i].labels["com.docker.compose.service"] == name
    ensures forall j :: 0 <= j < i ==> containers[j].labels["com.docker.compose.service"] != name
  {
    i :| IsFirst(containers, i, name)
         && service == Rebuilt(containers[i].image, containers[i].labels, service.scale,
                               ParseLabel(LabelOf(containers[i].labels)));
    assert forall j :: 0 <= j <= i ==> containers[j] in containers;
  }

  /** The places of the containers that are labelled with the service. */
  function LabelledAt(containers: seq<Summary>, name: string): set<int> {
    set i | 0 <= i < |containers| && "com.docker.compose.service" in containers[i].labels &&
            containers[i].labels["com.docker.compose.service"] == name
  }

  lemma ScaleIs(containers: seq<Summary>, name: string)
    requires forall c <- containers :: "com.docker.compose.service" in c.labels
    ensures multiset(ServicesOf(containers))[name] == |LabelledAt(containers, name)|
  {
    CountPlaces(ServicesOf(containers), name);
    assert forall j :: 0 <= j < |containers| ==> containers[j] in containers;
    assert PlacesOf(ServicesOf(containers), name) == LabelledAt(containers, name);
  }
}
