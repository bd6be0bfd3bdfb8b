/** Watching a project until its last container is gone (monitor.Start,
    pkg/compose/monitor.go:57-164). The engine's events, and what an inspection
    after each of them says, are inputs. */
module Monitoring {
  import opened Wrappers
  import opened Texts

  datatype Action = Create | Start | Restart | Die | Other

  /** The container as found after it died. */
  datatype Aftermath = NotFound | Down | StillUp | InspectFailed

  datatype Message = Message(
    action: Action, id: string, service: string, replaced: bool, exitCode: Option<string>, aftermath: Aftermath)
  {
    predicate Watched(services: set<string>) {
      services == {} || service in services
    }

    function Code(): Option<int> {
      match exitCode
      case None => Some(0)
      case Some(text) => Atoi(text)
    }

    /** getContainerSummary or the inspection fails. */
    predicate Breaks(services: set<string>) {
      Watched(services) && (Code().None? || (action == Die && aftermath == InspectFailed))
    }

    predicate Brings(services: set<string>, id: string) {
      Watched(services) && this.id == id && (action == Create || action == Start)
    }

    predicate TakesAway(services: set<string>, id: string) {
      Watched(services) && this.id == id && action == Die && aftermath != StillUp
    }
  }

  datatype Kind = Created | Recreated | Started | Restarted | Exited

  datatype ContainerEvent = ContainerEvent(kind: Kind, id: string, service: string, exitCode: int, restarting: bool)

  /** What the client receives once all messages are consumed. */
  datatype End = ContextDone | StreamError | Quiet

  datatype Outcome =
    | Emptied     // no container is left: nil
    | Cancelled   // nil as well
    | Failed
    | Waiting

  /** A container the project was found with, and its service. */
  datatype Item = Item(id: string, service: string)

  /** It was there or came, and has not gone since. */
  ghost predicate Live(services: set<string>, initial: seq<Item>, messages: seq<Message>, id: string) {
    || (Found(services, initial, id) && Stays(services, messages, 0, id))
    || exists k :: 0 <= k < |messages| && messages[k].Brings(services, id) && Stays(services, messages, k + 1, id)
  }

  ghost predicate Found(services: set<string>, initial: seq<Item>, id: string) {
    exists i <- initial :: i.id == id && (services == {} || i.service in services)
  }

  ghost predicate Stays(services: set<string>, messages: seq<Message>, from: nat, id: string) {
    forall j :: from <= j < |messages| ==> !messages[j].TakesAway(services, id)
  }

  ghost predicate SomeLive(services: set<string>, initial: seq<Item>, messages: seq<Message>) {
    exists id :: Live(services, initial, messages, id)
  }

  /** A restart of the container was announced at some time before. */
  ghost predicate WasRestarting(services: set<string>, messages: seq<Message>, id: string) {
    exists m <- messages :: m.Watched(services) && m.id == id && m.action == Die && m.aftermath == StillUp
  }

  /** What the listeners are told of a message, given those before it. */
  ghost function Told(services: set<string>, earlier: seq<Message>, m: Message): seq<ContainerEvent> {
    if !m.Watched(services) || m.Code().None? then []
    else
      var code := m.Code().value;
      match m.action
      case Create => [ContainerEvent(if m.replaced then Recreated else Created, m.id, m.service, code, false)]
      case Start => [ContainerEvent(Started, m.id, m.service, code, WasRestarting(services, earlier, m.id))]
      case Restart => [ContainerEvent(Restarted, m.id, m.service, code, false)]
      case Die => [ContainerEvent(Exited, m.id, m.service, code, m.aftermath == StillUp)]
      case Other => []
  }

  ghost function Delivered(services: set<string>, messages: seq<Message>): seq<ContainerEvent> {
    if messages == [] then []
    else
      var earlier := messages[..|messages| - 1];
      Delivered(services, earlier) + Told(services, earlier, messages[|messages| - 1])
  }

  /** The state of the loop agrees with what has been consumed. */
  ghost predicate Tracks(services: set<string>, initial: seq<Item>, messages: seq<Message>,
                         containers: set<string>, restarting: set<string>, delivered: seq<ContainerEvent>)
  {
    && (forall id :: id in containers <==> Live(services, initial, messages, id))
    && (forall id :: id in restarting <==> WasRestarting(services, messages, id))
    && delivered == Delivered(services, messages)
  }

  /** The containers the project starts with. */
  method InitialContainers(services: set<string>, initial: seq<Item>) returns (containers: set<string>)
    ensures forall id :: id in containers <==> Found(services, initial, id)
  {
    containers := {};
    for i := 0 to |initial|
      invariant forall id :: id in containers <==> Found(services, initial[..i], id)
    {
      assert initial[..i + 1] == initial[..i] + [initial[i]];
      if services == {} || initial[i].service in services {
        containers := containers + {initial[i].id};
      }
    }
    assert initial[..|initial|] == initial;
  }

  /** Every listener is called with each of the delivered events, in order. */
  method Watch(services: set<string>, initial: seq<Item>, messages: seq<Message>, end: End)
    returns (outcome: Outcome, consumed: nat, containers: set<string>, delivered: seq<ContainerEvent>)
    ensures consumed <= |messages|
    ensures forall id :: id in containers <==> Live(services, initial, messages[..consumed], id)
    ensures delivered == Delivered(services, messages[..consumed])
    ensures outcome == Emptied <==> exists k :: 0 <= k <= |messages| && EndsAt(services, initial, messages, k)
    ensures outcome == Emptied ==> EndsAt(services, initial, messages, consumed)
    ensures forall k :: 0 <= k < consumed ==> SomeLive(services, initial, messages[..k])
    ensures outcome == Failed ==>
              if consumed < |messages| then messages[consumed].Breaks(services) else end == StreamError
    ensures outcome == Failed && consumed < |messages| ==>
              var m := messages[consumed];
              && (services == {} || m.service in services)
              && ((m.exitCode.Some? && Atoi(m.exitCode.value).None?) ||
                  (m.action == Die && m.aftermath == InspectFailed))
    ensures outcome == Cancelled ==> consumed == |messages| && end == ContextDone
    ensures outcome == Waiting ==> consumed == |messages| && end == Quiet
  {
    hide Live, WasRestarting, Delivered, Found, SomeLive, EndsAt, Message.Breaks;
    containers := InitialContainers(services, initial);
    TracksNone(services, initial);
    var restarting: set<string> := {};
    consumed, delivered := 0, [];
    while containers != {} && consumed < |messages| && !messages[consumed].Breaks(services)
      invariant consumed <= |messages|
      invariant Tracks(services, initial, messages[..consumed], containers, restarting, delivered)
      invariant forall k :: 0 <= k < consumed ==> SomeLive(services, initial, messages[..k])
      invariant forall k :: 0 <= k < consumed ==> !messages[k].Breaks(services)
      decreases |messages| - consumed
    {
      assert messages[..consumed + 1] == messages[..consumed] + [messages[consumed]];
      SomeLiveIff(services, initial, messages[..consumed], containers);
      containers, restarting, delivered :=
        Handle(services, initial, messages[..consumed], messages[consumed], containers, restarting, delivered);
      consumed := consumed + 1;
    }
    outcome :=
      if containers == {} then Emptied
      else if consumed < |messages| then Failed
      else match end case ContextDone => Cancelled case StreamError => Failed case Quiet => Waiting;
    if consumed < |messages| {
      BreaksIff(services, messages[consumed]);
    }
    SomeLiveIff(services, initial, messages[..consumed], containers);
    EndsOnlyAt(services, initial, messages, consumed);
  }

  /** What ends the watch as an error. */
  lemma BreaksIff(services: set<string>, m: Message)
    ensures m.Breaks(services) <==>
              && (services == {} || m.service in services)
              && ((m.exitCode.Some? && Atoi(m.exitCode.value).None?) ||
                  (m.action == Die && m.aftermath == InspectFailed))
  {
  }

  lemma TracksNone(services: set<string>, initial: seq<Item>)
    ensures forall id :: Live(services, initial, [], id) <==> Found(services, initial, id)
    ensures forall id :: !WasRestarting(services, [], id)
    ensures Delivered(services, []) == []
  {
  }

  lemma SomeLiveIff(services: set<string>, initial: seq<Item>, messages: seq<Message>, containers: set<string>)
    requires forall id :: id in containers <==> Live(services, initial, messages, id)
    ensures containers != {} <==> SomeLive(services, initial, messages)
  {
  }

  lemma EndsOnlyAt(services: set<string>, initial: seq<Item>, messages: seq<Message>, consumed: nat)
    requires consumed <= |messages|
    requires forall k :: 0 <= k < consumed ==> SomeLive(services, initial, messages[..k])
    requires forall k :: 0 <= k < consumed ==> !messages[k].Breaks(services)
    requires SomeLive(services, initial, messages[..consumed]) ==>
               consumed == |messages| || messages[consumed].Breaks(services)
    ensures (exists k :: 0 <= k <= |messages| && EndsAt(services, initial, messages, k)) <==>
              EndsAt(services, initial, messages, consumed)
    ensures EndsAt(services, initial, messages, consumed) <==> !SomeLive(services, initial, messages[..consumed])
  {
  }

  /** The containers are gone after k messages, none of which was an error. */
  ghost predicate EndsAt(services: set<string>, initial: seq<Item>, messages: seq<Message>, k: nat)
    requires k <= |messages|
  {
    !SomeLive(services, initial, messages[..k]) && forall j :: 0 <= j < k ==> !messages[j].Breaks(services)
  }

  /** The body of the loop for one message. */
  method Handle(services: set<string>, ghost initial: seq<Item>, ghost earlier: seq<Message>, event: Message,
                before: set<string>, restartingBefore: set<string>, deliveredBefore: seq<ContainerEvent>)
    returns (containers: set<string>, restarting: set<string>, delivered: seq<ContainerEvent>)
    requires Tracks(services, initial, earlier, before, restartingBefore, deliveredBefore) && !event.Breaks(services)
    ensures Tracks(services, initial, earlier + [event], containers, restarting, delivered)
  {
    containers, restarting, delivered := before, restartingBefore, deliveredBefore;
    if event.Watched(services) {
      var code := event.Code().value;
      match event.action {
        case Create =>
          containers := containers + {event.id};
          var kind := if event.replaced then Recreated else Created;
          delivered := delivered + [ContainerEvent(kind, event.id, event.service, code, false)];
        case Start =>
          var restarted := event.id in restarting;
          delivered := delivered + [ContainerEvent(Started, event.id, event.service, code, restarted)];
          containers := containers + {event.id};
        case Restart =>
          delivered := delivered + [ContainerEvent(Restarted, event.id, event.service, code, false)];
        case Die =>
          if event.aftermath == StillUp {
            restarting := restarting + {event.id};
            delivered := delivered + [ContainerEvent(Exited, event.id, event.service, code, true)];
          } else {
            delivered := delivered + [ContainerEvent(Exited, event.id, event.service, code, false)];
            containers := containers - {event.id};
          }
        case Other =>
      }
    }
    TracksMore(services, initial, earlier, event);
  }

  lemma LiveMore(services: set<string>, initial: seq<Item>, earlier: seq<Message>, m: Message, id: string)
    ensures Live(services, initial, earlier + [m], id) <==>
              m.Brings(services, id) || (Live(services, initial, earlier, id) && !m.TakesAway(services, id))
  {
    var more := earlier + [m];
    forall k: nat | k <= |earlier|
      ensures Stays(services, more, k, id) <==> Stays(services, earlier, k, id) && !m.TakesAway(services, id)
    {
      assert more[|earlier|] == m;
      assert forall j :: k <= j < |earlier| ==> more[j] == earlier[j];
    }
    if m.Brings(services, id) {
      assert more[|earlier|].Brings(services, id) && Stays(services, more, |earlier| + 1, id);
    }
    forall k | 0 <= k < |earlier| ensures more[k] == earlier[k] {
    }
  }

  lemma TracksMore(services: set<string>, initial: seq<Item>, earlier: seq<Message>, m: Message)
    ensures forall id :: Live(services, initial, earlier + [m], id) <==>
                           m.Brings(services, id) ||
                           (Live(services, initial, earlier, id) && !m.TakesAway(services, id))
    ensures forall id :: WasRestarting(services, earlier + [m], id) <==>
                           WasRestarting(services, earlier, id) ||
                           (m.Watched(services) && m.id == id && m.action == Die && m.aftermath == StillUp)
    ensures Delivered(services, earlier + [m]) == Delivered(services, earlier) + Told(services, earlier, m)
  {
    forall id {
      LiveMore(services, initial, earlier, m, id);
    }
    assert (earlier + [m])[..|earlier|] == earlier;
  }

  // ---- what the listeners make of it ----

  /** Which event a message of a watched service with exit code n leads to. */
  lemma ToldIs(services: set<string>, earlier: seq<Message>, m: Message, n: int)
    requires m.exitCode == Some(Itoa(n)) || (m.exitCode.None? && n == 0)
    ensures services != {} && m.service !in services ==> Told(services, earlier, m) == []
    ensures services == {} || m.service in services ==>
              Told(services, earlier, m) ==
              match m.action
              case Create => [ContainerEvent(if m.replaced then Recreated else Created, m.id, m.service, n, false)]
              case Start =>
                [ContainerEvent(Started, m.id, m.service, n,
                   exists e <- earlier :: (services == {} || e.service in services) && e.id == m.id &&
                                          e.action == Die && e.aftermath == StillUp)]
              case Restart => [ContainerEvent(Restarted, m.id, m.service, n, false)]
              case Die => [ContainerEvent(Exited, m.id, m.service, n, m.aftermath == StillUp)]
              case Other => []
  {
    AtoiItoa(n);
  }

  predicate Arrives(e: ContainerEvent, id: string) {
    e.id == id && e.kind in {Created, Recreated, Started}
  }

  predicate Leaves(e: ContainerEvent, id: string) {
    e.id == id && e.kind == Exited && !e.restarting
  }

  /** The container is there by the events: it was or arrived, and has not left. */
  ghost predicate Shown(initially: bool, events: seq<ContainerEvent>, id: string) {
    || (initially && Remains(events, 0, id))
    || exists k :: 0 <= k < |events| && Arrives(events[k], id) && Remains(events, k + 1, id)
  }

  ghost predicate Remains(events: seq<ContainerEvent>, from: nat, id: string) {
    forall j :: from <= j < |events| ==> !Leaves(events[j], id)
  }

  lemma ShownMore(initially: bool, events: seq<ContainerEvent>, e: ContainerEvent, id: string)
    ensures Shown(initially, events + [e], id) <==> Arrives(e, id) || (Shown(initially, events, id) && !Leaves(e, id))
  {
    var more := events + [e];
    forall k: nat | k <= |events|
      ensures Remains(more, k, id) <==> Remains(events, k, id) && !Leaves(e, id)
    {
      assert more[|events|] == e;
      assert forall j :: k <= j < |events| ==> more[j] == events[j];
    }
    if Arrives(e, id) {
      assert Arrives(more[|events|], id) && Remains(more, |events| + 1, id);
    }
    assert forall k :: 0 <= k < |events| ==> more[k] == events[k];
  }

  /** A listener that follows the events knows which containers are live. */
  lemma ListenersKnow(services: set<string>, initial: seq<Item>, messages: seq<Message>, id: string)
    requires forall m <- messages :: !m.Breaks(services)
    ensures Live(services, initial, messages, id) <==>
              Shown(exists i <- initial :: i.id == id && (services == {} || i.service in services),
                    Delivered(services, messages), id)
  {
    ShownIffLive(services, initial, messages, id);
    hide Live, Shown, Delivered;
  }

  lemma {:induction false} ShownIffLive(services: set<string>, initial: seq<Item>, messages: seq<Message>, id: string)
    requires forall m <- messages :: !m.Breaks(services)
    ensures Live(services, initial, messages, id) <==>
              Shown(Found(services, initial, id), Delivered(services, messages), id)
  {
    hide Live, Shown, Found;
    if messages == [] {
      TracksNone(services, initial);
      ShownNone(Found(services, initial, id), id);
    } else {
      var n := |messages| - 1;
      var earlier, m := messages[..n], messages[n];
      ShownIffLive(services, initial, earlier, id);
      assert messages == earlier + [m];
      LiveMore(services, initial, earlier, m, id);
      var told := Told(services, earlier, m);
      assert !m.Breaks(services) && m in messages;
      if told != [] {
        ShownMore(Found(services, initial, id), Delivered(services, earlier), told[0], id);
        assert told == [told[0]];
      } else {
        assert Delivered(services, messages) == Delivered(services, earlier);
      }
    }
  }

  lemma ShownNone(initially: bool, id: string)
    ensures Shown(initially, [], id) <==> initially
  {
  }
}

/** The two listeners of up that share the exit code (pkg/compose/up.go:202-235). */
module ExitCodes {
  import opened Wrappers
  import opened Monitoring

  datatype Cascade = CascadeIgnore | CascadeStop | CascadeFail

  /** Which listeners are registered; an empty name means no ExitCodeFrom. */
  datatype Options = Options(onExit: Cascade, exitCodeFrom: string) {
    /** The event shuts the application down, if it is the first such. */
    predicate Triggers(e: ContainerEvent) {
      onExit != CascadeIgnore && e.kind == Exited && (onExit == CascadeFail ==> e.exitCode != 0)
    }

    predicate Selected(e: ContainerEvent) {
      exitCodeFrom != "" && e.kind == Exited && e.service == exitCodeFrom
    }

    predicate Fires(l: Listener, e: ContainerEvent) {
      if l == OnExit then Triggers(e) else Selected(e)
    }

    /** The first event on which a listener acts. */
    ghost predicate IsFirst(l: Listener, events: seq<ContainerEvent>, i: int) {
      0 <= i < |events| && Fires(l, events[i]) && forall j :: 0 <= j < i ==> !Fires(l, events[j])
    }

    function First(l: Listener, events: seq<ContainerEvent>): (first: Option<nat>)
      ensures first.Some? ==> first.value < |events| && Fires(l, events[first.value])
    {
      if events == [] then None
      else
        var n := |events| - 1;
        match First(l, events[..n])
        case Some(i) => Some(i)
        case None => if Fires(l, events[n]) then Some(n) else None
    }

    lemma {:induction false} FirstIsFirst(l: Listener, events: seq<ContainerEvent>)
      ensures forall i: nat :: First(l, events) == Some(i) <==> IsFirst(l, events, i)
      ensures First(l, events).None? <==> forall e <- events :: !Fires(l, e)
    {
      if events != [] {
        var n := |events| - 1;
        FirstIsFirst(l, events[..n]);
        assert events == events[..n] + [events[n]];
        forall i: nat ensures IsFirst(l, events, i) <==>
            IsFirst(l, events[..n], i) || (i == n && Fires(l, events[n]) && First(l, events[..n]).None?)
        {
          if i == n {
            assert (forall j :: 0 <= j < n ==> !Fires(l, events[j])) <==> forall e <- events[..n] :: !Fires(l, e);
          }
        }
      }
    }

    /** The later of the two writes decides; on one event that of ExitCodeFrom,
        whose listener is registered after the other. */
    function Written(events: seq<ContainerEvent>): int {
      match (First(OnExit, events), First(ExitCodeFrom, events))
      case (Some(i), Some(j)) => events[if i <= j then j else i].exitCode
      case (Some(i), None) => events[i].exitCode
      case (None, Some(j)) => events[j].exitCode
      case (None, None) => 0
    }
  }

  datatype Listener = OnExit | ExitCodeFrom

  /** Event i is the first exit; of the service, if one is given, and with a code
      other than zero, if it is to be a failure. */
  ghost predicate FirstExit(events: seq<ContainerEvent>, service: string, failing: bool, i: int) {
    && 0 <= i < |events| && Exits(events[i], service, failing)
    && forall j :: 0 <= j < i ==> !Exits(events[j], service, failing)
  }

  predicate Exits(e: ContainerEvent, service: string, failing: bool) {
    e.kind == Exited && (service == "" || e.service == service) && (failing ==> e.exitCode != 0)
  }

  lemma FirstExitIs(options: Options, events: seq<ContainerEvent>)
    ensures options.onExit != CascadeIgnore ==>
              forall i ::
                options.IsFirst(OnExit, events, i) <==> FirstExit(events, "", options.onExit == CascadeFail, i)
    ensures options.exitCodeFrom != "" ==>
              forall i ::
                options.IsFirst(ExitCodeFrom, events, i) <==> FirstExit(events, options.exitCodeFrom, false, i)
    ensures options.onExit == CascadeIgnore ==> options.First(OnExit, events).None?
    ensures options.exitCodeFrom == "" ==> options.First(ExitCodeFrom, events).None?
  {
    options.FirstIsFirst(OnExit, events);
    options.FirstIsFirst(ExitCodeFrom, events);
    forall e ensures options.onExit != CascadeIgnore ==>
                       (options.Fires(OnExit, e) <==> Exits(e, "", options.onExit == CascadeFail))
      ensures options.exitCodeFrom != "" ==>
                (options.Fires(ExitCodeFrom, e) <==> Exits(e, options.exitCodeFrom, false))
    {
    }
  }

  class UpListeners {
    const options: Options
    var exitCode: int
    var cascadeOnce: bool
    var selectedOnce: bool
    var stops: nat   // how often the project was asked to stop
    ghost var events: seq<ContainerEvent>

    ghost predicate Valid()
      reads this
    {
      && (cascadeOnce <==> options.First(OnExit, events).None?)
      && (selectedOnce <==> options.First(ExitCodeFrom, events).None?)
      && stops == (if cascadeOnce then 0 else 1)
      && exitCode == options.Written(events)
    }

    constructor (options: Options)
      ensures Valid() && this.options == options && events == []
    {
      this.options := options;
      exitCode, cascadeOnce, selectedOnce, stops, events := 0, true, true, 0, [];
    }

    method HandleEvent(event: ContainerEvent)
      requires Valid()
      modifies this
      ensures Valid() && events == old(events) + [event]
    {
      hide Options.First, Options.Written;
      FirstMore(options, OnExit, events, event);
      FirstMore(options, ExitCodeFrom, events, event);
      WrittenMore(options, events, event);
      if options.onExit != CascadeIgnore {
        if cascadeOnce && event.kind == Exited {
          if !(options.onExit == CascadeFail && event.exitCode == 0) {
            cascadeOnce := false;
            exitCode := event.exitCode;
            stops := stops + 1;
          }
        }
      }
      if options.exitCodeFrom != "" {
        if selectedOnce && event.kind == Exited && event.service == options.exitCodeFrom {
          exitCode := event.exitCode;
          selectedOnce := false;
        }
      }
      events := events + [event];
    }

    /** Without abort, the exit code is that of the first exit of the selected
        service, and the project is not asked to stop. */
    lemma IgnoreAndSelect(j: nat)
      requires Valid() && options.onExit == CascadeIgnore && options.exitCodeFrom != ""
      requires FirstExit(events, options.exitCodeFrom, false, j)
      ensures exitCode == events[j].exitCode && stops == 0
    {
      FirstExitIs(options, events);
      options.FirstIsFirst(ExitCodeFrom, events);
    }

    /** Abort on exit and take the code of one service: the exit code is that of
        its first exit, and stop is requested once. */
    lemma StopAndSelect(j: nat)
      requires Valid() && options.onExit == CascadeStop && options.exitCodeFrom != ""
      requires FirstExit(events, options.exitCodeFrom, false, j)
      ensures exitCode == events[j].exitCode && stops == 1
    {
      FirstExitIs(options, events);
      options.FirstIsFirst(OnExit, events);
      options.FirstIsFirst(ExitCodeFrom, events);
      assert options.Fires(OnExit, events[j]) && events[j] in events;
    }

    /** Without an exit of that service, the first exit that stops the project
        decides: any, or with abort on failure one with a code other than zero. */
    lemma StopWithoutSelected(i: nat)
      requires Valid() && options.onExit != CascadeIgnore && FirstExit(events, "", options.onExit == CascadeFail, i)
      requires options.exitCodeFrom != "" ==>
                 forall e <- events :: !(e.kind == Exited && e.service == options.exitCodeFrom)
      ensures exitCode == events[i].exitCode && stops == 1
    {
      FirstExitIs(options, events);
      options.FirstIsFirst(OnExit, events);
      options.FirstIsFirst(ExitCodeFrom, events);
      assert options.IsFirst(OnExit, events, i);
    }

    /** With abort on failure the code of the selected service is lost if and
        only if the first failing exit of all comes after its own. */
    lemma FailAndSelect(j: nat)
      requires Valid() && options.onExit == CascadeFail && options.exitCodeFrom != ""
      requires FirstExit(events, options.exitCodeFrom, false, j)
      ensures exitCode == events[j].exitCode <==> !exists i: nat :: j < i && FirstExit(events, "", true, i)
    {
      FirstExitIs(options, events);
      options.FirstIsFirst(OnExit, events);
      options.FirstIsFirst(ExitCodeFrom, events);
      assert options.IsFirst(ExitCodeFrom, events, j);
      if i: nat :| j < i && FirstExit(events, "", true, i) {
        assert options.IsFirst(OnExit, events, i);
        assert !Exits(events[j], "", true) && Exits(events[i], "", true);
      } else if options.First(OnExit, events).Some? {
        assert options.IsFirst(OnExit, events, options.First(OnExit, events).value);
      }
    }

    /** Nothing exits: no stop and the code zero. */
    lemma NobodyExits()
      requires Valid() && forall e <- events :: e.kind != Exited
      ensures exitCode == 0 && stops == 0
    {
      options.FirstIsFirst(OnExit, events);
      options.FirstIsFirst(ExitCodeFrom, events);
    }
  }

  lemma FirstMore(options: Options, l: Listener, events: seq<ContainerEvent>, event: ContainerEvent)
    ensures options.First(l, events + [event]) ==
              if options.First(l, events).Some? then options.First(l, events)
              else if options.Fires(l, event) then Some(|events|) else None
  {
  }

  lemma WrittenMore(options: Options, events: seq<ContainerEvent>, event: ContainerEvent)
    ensures options.Written(events + [event]) ==
              if (options.First(OnExit, events).None? && options.Triggers(event)) ||
                 (options.First(ExitCodeFrom, events).None? && options.Selected(event))
              then event.exitCode else options.Written(events)
  {
  }
}
