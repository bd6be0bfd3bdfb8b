/** What the visitors see: the calls and returns recorded in the log of a run.
    The statements below hold for every interleaving, with failing visitors and
    with a context cancelled at any moment. */
module SchedulerTrace {
  import opened Wrappers
  import opened Collections
  import opened Digraphs
  import opened Scheduler
  import opened SchedulerInvariant

  /** Everything that v transitively comes after has ended well in the log, or
      is ignored. */
  ghost predicate Cleared(c: Config, log: seq<Event>, v: Name) {
    forall u | Reaches(c.before, v, u) && u !in c.ignored :: End(u, true) in log
  }

  /** No call or return twice; a return after its call; and a call only when
      everything before the vertex is done. */
  ghost predicate WellOrdered(c: Config, log: seq<Event>) {
    && Distinct(log)
    && (forall i, v, ok | 0 <= i < |log| && log[i] == End(v, ok) :: Start(v) in log[..i])
    && (forall i, v | 0 <= i < |log| && log[i] == Start(v) :: Cleared(c, log[..i], v))
  }

  predicate Begun(p: Phase) {
    p.Visiting? || p.Returned? || p.Updated? || p.Delivered()
  }

  predicate EndedWith(p: Phase, ok: bool) {
    (p.Returned? || p.Updated? || p.Delivered()) && p.ok == ok
  }

  /** The log holds exactly the calls and returns that the phases imply. */
  ghost predicate Recorded(c: Config, s: State) {
    forall v :: RecordedAt(c, s, v)
  }

  ghost predicate RecordedAt(c: Config, s: State, v: Name) {
    && (Start(v) in s.log <==> v in s.phase && v !in c.ignored && Begun(s.phase[v]))
    && (End(v, true) in s.log <==> v in s.phase && v !in c.ignored && EndedWith(s.phase[v], true))
    && (End(v, false) in s.log <==> v in s.phase && v !in c.ignored && EndedWith(s.phase[v], false))
    && (v in s.phase && v in c.ignored ==> !s.phase[v].Visiting? && !s.phase[v].Failed())
  }

  /** Whatever a consumed vertex comes after, at any distance, has finished. */
  lemma {:induction false} AllBeforeFinished(c: Config, s: State, p: seq<Name>)
    requires Ordered(c, s) && Walk(c.before, p) && |p| >= 2 && Committed(s, p[0])
    ensures p[|p| - 1] in s.phase && s.phase[p[|p| - 1]].Finished()
    decreases |p|
  {
    assert c.before.Edge(p[0], p[1]);
    assert p[1] in c.Before(p[0]);
    if |p| > 2 {
      SubWalk(c.before, p, 1, |p|);
      AllBeforeFinished(c, s, p[1..|p|]);
    }
  }

  lemma CommittedIsCleared(c: Config, s: State, v: Name)
    requires Ordered(c, s) && Recorded(c, s) && Committed(s, v)
    ensures Cleared(c, s.log, v)
  {
    forall u | Reaches(c.before, v, u) && u !in c.ignored ensures End(u, true) in s.log {
      var p :| Connects(c.before, p, v, u);
      AllBeforeFinished(c, s, p);
      assert RecordedAt(c, s, u);
      assert EndedWith(s.phase[u], true);
    }
  }

  lemma KeepsRecorded(c: Config, s: State, a: Action)
    requires Shape(c, s) && Working(c, s) && Claims(s) && Recorded(c, s) && Enabled(c, s, a)
    ensures Recorded(c, Next(c, s, a))
  {
    hide NextQueue, NextReceived, NextLauncher, NextFailure, NextStatus, NextLog, NextPhase;
    MovesOn(c, s, a);
    hide Claims, Working, RecordedAt, Follows;
    forall v ensures RecordedAt(c, Next(c, s, a), v) {
      assert RecordedAt(c, s, v);
      KeepsRecordedAt(c, s, a, v);
    }
  }

  lemma KeepsRecordedAt(c: Config, s: State, a: Action, v: Name)
    requires RecordedAt(c, s, v) && Enabled(c, s, a)
    requires var m := Mover(c, s, a); m.Move? ==> m.v in s.phase && Follows(s.phase[m.v], m.to)
    ensures RecordedAt(c, Next(c, s, a), v)
  {
    hide NextStatus, NextQueue, NextReceived, NextFailure, NextLauncher;
  }

  /** The log grows by at most one event, for which the order holds. */
  lemma KeepsWellOrdered(c: Config, s: State, a: Action)
    requires Shape(c, s) && Ordered(c, s) && Recorded(c, s) && Enabled(c, s, a) && WellOrdered(c, s.log)
    ensures WellOrdered(c, NextLog(c, s, a))
  {
    if a.Begin? && a.v !in c.ignored {
      assert RecordedAt(c, s, a.v);
      CommittedIsCleared(c, s, a.v);
      Extended(c, s.log, Start(a.v));
    } else if a.Return? {
      assert RecordedAt(c, s, a.v);
      Extended(c, s.log, End(a.v, a.ok));
    }
  }

  lemma Extended(c: Config, log: seq<Event>, e: Event)
    requires WellOrdered(c, log) && e !in log
    requires e.Start? ==> Cleared(c, log, e.v)
    requires e.End? ==> Start(e.v) in log
    ensures WellOrdered(c, log + [e])
  {
    var longer := log + [e];
    DistinctEnds(log, e);
    assert forall i | 0 <= i <= |log| :: longer[..i] == log[..i];
    assert longer[..|log|] == log;
  }

  lemma {:induction false} RunRecorded(c: Config, actions: seq<Action>)
    requires c.Valid()
    ensures Run(c, actions).Some? ==>
              var s := Run(c, actions).value; Inv(c, s) && Recorded(c, s) && WellOrdered(c, s.log)
  {
    RunInv(c, actions);
    if actions != [] && Run(c, actions).Some? {
      var earlier, a := actions[..|actions| - 1], actions[|actions| - 1];
      RunRecorded(c, earlier);
      var s := Run(c, earlier).value;
      KeepsRecorded(c, s, a);
      KeepsWellOrdered(c, s, a);
    }
  }

  /** Order safety. In every run, a visitor is called at most once, and only
      when everything its vertex transitively depends on has returned without
      error (or is ignored). */
  lemma OrderSafety(c: Config, actions: seq<Action>)
    requires c.Valid() && Run(c, actions).Some?
    ensures WellOrdered(c, Run(c, actions).value.log)
    ensures forall v | Start(v) in Run(c, actions).value.log :: v in c.Nodes() && v !in c.ignored
  {
    hide WellOrdered, Run, StatusAgrees, Ordered, Claims, Delivery, Awake, CoordinatorEnds, MainEnds, Errors;
    RunRecorded(c, actions);
    forall v | Start(v) in Run(c, actions).value.log ensures v in c.Nodes() && v !in c.ignored {
      assert RecordedAt(c, Run(c, actions).value, v);
    }
  }

  /** Nothing downstream of a failed vertex is ever visited: what a visited
      vertex comes after has not failed. */
  lemma NothingAfterFailure(c: Config, actions: seq<Action>, v: Name, u: Name)
    requires c.Valid() && Run(c, actions).Some?
    requires Start(v) in Run(c, actions).value.log && Reaches(c.before, v, u)
    ensures End(u, false) !in Run(c, actions).value.log
  {
    RunRecorded(c, actions);
    var s := Run(c, actions).value;
    assert RecordedAt(c, s, u);
    var i :| 0 <= i < |s.log| && s.log[i] == Start(v);
    assert Cleared(c, s.log[..i], v);
    assert u in c.ignored || End(u, true) in s.log[..i];
  }
}
