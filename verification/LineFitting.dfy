/** The layout of the progress lines on a terminal (cmd/display/tty.go:331-504,
    567-586), for text in which every character takes one column. Colours are
    left out, so a text is what is seen of it. */
module LineFitting {

  datatype Line = Line(
    prefix: string, taskID: string, progress: string, status: string, details: string, timer: string,
    statusPad: nat, timerPad: nat)
  {
    /** space, spinner, prefix, space, taskID, progress */
    function Before(): nat {
      3 + |prefix| + |taskID| + |progress|
    }

    function DetailsLen(): nat {
      if details == "" then 0 else 1 + |details|
    }

    function StatusColumn(): nat {
      Before() + statusPad + 1
    }

    function TimerColumn(): nat {
      StatusColumn() + |status| + DetailsLen() + timerPad
    }

    /** What truncation can still take away. */
    function Slack(): nat {
      |details| + if |taskID| > MIN_ID_LEN then |taskID| - MIN_ID_LEN else 0
    }
  }

  const MIN_ID_LEN := 10
  const PASSES := 100

  function Max(a: int, b: int): int {
    if a > b then a else b
  }

  function Min(a: int, b: int): int {
    if a < b then a else b
  }

  function Spaces(n: nat): string {
    seq(n, _ => ' ')
  }

  /** lineText, with a star for the spinner and without the newline. */
  function LineText(l: Line): string {
    " *" + l.prefix + " " + l.taskID + l.progress + Spaces(l.statusPad) + " " + l.status
    + (if l.details == "" then "" else " " + l.details) + Spaces(l.timerPad) + l.timer
  }

  ghost predicate At(text: string, column: int, part: string) {
    0 <= column && column + |part| <= |text| && text[column..column + |part|] == part
  }

  /** The columns of a line are where the text has the status and the timer. */
  lemma TextLayout(l: Line)
    ensures |LineText(l)| == l.TimerColumn() + |l.timer|
    ensures At(LineText(l), l.StatusColumn(), l.status) && At(LineText(l), l.TimerColumn(), l.timer)
  {
  }

  /** The other parts stand at the left, one after the other, with the spinner in
      column one; the details follow the status; all the rest is blank. */
  lemma TextParts(l: Line)
    ensures var text := LineText(l);
      && At(text, 0, " *" + l.prefix + " " + l.taskID + l.progress)
      && AllBlank(text, 3 + |l.prefix| + |l.taskID| + |l.progress|, l.statusPad + 1)
      && At(text, 3 + |l.prefix| + |l.taskID| + |l.progress| + l.statusPad + 1,
            l.status + if l.details == "" then "" else " " + l.details)
      && AllBlank(text, |text| - |l.timer| - l.timerPad, l.timerPad)
      && At(text, |text| - |l.timer|, l.timer)
  {
    var left := " *" + l.prefix + " " + l.taskID + l.progress;
    var middle := l.status + if l.details == "" then "" else " " + l.details;
    assert LineText(l) == left + Spaces(l.statusPad) + " " + middle + Spaces(l.timerPad) + l.timer;
  }

  /** There are n blanks from the column on. */
  ghost predicate AllBlank(text: string, column: int, n: nat) {
    0 <= column && column + n <= |text| && forall i :: column <= i < column + n ==> text[i] == ' '
  }

  // ---- widths ----

  function MaxStatus(ls: seq<Line>): nat {
    if ls == [] then 0 else Max(MaxStatus(ls[..|ls| - 1]), |ls[|ls| - 1].status|)
  }

  function MaxBefore(ls: seq<Line>): nat {
    if ls == [] then 0 else Max(MaxBefore(ls[..|ls| - 1]), ls[|ls| - 1].Before())
  }

  function MaxTimer(ls: seq<Line>): nat {
    if ls == [] then 0 else Max(MaxTimer(ls[..|ls| - 1]), |ls[|ls| - 1].timer|)
  }

  function MaxDetails(ls: seq<Line>): nat {
    if ls == [] then 0 else Max(MaxDetails(ls[..|ls| - 1]), ls[|ls| - 1].DetailsLen())
  }

  function TotalSlack(ls: seq<Line>): nat {
    if ls == [] then 0 else TotalSlack(ls[..|ls| - 1]) + ls[|ls| - 1].Slack()
  }

  /** The width that the aligned lines need, with one space before the timer. */
  function Width(ls: seq<Line>, timerLen: nat): nat {
    MaxBefore(ls) + 1 + MaxStatus(ls) + MaxDetails(ls) + 1 + timerLen
  }

  ghost predicate Fits(ls: seq<Line>, timerLen: nat, terminalWidth: int) {
    ls == [] || Width(ls, timerLen) <= terminalWidth
  }

  /** All that truncation may do to a line. */
  function Smallest(l: Line): Line {
    l.(details := "", taskID := if |l.taskID| > MIN_ID_LEN then l.taskID[..MIN_ID_LEN] else l.taskID)
  }

  function AllSmallest(ls: seq<Line>): seq<Line> {
    seq(|ls|, i requires 0 <= i < |ls| => Smallest(ls[i]))
  }

  method MaxStatusLength(lines: array<Line>) returns (maxLen: nat)
    ensures maxLen == MaxStatus(lines[..])
  {
    maxLen := 0;
    for i := 0 to lines.Length
      invariant maxLen == MaxStatus(lines[..i])
    {
      assert lines[..i + 1][..i] == lines[..i];
      if |lines[i].status| > maxLen {
        maxLen := |lines[i].status|;
      }
    }
    assert lines[..lines.Length] == lines[..];
  }

  method MaxBeforeStatusWidth(lines: array<Line>) returns (maxWidth: nat)
    ensures maxWidth == MaxBefore(lines[..])
  {
    maxWidth := 0;
    for i := 0 to lines.Length
      invariant maxWidth == MaxBefore(lines[..i])
    {
      assert lines[..i + 1][..i] == lines[..i];
      var width := 3 + |lines[i].prefix| + |lines[i].taskID| + |lines[i].progress|;
      if width > maxWidth {
        maxWidth := width;
      }
    }
    assert lines[..lines.Length] == lines[..];
  }

  /** By how much the widest line is too wide. */
  method ComputeOverflow(lines: array<Line>, maxBeforeStatus: nat, maxStatusLen: nat, timerLen: nat, terminalWidth: int)
    returns (maxOverflow: nat)
    ensures maxOverflow == if lines.Length == 0 then 0
                           else Max(0, maxBeforeStatus + 1 + maxStatusLen + MaxDetails(lines[..]) + 1 + timerLen
                                       - terminalWidth)
  {
    maxOverflow := 0;
    for i := 0 to lines.Length
      invariant maxOverflow == if i == 0 then 0
                               else Max(0, maxBeforeStatus + 1 + maxStatusLen + MaxDetails(lines[..i]) + 1 + timerLen
                                           - terminalWidth)
    {
      assert lines[..i + 1][..i] == lines[..i];
      var detailsLen := |lines[i].details|;
      if detailsLen > 0 {
        detailsLen := detailsLen + 1;
      }
      var lineWidth := maxBeforeStatus + 1 + maxStatusLen + detailsLen + 1 + timerLen;
      var overflow := lineWidth - terminalWidth;
      if overflow > maxOverflow {
        maxOverflow := overflow;
      }
    }
    assert lines[..lines.Length] == lines[..];
  }

  // ---- truncation ----

  function ShorterDetails(details: string, overflow: nat): string {
    if |details| > 3 then details[..|details| - Min(overflow, |details| - 3) - 3] + "..." else ""
  }

  function ShorterID(taskID: string, overflow: nat): string {
    taskID[..Min(|taskID|, Max(|taskID| - (overflow + 3), MIN_ID_LEN - 3))] + "..."
  }

  ghost predicate FirstDetailed(ls: seq<Line>, i: int) {
    0 <= i < |ls| && ls[i].details != "" && forall j :: 0 <= j < i ==> ls[j].details == ""
  }

  /** The first of the longest task IDs. */
  ghost predicate FirstLongest(ls: seq<Line>, i: int) {
    && 0 <= i < |ls| && |ls[i].taskID| > MIN_ID_LEN
    && (forall j :: 0 <= j < |ls| ==> |ls[j].taskID| <= |ls[i].taskID|)
    && forall j :: 0 <= j < i ==> |ls[j].taskID| < |ls[i].taskID|
  }

  /** One truncation: of the first details, or else of the longest task ID. */
  ghost predicate Step(before: seq<Line>, after: seq<Line>, overflow: nat) {
    if NoDetails(before) then exists i :: FirstLongest(before, i) && after == before[i := CutID(before[i], overflow)]
    else exists i :: FirstDetailed(before, i) && after == before[i := CutDetails(before[i], overflow)]
  }

  ghost predicate NoDetails(ls: seq<Line>) {
    forall i :: 0 <= i < |ls| ==> ls[i].details == ""
  }

  ghost predicate ShortIDs(ls: seq<Line>) {
    forall i :: 0 <= i < |ls| ==> |ls[i].taskID| <= MIN_ID_LEN
  }

  function CutDetails(l: Line, overflow: nat): Line {
    l.(details := ShorterDetails(l.details, overflow))
  }

  function CutID(l: Line, overflow: nat): Line {
    l.(taskID := ShorterID(l.taskID, overflow))
  }

  method TruncateDetails(lines: array<Line>, overflow: nat) returns (truncated: bool)
    modifies lines
    ensures !truncated ==> lines[..] == old(lines[..]) && NoDetails(lines[..])
    ensures truncated ==> Step(old(lines[..]), lines[..], overflow)
  {
    for i := 0 to lines.Length
      invariant lines[..] == old(lines[..])
      invariant forall j :: 0 <= j < i ==> lines[j].details == ""
    {
      var l := lines[i];
      if l.details != "" {
        assert FirstDetailed(old(lines[..]), i);
        if |l.details| > 3 {
          var reduction := Min(overflow, |l.details| - 3);
          lines[i] := l.(details := l.details[..|l.details| - reduction - 3] + "...");
        } else {
          lines[i] := l.(details := "");
        }
        assert lines[..] == old(lines[..])[i := CutDetails(l, overflow)];
        return true;
      }
    }
    return false;
  }

  method TruncateLongestTaskID(lines: array<Line>, overflow: nat) returns (truncated: bool)
    requires NoDetails(lines[..])
    modifies lines
    ensures !truncated ==> lines[..] == old(lines[..]) && ShortIDs(lines[..])
    ensures truncated ==> Step(old(lines[..]), lines[..], overflow)
  {
    var longestIdx, longestLen := -1, MIN_ID_LEN;
    for i := 0 to lines.Length
      invariant -1 <= longestIdx < i && longestLen >= MIN_ID_LEN
      invariant if longestIdx < 0 then longestLen == MIN_ID_LEN
                else |lines[longestIdx].taskID| == longestLen > MIN_ID_LEN
      invariant forall j :: 0 <= j < i ==> |lines[j].taskID| <= longestLen
      invariant forall j :: 0 <= j < longestIdx ==> |lines[j].taskID| < longestLen
    {
      if |lines[i].taskID| > longestLen {
        longestLen := |lines[i].taskID|;
        longestIdx := i;
      }
    }
    if longestIdx < 0 {
      return false;
    }
    assert FirstLongest(old(lines[..]), longestIdx);
    var l := lines[longestIdx];
    var reduction := overflow + 3;
    var newLen := Max(|l.taskID| - reduction, MIN_ID_LEN - 3);
    if newLen > 0 {
      lines[longestIdx] := l.(taskID := l.taskID[..newLen] + "...");
    }
    assert lines[..] == old(lines[..])[longestIdx := CutID(l, overflow)];
    return true;
  }

  /** What a line keeps, however often it is truncated. */
  ghost predicate Kin(before: Line, after: Line) {
    && after == before.(details := after.details, taskID := after.taskID)
    && |after.taskID| <= |before.taskID|
    && (|before.taskID| <= MIN_ID_LEN ==> after.taskID == before.taskID)
    && (|before.taskID| > MIN_ID_LEN ==>
          |after.taskID| >= MIN_ID_LEN && after.taskID[..MIN_ID_LEN - 3] == before.taskID[..MIN_ID_LEN - 3])
  }

  ghost predicate AllKin(before: seq<Line>, after: seq<Line>) {
    |after| == |before| && forall i :: 0 <= i < |before| ==> Kin(before[i], after[i])
  }

  /** n truncations, each made because the lines did not fit. */
  ghost predicate Steps(before: seq<Line>, after: seq<Line>, n: nat, timerLen: nat, terminalWidth: int)
    decreases n
  {
    if n == 0 then after == before
    else exists mid :: Steps(before, mid, n - 1, timerLen, terminalWidth) && !Fits(mid, timerLen, terminalWidth)
                       && Step(mid, after, Width(mid, timerLen) - terminalWidth)
  }

  /** Truncates until the lines fit, nothing is left to truncate, or a hundred
      passes are over. */
  method AdjustLineWidth(lines: array<Line>, timerLen: nat, terminalWidth: int) returns (ghost passes: nat)
    modifies lines
    ensures passes <= 100 && Adjusted(old(lines[..]), lines[..], passes, timerLen, terminalWidth)
    ensures AsGoodAsPossible(old(lines[..]), lines[..], timerLen, terminalWidth)
  {
    hide Adjusted, AsGoodAsPossible, Fits, NoDetails, ShortIDs, MaxStatus, MaxBefore, MaxDetails;
    AdjustedNot(lines[..], timerLen, terminalWidth);
    var maxStatusLen := MaxStatusLength(lines);
    var pass, more := 0, true;
    while pass < PASSES && more
      invariant pass <= PASSES
      invariant Adjusted(old(lines[..]), lines[..], pass, timerLen, terminalWidth)
      invariant !more ==> Fits(lines[..], timerLen, terminalWidth) || (NoDetails(lines[..]) && ShortIDs(lines[..]))
      decreases PASSES - pass, more
    {
      SameMaxStatus(old(lines[..]), lines[..], pass, timerLen, terminalWidth);
      ghost var current := lines[..];
      more := Truncate(lines, maxStatusLen, timerLen, terminalWidth);
      if more {
        AdjustedMore(old(lines[..]), current, lines[..], pass, timerLen, terminalWidth);
        pass := pass + 1;
      }
    }
    passes := pass;
    AdjustedEnough(old(lines[..]), lines[..], pass, timerLen, terminalWidth);
  }

  /** One pass of the loop; more is whether it does not leave the loop. */
  method Truncate(lines: array<Line>, maxStatusLen: nat, timerLen: nat, terminalWidth: int) returns (more: bool)
    requires maxStatusLen == MaxStatus(lines[..])
    modifies lines
    ensures more ==> !Fits(old(lines[..]), timerLen, terminalWidth) &&
                     Step(old(lines[..]), lines[..], Width(old(lines[..]), timerLen) - terminalWidth)
    ensures !more ==> lines[..] == old(lines[..]) &&
                      (Fits(lines[..], timerLen, terminalWidth) || (NoDetails(lines[..]) && ShortIDs(lines[..])))
  {
    hide Step, NoDetails, ShortIDs, MaxBefore, MaxStatus, MaxDetails;
    var maxBeforeStatus := MaxBeforeStatusWidth(lines);
    var overflow := ComputeOverflow(lines, maxBeforeStatus, maxStatusLen, timerLen, terminalWidth);
    more := false;
    if overflow > 0 {
      more := TruncateDetails(lines, overflow);
      if !more {
        more := TruncateLongestTaskID(lines, overflow);
      }
    }
  }

  /** What the passes keep. */
  ghost predicate Adjusted(start: seq<Line>, ls: seq<Line>, pass: nat, timerLen: nat, terminalWidth: int) {
    && AllKin(start, ls)
    && (Fits(start, timerLen, terminalWidth) ==> ls == start)
    && TotalSlack(ls) + pass <= TotalSlack(start)
    && Counted(start, ls, pass, timerLen, terminalWidth)
    && Steps(start, ls, pass, timerLen, terminalWidth)
  }

  /** By how much the lines are too wide once no line has details. */
  function Bare(ls: seq<Line>, timerLen: nat, terminalWidth: int): int {
    MaxBefore(ls) + 1 + MaxStatus(ls) + 1 + timerLen - terminalWidth
  }

  /** The passes spent on details of length d, if the lines that come after are
      too wide by rest, and all would be by bare without details. */
  function LinePasses(d: nat, rest: int, bare: int): nat {
    var overflow := Max(bare + 1 + d, rest);
    if d == 0 || overflow <= 0 then 0
    else if d <= 3 then 1
    else 1 + LinePasses(Max(d - overflow, 3), rest, bare)
  }

  /** The passes spent on details before the lines fit or have none. */
  function DetailPasses(ls: seq<Line>, bare: int): nat {
    if ls == [] then 0
    else LinePasses(|ls[0].details|, bare + MaxDetails(ls[1..]), bare) + DetailPasses(ls[1..], bare)
  }

  function IDSlack(ls: seq<Line>): nat {
    if ls == [] then 0
    else
      var id := ls[|ls| - 1].taskID;
      IDSlack(ls[..|ls| - 1]) + if |id| > MIN_ID_LEN then |id| - MIN_ID_LEN else 0
  }

  /** Where the task ID to be cut is, or -1. */
  ghost function Longest(ls: seq<Line>): (i: int)
    ensures if i < 0 then ShortIDs(ls) else FirstLongest(ls, i)
  {
    if ls == [] then -1
    else
      var n := |ls| - 1;
      var i := Longest(ls[..n]);
      if |ls[n].taskID| > (if i < 0 then MIN_ID_LEN else |ls[i].taskID|) then n else i
  }

  /** The passes spent on the task IDs of lines without details, before they fit
      or have short IDs. */
  ghost function IDPasses(ls: seq<Line>, timerLen: nat, terminalWidth: int): nat
    decreases IDSlack(ls)
  {
    var i, overflow := Longest(ls), Bare(ls, timerLen, terminalWidth);
    if i < 0 || overflow <= 0 then 0
    else
      var after := ls[i := CutID(ls[i], overflow)];
      CutShrinks(ls[i], overflow);
      IDSlackAt(ls, i, after[i]);
      1 + IDPasses(after, timerLen, terminalWidth)
  }

  function WithoutDetails(ls: seq<Line>): seq<Line> {
    seq(|ls|, i requires 0 <= i < |ls| => ls[i].(details := ""))
  }

  /** A hundred passes suffice for those spent on details and those spent on task
      IDs afterwards. */
  ghost predicate Suffices(start: seq<Line>, timerLen: nat, terminalWidth: int) {
    DetailPasses(start, Bare(start, timerLen, terminalWidth))
    + IDPasses(WithoutDetails(start), timerLen, terminalWidth) <= 100
  }

  /** The lines fit exactly if the smallest ones do and the passes suffice. */
  ghost predicate AsGoodAsPossible(start: seq<Line>, ls: seq<Line>, timerLen: nat, terminalWidth: int) {
    Fits(ls, timerLen, terminalWidth) <==>
    Fits(AllSmallest(start), timerLen, terminalWidth) && Suffices(start, timerLen, terminalWidth)
  }

  /** How many passes are spent: on the details first, then on the task IDs. */
  ghost predicate Counted(start: seq<Line>, ls: seq<Line>, pass: nat, timerLen: nat, terminalWidth: int) {
    var bare := Bare(start, timerLen, terminalWidth);
    || (WithoutDetails(ls) == WithoutDetails(start) && DetailPasses(ls, bare) + pass == DetailPasses(start, bare))
    || (NoDetails(ls) && IDPasses(ls, timerLen, terminalWidth) + pass ==
                         DetailPasses(start, bare) + IDPasses(WithoutDetails(start), timerLen, terminalWidth))
  }

  lemma AdjustedNot(start: seq<Line>, timerLen: nat, terminalWidth: int)
    ensures Adjusted(start, start, 0, timerLen, terminalWidth)
  {
  }

  lemma SameMaxStatus(start: seq<Line>, ls: seq<Line>, pass: nat, timerLen: nat, terminalWidth: int)
    requires Adjusted(start, ls, pass, timerLen, terminalWidth)
    ensures MaxStatus(ls) == MaxStatus(start)
  {
    SameStatuses(ls, start);
  }

  lemma AdjustedMore(start: seq<Line>, before: seq<Line>, after: seq<Line>, pass: nat,
                     timerLen: nat, terminalWidth: int)
    requires Adjusted(start, before, pass, timerLen, terminalWidth) && !Fits(before, timerLen, terminalWidth)
    requires Step(before, after, Width(before, timerLen) - terminalWidth)
    ensures Adjusted(start, after, pass + 1, timerLen, terminalWidth)
  {
    hide AllKin, TotalSlack, Step, Steps, Counted, MaxBefore, MaxStatus, MaxDetails;
    StepShrinks(start, before, after, Width(before, timerLen) - terminalWidth);
    CountedMore(start, before, after, pass, timerLen, terminalWidth);
    StepsMore(start, before, after, pass, timerLen, terminalWidth);
  }

  lemma StepsMore(start: seq<Line>, before: seq<Line>, after: seq<Line>, n: nat, timerLen: nat, terminalWidth: int)
    requires Steps(start, before, n, timerLen, terminalWidth) && !Fits(before, timerLen, terminalWidth)
    requires Step(before, after, Width(before, timerLen) - terminalWidth)
    ensures Steps(start, after, n + 1, timerLen, terminalWidth)
  {
  }

  lemma AdjustedEnough(start: seq<Line>, ls: seq<Line>, pass: nat, timerLen: nat, terminalWidth: int)
    requires Adjusted(start, ls, pass, timerLen, terminalWidth)
    requires pass <= PASSES
    requires pass == PASSES || Fits(ls, timerLen, terminalWidth) || (NoDetails(ls) && ShortIDs(ls))
    ensures AsGoodAsPossible(start, ls, timerLen, terminalWidth)
  {
    SmallestFit(start, ls, timerLen, terminalWidth);
    PassesOver(start, ls, pass, timerLen, terminalWidth);
    hide Fits, AllKin, Steps, TotalSlack, NoDetails, ShortIDs, AllSmallest, Suffices, Counted;
  }

  /** All passes were spent if the lines fit or cannot be truncated, and else
      some are lacking. */
  lemma PassesOver(start: seq<Line>, ls: seq<Line>, pass: nat, timerLen: nat, terminalWidth: int)
    requires Counted(start, ls, pass, timerLen, terminalWidth) && pass <= PASSES
    ensures Fits(ls, timerLen, terminalWidth) || (NoDetails(ls) && ShortIDs(ls)) ==>
              Suffices(start, timerLen, terminalWidth)
    ensures pass == PASSES && Suffices(start, timerLen, terminalWidth) ==>
              Fits(ls, timerLen, terminalWidth) || (NoDetails(ls) && ShortIDs(ls))
  {
    SameWithoutDetails(ls, timerLen, terminalWidth);
    SameWithoutDetails(start, timerLen, terminalWidth);
    NoDetailsWidth(ls);
    NoPassesLeft(ls, Bare(start, timerLen, terminalWidth));
    NoIDPasses(ls, timerLen, terminalWidth);
    NoIDPasses(WithoutDetails(ls), timerLen, terminalWidth);
    assert NoDetails(ls) ==> WithoutDetails(ls) == ls;
    hide NoDetails, ShortIDs, MaxStatus, MaxBefore, MaxDetails, DetailPasses, IDPasses, WithoutDetails;
  }

  lemma NoIDPasses(ls: seq<Line>, timerLen: nat, terminalWidth: int)
    ensures IDPasses(ls, timerLen, terminalWidth) == 0 <==> ShortIDs(ls) || Bare(ls, timerLen, terminalWidth) <= 0
  {
  }

  lemma {:induction false} SameWithoutDetails(ls: seq<Line>, timerLen: nat, terminalWidth: int)
    ensures MaxBefore(WithoutDetails(ls)) == MaxBefore(ls) && MaxStatus(WithoutDetails(ls)) == MaxStatus(ls)
    ensures Bare(WithoutDetails(ls), timerLen, terminalWidth) == Bare(ls, timerLen, terminalWidth)
  {
    if ls != [] {
      var n := |ls| - 1;
      SameWithoutDetails(ls[..n], timerLen, terminalWidth);
      assert WithoutDetails(ls)[..n] == WithoutDetails(ls[..n]);
    }
  }

  /** The passes spent on task IDs are at most the characters that can be taken
      from them. */
  lemma {:induction false} IDPassesAtMost(ls: seq<Line>, timerLen: nat, terminalWidth: int)
    ensures IDPasses(ls, timerLen, terminalWidth) <= IDSlack(ls)
    decreases IDSlack(ls)
  {
    var i, overflow := Longest(ls), Bare(ls, timerLen, terminalWidth);
    if i >= 0 && overflow > 0 {
      var after := ls[i := CutID(ls[i], overflow)];
      CutShrinks(ls[i], overflow);
      IDSlackAt(ls, i, after[i]);
      IDPassesAtMost(after, timerLen, terminalWidth);
    }
  }

  lemma SmallestFit(start: seq<Line>, ls: seq<Line>, timerLen: nat, terminalWidth: int)
    requires AllKin(start, ls)
    ensures Fits(ls, timerLen, terminalWidth) ==> Fits(AllSmallest(start), timerLen, terminalWidth)
    ensures Bare(start, timerLen, terminalWidth) <= 0 ==> Fits(AllSmallest(start), timerLen, terminalWidth)
    ensures NoDetails(ls) && ShortIDs(ls) && Fits(AllSmallest(start), timerLen, terminalWidth) ==>
              Fits(ls, timerLen, terminalWidth)
    ensures Fits(ls, timerLen, terminalWidth) <==> ls == [] || Bare(ls, timerLen, terminalWidth) + MaxDetails(ls) <= 0
  {
    SmallestIsSmaller(start, ls, timerLen);
    SmallestIsSmaller(start, start, timerLen);
    NoDetailsWidth(AllSmallest(start));
    hide AllKin, NoDetails, ShortIDs, MaxStatus, MaxBefore, MaxDetails;
  }

  /** A cut takes away the overflow, but leaves three or ten characters; details
      of at most three vanish. The rest of the line stays. */
  lemma CutShrinks(l: Line, overflow: nat)
    requires overflow > 0
    ensures |CutDetails(l, overflow).details| == if |l.details| > 3 then Max(|l.details| - overflow, 3) else 0
    ensures |l.taskID| > 10 ==> |CutID(l, overflow).taskID| == Max(|l.taskID| - overflow, 10)
    ensures l.details != "" ==> CutDetails(l, overflow).Slack() < l.Slack() && Kin(l, CutDetails(l, overflow))
    ensures |l.taskID| > 10 ==> CutID(l, overflow).Slack() < l.Slack() && Kin(l, CutID(l, overflow))
  {
  }

  /** What is left is the beginning, with three dots in place of the rest. */
  lemma CutTexts(l: Line, overflow: nat)
    requires overflow > 0
    ensures |l.details| > 3 ==>
              CutDetails(l, overflow).details == l.details[..|CutDetails(l, overflow).details| - 3] + "..."
    ensures |l.taskID| > 10 ==> CutID(l, overflow).taskID == l.taskID[..|CutID(l, overflow).taskID| - 3] + "..."
  {
  }

  /** A pass takes something away, and leaves the rest. */
  lemma StepShrinks(start: seq<Line>, before: seq<Line>, after: seq<Line>, overflow: nat)
    requires AllKin(start, before) && Step(before, after, overflow) && overflow > 0
    ensures AllKin(start, after) && TotalSlack(after) < TotalSlack(before)
  {
    if NoDetails(before) {
      var i :| FirstLongest(before, i) && after == before[i := CutID(before[i], overflow)];
      CutShrinks(before[i], overflow);
      OneShrinks(start, before, i, after[i]);
    } else {
      var i :| FirstDetailed(before, i) && after == before[i := CutDetails(before[i], overflow)];
      CutShrinks(before[i], overflow);
      OneShrinks(start, before, i, after[i]);
    }
    hide Kin, AllKin, TotalSlack, CutDetails, CutID;
  }

  lemma OneShrinks(start: seq<Line>, before: seq<Line>, i: nat, l: Line)
    requires AllKin(start, before) && i < |before| && Kin(before[i], l) && l.Slack() < before[i].Slack()
    ensures AllKin(start, before[i := l]) && TotalSlack(before[i := l]) < TotalSlack(before)
  {
    TotalSlackAt(before, i, l);
    KinAgain(start[i], before[i], l);
    hide Kin;
  }

  lemma KinAgain(a: Line, b: Line, c: Line)
    requires Kin(a, b) && Kin(b, c)
    ensures Kin(a, c)
  {
  }

  lemma {:induction false} TotalSlackAt(ls: seq<Line>, i: nat, l: Line)
    requires i < |ls|
    ensures TotalSlack(ls[i := l]) == TotalSlack(ls) - ls[i].Slack() + l.Slack()
  {
    var n := |ls| - 1;
    if i == n {
      assert ls[i := l][..n] == ls[..n];
    } else {
      assert ls[i := l][..n] == ls[..n][i := l];
      TotalSlackAt(ls[..n], i, l);
    }
  }

  lemma {:induction false} SameStatuses(a: seq<Line>, b: seq<Line>)
    requires |a| == |b| && forall i :: 0 <= i < |a| ==> a[i].status == b[i].status
    ensures MaxStatus(a) == MaxStatus(b)
  {
    if a != [] {
      SameStatuses(a[..|a| - 1], b[..|b| - 1]);
    }
  }

  /** The smallest lines need no more room than the truncated ones, and as much
      as those that cannot be truncated any further. */
  lemma {:induction false} SmallestIsSmaller(before: seq<Line>, after: seq<Line>, timerLen: nat)
    requires AllKin(before, after)
    ensures MaxStatus(AllSmallest(before)) == MaxStatus(after)
    ensures MaxBefore(AllSmallest(before)) <= MaxBefore(after) && MaxDetails(AllSmallest(before)) <= MaxDetails(after)
    ensures NoDetails(after) && ShortIDs(after) ==> Width(AllSmallest(before), timerLen) == Width(after, timerLen)
  {
    hide Kin, Smallest;
    if before != [] {
      var n := |before| - 1;
      SmallestIsSmaller(before[..n], after[..n], timerLen);
      assert AllSmallest(before)[..n] == AllSmallest(before[..n]);
      assert NoDetails(after) ==> NoDetails(after[..n]);
      assert ShortIDs(after) ==> ShortIDs(after[..n]);
      SmallestLine(before[n], after[n]);
    }
  }

  lemma SmallestLine(before: Line, after: Line)
    requires Kin(before, after)
    ensures var l := Smallest(before);
      && l.status == after.status && l.Before() <= after.Before() && l.DetailsLen() <= after.DetailsLen()
      && (after.details == "" ==> l.DetailsLen() == after.DetailsLen())
      && (|after.taskID| <= MIN_ID_LEN ==> l.Before() == after.Before())
  {
  }

  // ---- counting the passes ----

  lemma {:induction false} MaxDetailsFirst(ls: seq<Line>)
    requires ls != []
    ensures MaxDetails(ls) == Max(ls[0].DetailsLen(), MaxDetails(ls[1..]))
  {
    var n := |ls| - 1;
    if n > 0 {
      MaxDetailsFirst(ls[..n]);
      assert ls[..n][1..] == ls[1..][..n - 1];
    }
  }

  /** While the lines do not fit, each cut of details is one of the passes
      counted; when they fit, or no line has details, none is left. */
  lemma {:induction false} DetailCutCounts(ls: seq<Line>, i: nat, bare: int)
    requires FirstDetailed(ls, i) && bare + MaxDetails(ls) > 0
    ensures DetailPasses(ls[i := CutDetails(ls[i], bare + MaxDetails(ls))], bare) == DetailPasses(ls, bare) - 1
  {
    hide ShorterDetails, ShorterID, Kin, Line.Slack, MaxDetails;
    MaxDetailsFirst(ls);
    var cut := CutDetails(ls[i], bare + MaxDetails(ls));
    if i == 0 {
      CutShrinks(ls[0], bare + MaxDetails(ls));
      assert ls[0 := cut][1..] == ls[1..];
    } else {
      assert ls[i := cut][1..] == ls[1..][i - 1 := cut];
      DetailCutCounts(ls[1..], i - 1, bare);
    }
  }

  lemma {:induction false} NoPassesLeft(ls: seq<Line>, bare: int)
    ensures bare + MaxDetails(ls) <= 0 || NoDetails(ls) ==> DetailPasses(ls, bare) == 0
    ensures bare + MaxDetails(ls) > 0 && !NoDetails(ls) ==> DetailPasses(ls, bare) > 0
  {
    if ls != [] {
      MaxDetailsFirst(ls);
      NoPassesLeft(ls[1..], bare);
      assert NoDetails(ls) <==> ls[0].details == "" && NoDetails(ls[1..]);
    }
  }

  lemma {:induction false} NoDetailsWidth(ls: seq<Line>)
    ensures NoDetails(ls) <==> MaxDetails(ls) == 0
  {
    if ls != [] {
      var n := |ls| - 1;
      NoDetailsWidth(ls[..n]);
      assert NoDetails(ls) <==> NoDetails(ls[..n]) && ls[n].details == "";
    }
  }

  lemma {:induction false} IDSlackAt(ls: seq<Line>, i: nat, l: Line)
    requires i < |ls|
    ensures l.taskID == ls[i].taskID ==> IDSlack(ls[i := l]) == IDSlack(ls)
    ensures MIN_ID_LEN <= |l.taskID| < |ls[i].taskID| ==> IDSlack(ls[i := l]) < IDSlack(ls)
  {
    var n := |ls| - 1;
    if i == n {
      assert ls[i := l][..n] == ls[..n];
    } else {
      assert ls[i := l][..n] == ls[..n][i := l];
      IDSlackAt(ls[..n], i, l);
    }
  }

  lemma CountedMore(start: seq<Line>, before: seq<Line>, after: seq<Line>, pass: nat, timerLen: nat, terminalWidth: int)
    requires Counted(start, before, pass, timerLen, terminalWidth) && !Fits(before, timerLen, terminalWidth)
    requires Step(before, after, Width(before, timerLen) - terminalWidth)
    ensures Counted(start, after, pass + 1, timerLen, terminalWidth)
  {
    if NoDetails(before) {
      IDPassCounted(start, before, after, pass, timerLen, terminalWidth);
    } else {
      DetailPassCounted(start, before, after, pass, timerLen, terminalWidth);
    }
    hide Step, Width, Counted, NoDetails;
  }

  lemma IDPassCounted(start: seq<Line>, before: seq<Line>, after: seq<Line>, pass: nat,
                      timerLen: nat, terminalWidth: int)
    requires Counted(start, before, pass, timerLen, terminalWidth) && !Fits(before, timerLen, terminalWidth)
    requires NoDetails(before) && Step(before, after, Width(before, timerLen) - terminalWidth)
    ensures Counted(start, after, pass + 1, timerLen, terminalWidth)
  {
    NoDetailsWidth(before);
    NoPassesLeft(before, Bare(start, timerLen, terminalWidth));
    IDCut(before, after, timerLen, terminalWidth);
    assert WithoutDetails(before) == before;
    hide Step, NoDetails, MaxBefore, MaxStatus, MaxDetails, DetailPasses, IDPasses, WithoutDetails;
  }

  lemma IDCut(before: seq<Line>, after: seq<Line>, timerLen: nat, terminalWidth: int)
    requires NoDetails(before) && Bare(before, timerLen, terminalWidth) > 0
    requires Step(before, after, Bare(before, timerLen, terminalWidth))
    ensures NoDetails(after)
    ensures IDPasses(after, timerLen, terminalWidth) == IDPasses(before, timerLen, terminalWidth) - 1
  {
    var overflow := Bare(before, timerLen, terminalWidth);
    var i :| FirstLongest(before, i) && after == before[i := CutID(before[i], overflow)];
    assert i == Longest(before);
  }

  lemma DetailPassCounted(start: seq<Line>, before: seq<Line>, after: seq<Line>, pass: nat,
                          timerLen: nat, terminalWidth: int)
    requires Counted(start, before, pass, timerLen, terminalWidth) && !Fits(before, timerLen, terminalWidth)
    requires !NoDetails(before) && Step(before, after, Width(before, timerLen) - terminalWidth)
    ensures Counted(start, after, pass + 1, timerLen, terminalWidth)
  {
    SameWithoutDetails(before, timerLen, terminalWidth);
    SameWithoutDetails(start, timerLen, terminalWidth);
    DetailCut(before, after, Bare(before, timerLen, terminalWidth));
    hide Step, NoDetails, MaxBefore, MaxStatus, MaxDetails, DetailPasses, IDPasses, WithoutDetails;
  }

  lemma DetailCut(before: seq<Line>, after: seq<Line>, bare: int)
    requires bare + MaxDetails(before) > 0 && !NoDetails(before) && Step(before, after, bare + MaxDetails(before))
    ensures WithoutDetails(after) == WithoutDetails(before)
    ensures DetailPasses(after, bare) == DetailPasses(before, bare) - 1
  {
    hide MaxDetails, DetailPasses, ShorterDetails, NoDetails;
    var i :| FirstDetailed(before, i) && after == before[i := CutDetails(before[i], bare + MaxDetails(before))];
    DetailCutCounts(before, i, bare);
  }

  // ---- padding ----

  /** The line after padding: its status and its timer are where they belong. */
  ghost predicate Padded(before: Line, after: Line, maxBefore: nat, timerLen: nat, terminalWidth: int) {
    && after == before.(statusPad := after.statusPad, timerPad := after.timerPad)
    && after.StatusColumn() == maxBefore + 1
    && after.TimerColumn() ==
         Max(terminalWidth - timerLen, after.StatusColumn() + |after.status| + after.DetailsLen() + 1)
  }

  method ApplyPadding(lines: array<Line>, terminalWidth: int, timerLen: nat)
    modifies lines
    ensures forall i :: 0 <= i < lines.Length ==>
              Padded(old(lines[i]), lines[i], MaxBefore(old(lines[..])), timerLen, terminalWidth)
  {
    var maxBeforeStatus := MaxBeforeStatusWidth(lines);
    for i := 0 to lines.Length
      invariant forall j :: 0 <= j < i ==> Padded(old(lines[j]), lines[j], maxBeforeStatus, timerLen, terminalWidth)
      invariant forall j :: i <= j < lines.Length ==> lines[j] == old(lines[j])
    {
      var l := lines[i];
      var beforeStatus := 3 + |l.prefix| + |l.taskID| + |l.progress|;
      BeforeAtMost(old(lines[..]), i);
      var statusPad := maxBeforeStatus - beforeStatus;
      var lineLen := beforeStatus + statusPad + 1 + |l.status|;
      if l.details != "" {
        lineLen := lineLen + 1 + |l.details|;
      }
      lines[i] := l.(statusPad := statusPad, timerPad := Max(terminalWidth - lineLen - timerLen, 1));
    }
  }

  lemma {:induction false} BeforeAtMost(ls: seq<Line>, i: nat)
    requires i < |ls|
    ensures ls[i].Before() <= MaxBefore(ls) && |ls[i].status| <= MaxStatus(ls)
    ensures ls[i].DetailsLen() <= MaxDetails(ls) && |ls[i].timer| <= MaxTimer(ls)
  {
    if i < |ls| - 1 {
      BeforeAtMost(ls[..|ls| - 1], i);
    }
  }

  // ---- the lines as they are printed ----

  /** What print does with the lines. The statuses are always in one column. If
      the adjusted lines fit, that is if the smallest lines do and the passes
      suffice, then also the timers are, and no line is wider than the terminal. */
  method Layout(lines: array<Line>, terminalWidth: int) returns (ghost column: nat)
    modifies lines
    ensures forall i :: 0 <= i < lines.Length ==> At(LineText(lines[i]), column, old(lines[i]).status)
    ensures var start, timerLen := old(lines[..]), MaxTimer(old(lines[..]));
            Suffices(start, timerLen, terminalWidth) && Fits(AllSmallest(start), timerLen, terminalWidth) ==>
              forall i :: 0 <= i < lines.Length ==>
                && At(LineText(lines[i]), terminalWidth - timerLen, start[i].timer)
                && |LineText(lines[i])| <= terminalWidth
  {
    hide Adjusted, AsGoodAsPossible, Suffices, Fits, Padded, LineText, At, AllSmallest, MaxBefore, MaxTimer;
    var timerLen := LongestTimer(lines);
    var passes := AdjustLineWidth(lines, timerLen, terminalWidth);
    ghost var adjusted := lines[..];
    ApplyPadding(lines, terminalWidth, timerLen);
    column := MaxBefore(adjusted) + 1;
    EnoughRoom(old(lines[..]), adjusted, timerLen, terminalWidth);
    SameLength(old(lines[..]), adjusted, passes, timerLen, terminalWidth);
    forall i | 0 <= i < lines.Length
      ensures At(LineText(lines[i]), column, old(lines[i]).status)
      ensures Fits(adjusted, timerLen, terminalWidth) ==>
                At(LineText(lines[i]), terminalWidth - timerLen, old(lines[i]).timer) &&
                |LineText(lines[i])| <= terminalWidth
    {
      Printed(old(lines[..]), adjusted, passes, i, lines[i], timerLen, terminalWidth);
    }
  }

  method LongestTimer(lines: array<Line>) returns (timerLen: nat)
    ensures timerLen == MaxTimer(lines[..])
  {
    timerLen := 0;
    for i := 0 to lines.Length
      invariant timerLen == MaxTimer(lines[..i])
    {
      assert lines[..i + 1][..i] == lines[..i];
      if |lines[i].timer| > timerLen {
        timerLen := |lines[i].timer|;
      }
    }
    assert lines[..lines.Length] == lines[..];
  }

  lemma EnoughRoom(start: seq<Line>, adjusted: seq<Line>, timerLen: nat, terminalWidth: int)
    requires AsGoodAsPossible(start, adjusted, timerLen, terminalWidth)
    ensures Suffices(start, timerLen, terminalWidth) && Fits(AllSmallest(start), timerLen, terminalWidth) ==>
              Fits(adjusted, timerLen, terminalWidth)
  {
  }

  lemma SameLength(start: seq<Line>, adjusted: seq<Line>, passes: nat, timerLen: nat, terminalWidth: int)
    requires Adjusted(start, adjusted, passes, timerLen, terminalWidth)
    ensures |adjusted| == |start|
  {
  }

  lemma Printed(start: seq<Line>, adjusted: seq<Line>, passes: nat, i: nat, l: Line, timerLen: nat, terminalWidth: int)
    requires Adjusted(start, adjusted, passes, timerLen, terminalWidth) && timerLen == MaxTimer(start)
    requires i < |start| == |adjusted| && Padded(adjusted[i], l, MaxBefore(adjusted), timerLen, terminalWidth)
    ensures At(LineText(l), MaxBefore(adjusted) + 1, start[i].status)
    ensures Fits(adjusted, timerLen, terminalWidth) ==>
              At(LineText(l), terminalWidth - timerLen, start[i].timer) && |LineText(l)| <= terminalWidth
  {
    assert Kin(start[i], adjusted[i]);
    BeforeAtMost(start, i);
    PrintedLine(start[i], adjusted, i, l, timerLen, terminalWidth);
    hide LineText, MaxBefore, MaxTimer, Adjusted, Padded, At, Fits, Kin;
  }

  lemma PrintedLine(start: Line, adjusted: seq<Line>, i: nat, l: Line, timerLen: nat, terminalWidth: int)
    requires i < |adjusted| && Kin(start, adjusted[i]) && |start.timer| <= timerLen
    requires Padded(adjusted[i], l, MaxBefore(adjusted), timerLen, terminalWidth)
    ensures At(LineText(l), MaxBefore(adjusted) + 1, start.status)
    ensures Fits(adjusted, timerLen, terminalWidth) ==>
              At(LineText(l), terminalWidth - timerLen, start.timer) && |LineText(l)| <= terminalWidth
  {
    TextLayout(l);
    TimerAligned(adjusted, i, l, timerLen, terminalWidth);
    assert l.status == start.status && l.timer == start.timer;
    hide LineText, At, Fits, Padded, Kin, Line.TimerColumn, MaxBefore;
  }

  lemma TimerAligned(adjusted: seq<Line>, i: nat, l: Line, timerLen: nat, terminalWidth: int)
    requires i < |adjusted| && Padded(adjusted[i], l, MaxBefore(adjusted), timerLen, terminalWidth)
    ensures l.StatusColumn() == MaxBefore(adjusted) + 1
    ensures Fits(adjusted, timerLen, terminalWidth) ==> l.TimerColumn() == terminalWidth - timerLen
  {
    hide MaxBefore, MaxStatus, MaxDetails;
    BeforeAtMost(adjusted, i);
  }

  // ---- the limit on the number of passes ----

  /** x divided by r, rounded up. */
  function Ceil(x: int, r: nat): nat
    requires r > 0
    decreases x
  {
    if x <= 0 then 0 else 1 + Ceil(x - r, r)
  }

  lemma {:induction false} CeilAbove(x: int, r: nat, n: nat)
    requires r > 0 && x > n * r
    ensures Ceil(x, r) > n
  {
    if n > 0 {
      assert x - r > (n - 1) * r;
      CeilAbove(x - r, r, n - 1);
    }
  }

  lemma {:induction false} CeilMonotone(x: int, y: int, r: nat)
    requires r > 0 && x <= y
    ensures Ceil(x, r) <= Ceil(y, r)
    decreases y
  {
    if y > 0 {
      CeilMonotone(x - r, y - r, r);
    }
  }

  /** Details cost two passes if no other line is too wide, or if they are not
      much longer than what the others lack; at most their length divided by
      that otherwise, and exactly so if their line is not the widest. */
  lemma {:induction false} LinePassesOf(d: nat, rest: int, bare: int)
    ensures rest <= 0 ==> LinePasses(d, rest, bare) <= 2
    ensures rest > 0 ==> LinePasses(d, rest, bare) <= Ceil(d - 3, rest) + 1
    ensures rest > 0 && d - 3 <= rest ==> LinePasses(d, rest, bare) <= 2
    ensures rest > 0 && d > 3 && bare + 1 + d <= rest ==> LinePasses(d, rest, bare) == Ceil(d - 3, rest) + 1
    decreases d
  {
    var overflow := Max(bare + 1 + d, rest);
    if d > 3 && overflow > 0 {
      LinePassesOf(Max(d - overflow, 3), rest, bare);
      if rest > 0 {
        CeilMonotone(Max(d - overflow, 3) - 3, Max(d - 3 - rest, 0), rest);
      }
    }
  }

  lemma LongLine(d: nat, rest: nat, bare: int)
    requires rest > 0 && bare + 1 + d <= rest && d > 100 * rest + 3
    ensures LinePasses(d, rest, bare) > 100
  {
    LinePassesOf(d, rest, bare);
    CeilAbove(d - 3, rest, 100);
  }

  /** If the first line with details is not the widest, and its details are longer
      than a hundred times what the others lack, a hundred passes do not suffice. */
  lemma {:induction false} LimitReached(ls: seq<Line>, i: nat, bare: int)
    requires FirstDetailed(ls, i) && bare + MaxDetails(ls[i + 1..]) > 0
    requires ls[i].DetailsLen() <= MaxDetails(ls[i + 1..])
    requires |ls[i].details| > 100 * (bare + MaxDetails(ls[i + 1..])) + 3
    ensures DetailPasses(ls, bare) > 100
  {
    if i == 0 {
      LongLine(|ls[0].details|, bare + MaxDetails(ls[1..]), bare);
    } else {
      assert ls[1..][i - 1 + 1..] == ls[i + 1..];
      LimitReached(ls[1..], i - 1, bare);
    }
  }

  /** For instance, whatever the task IDs, statuses and timers of two lines: if
      both have details of d characters and one column is lacking, they do not
      fit in the end, although they would without details. */
  lemma OneColumnLacking(ls: seq<Line>, d: nat, timerLen: nat)
    requires |ls| == 2 && |ls[0].details| == d && |ls[1].details| == d && d >= 104
    ensures var terminalWidth := Width(ls, timerLen) - 1;
            && Bare(ls, timerLen, terminalWidth) <= 0 && Fits(AllSmallest(ls), timerLen, terminalWidth)
            && !Suffices(ls, timerLen, terminalWidth)
  {
    var terminalWidth := Width(ls, timerLen) - 1;
    MaxDetailsFirst(ls);
    MaxDetailsFirst(ls[1..]);
    assert ls[1..][1..] == [] && ls[1..][0] == ls[1];
    LimitReached(ls, 0, Bare(ls, timerLen, terminalWidth));
    SmallestIsSmaller(ls, ls, timerLen);
    NoDetailsWidth(AllSmallest(ls));
  }
}
